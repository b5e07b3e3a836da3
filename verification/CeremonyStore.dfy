/** The login ceremonies' shared table, `PostgresStateStore` over it, and the simple
    map of live ceremonies it stands for. */
module CeremonyStore {
  import opened Text

  type Tenant = nat

  datatype LoginState = LoginState(id: string, verifier: string, nonce: string,
                                   redirectUri: string, returnTo: string, issuedAt: int)

  /** `state_hash`: the digest is a value of its own, and no two states share one. */
  datatype StateHash = Sha256(preimage: string)

  datatype Row = Row(verifier: string, nonce: string, redirectUri: string, returnTo: string,
                     issuedAt: int, provider: string, expiresAt: int)

  /** The table's unique key. */
  type Key = (Tenant, StateHash)

  type Rows = map<Key, Row>

  function KeyOf(tenant: Tenant, id: string): Key { (tenant, Sha256(id)) }

  function RowOf(s: LoginState, provider: string, expiresAt: int): Row {
    Row(s.verifier, s.nonce, s.redirectUri, s.returnTo, s.issuedAt, provider, expiresAt)
  }

  function StateOf(id: string, row: Row): LoginState {
    LoginState(id, row.verifier, row.nonce, row.redirectUri, row.returnTo, row.issuedAt)
  }

  // ---- the three statements ----

  /** `DELETE … WHERE tenant_id = :tenant_id AND expires_at <= now()` */
  function Swept(rows: Rows, tenant: Tenant, now: int): Rows {
    map k | k in rows && !(k.0 == tenant && rows[k].expiresAt <= now) :: rows[k]
  }

  /** Sweep, then insert; `None` is the unique key's violation. */
  function AfterPut(rows: Rows, tenant: Tenant, provider: string, s: LoginState, ttl: int, now: int): Option<Rows> {
    var swept := Swept(rows, tenant, now);
    if KeyOf(tenant, s.id) in swept then None
    else Some(swept[KeyOf(tenant, s.id) := RowOf(s, provider, now + ttl)])
  }

  predicate Consumable(rows: Rows, tenant: Tenant, id: string, now: int) {
    KeyOf(tenant, id) in rows && rows[KeyOf(tenant, id)].expiresAt > now
  }

  /** The consuming `DELETE … RETURNING`. */
  function AfterTake(rows: Rows, tenant: Tenant, id: string, now: int): Rows {
    if Consumable(rows, tenant, id, now) then rows - {KeyOf(tenant, id)} else rows
  }

  /** What `take` gives its caller: a row of another registration is consumed, and refused. */
  function TakeResult(rows: Rows, tenant: Tenant, provider: string, id: string, now: int): Option<LoginState> {
    if Consumable(rows, tenant, id, now) && rows[KeyOf(tenant, id)].provider == provider
    then Some(StateOf(id, rows[KeyOf(tenant, id)])) else None
  }

  /** The one shared table. */
  class CeremonyTable {
    var rows: Rows

    constructor ()
      ensures rows == map[]
    {
      rows := map[];
    }
  }

  /** The per-request store: a tenant and a provider binding over the shared table. */
  class PostgresStateStore {
    const table: CeremonyTable
    const tenant: Tenant
    const provider: string

    constructor (table: CeremonyTable, tenant: Tenant, provider: string)
      ensures this.table == table && this.tenant == tenant && this.provider == provider
    {
      this.table, this.tenant, this.provider := table, tenant, provider;
    }

    /** A violated key aborts the request's transaction, which takes the sweep back. */
    method Put(s: LoginState, ttl: int, now: int) returns (ok: bool)
      modifies table
      ensures ok == AfterPut(old(table.rows), tenant, provider, s, ttl, now).Some?
      ensures table.rows == AfterPut(old(table.rows), tenant, provider, s, ttl, now).GetOr(old(table.rows))
    {
      var before := table.rows;
      table.rows := map k | k in table.rows && !(k.0 == tenant && table.rows[k].expiresAt <= now) :: table.rows[k];
      var key := KeyOf(tenant, s.id);
      if key in table.rows {
        table.rows := before;
        return false;
      }
      table.rows := table.rows[key := RowOf(s, provider, now + ttl)];
      return true;
    }

    method Take(id: string, now: int) returns (r: Option<LoginState>)
      modifies table
      ensures r == TakeResult(old(table.rows), tenant, provider, id, now)
      ensures table.rows == AfterTake(old(table.rows), tenant, id, now)
    {
      var key := KeyOf(tenant, id);
      if key !in table.rows || table.rows[key].expiresAt <= now { return None; }
      var row := table.rows[key];
      table.rows := table.rows - {key};
      if row.provider != provider { return None; }
      return Some(StateOf(id, row));
    }
  }

  // ---- runs of the store ----

  datatype Op =
    | Put(tenant: Tenant, provider: string, state: LoginState, ttl: int)
    | Take(tenant: Tenant, provider: string, id: string)
    | Tick(elapsed: nat)

  datatype Answer = Stored(ok: bool) | Taken(state: Option<LoginState>) | Ticked

  datatype World = World(rows: Rows, now: int)

  function Next(w: World, op: Op): World {
    match op
    case Put(t, p, s, ttl) => w.(rows := AfterPut(w.rows, t, p, s, ttl, w.now).GetOr(w.rows))
    case Take(t, p, id) => w.(rows := AfterTake(w.rows, t, id, w.now))
    case Tick(d) => w.(now := w.now + d)
  }

  function Reply(w: World, op: Op): Answer {
    match op
    case Put(t, p, s, ttl) => Stored(AfterPut(w.rows, t, p, s, ttl, w.now).Some?)
    case Take(t, p, id) => Taken(TakeResult(w.rows, t, p, id, w.now))
    case Tick(_) => Ticked
  }

  function Replies(w: World, ops: seq<Op>): seq<Answer>
    decreases |ops|
  {
    if ops == [] then [] else [Reply(w, ops[0])] + Replies(Next(w, ops[0]), ops[1..])
  }

  // ---- the live ceremonies ----

  datatype Ceremony = Ceremony(state: LoginState, provider: string, expiresAt: int)

  /** Only ceremonies that can still be completed, under their tenant and state. */
  datatype Live = Live(ceremonies: map<(Tenant, string), Ceremony>, now: int)

  function Unexpired(ceremonies: map<(Tenant, string), Ceremony>, now: int): map<(Tenant, string), Ceremony> {
    map k | k in ceremonies && ceremonies[k].expiresAt > now :: ceremonies[k]
  }

  /** Nothing is ever swept: time itself ends a ceremony. */
  function LiveNext(l: Live, op: Op): Live {
    match op
    case Put(t, p, s, ttl) =>
      if (t, s.id) in l.ceremonies || ttl <= 0 then l
      else l.(ceremonies := l.ceremonies[(t, s.id) := Ceremony(s, p, l.now + ttl)])
    case Take(t, p, id) => l.(ceremonies := l.ceremonies - {(t, id)})
    case Tick(d) => Live(Unexpired(l.ceremonies, l.now + d), l.now + d)
  }

  function LiveReply(l: Live, op: Op): Answer {
    match op
    case Put(t, p, s, ttl) => Stored((t, s.id) !in l.ceremonies)
    case Take(t, p, id) =>
      Taken(if (t, id) in l.ceremonies && l.ceremonies[(t, id)].provider == p
            then Some(l.ceremonies[(t, id)].state) else None)
    case Tick(_) => Ticked
  }

  function LiveReplies(l: Live, ops: seq<Op>): seq<Answer>
    decreases |ops|
  {
    if ops == [] then [] else [LiveReply(l, ops[0])] + LiveReplies(LiveNext(l, ops[0]), ops[1..])
  }

  predicate IsLive(w: World, k: (Tenant, string)) {
    KeyOf(k.0, k.1) in w.rows && w.rows[KeyOf(k.0, k.1)].expiresAt > w.now
  }

  /** The live ceremonies a stored table means. */
  ghost predicate Means(w: World, l: Live) {
    && l.now == w.now
    && (forall k :: k in l.ceremonies <==> IsLive(w, k))
    && (forall k :: k in l.ceremonies ==>
          var row := w.rows[KeyOf(k.0, k.1)];
          l.ceremonies[k] == Ceremony(StateOf(k.1, row), row.provider, row.expiresAt))
  }

  lemma PutSimulates(w: World, l: Live, op: Op)
    requires op.Put? && Means(w, l)
    ensures Reply(w, op) == LiveReply(l, op) && Means(Next(w, op), LiveNext(l, op))
  {
    var key := KeyOf(op.tenant, op.state.id);
    assert IsLive(w, (op.tenant, op.state.id)) <==> key in Swept(w.rows, op.tenant, w.now);
  }

  lemma TakeSimulates(w: World, l: Live, op: Op)
    requires op.Take? && Means(w, l)
    ensures Reply(w, op) == LiveReply(l, op) && Means(Next(w, op), LiveNext(l, op))
  {
    assert IsLive(w, (op.tenant, op.id)) <==> Consumable(w.rows, op.tenant, op.id, w.now);
  }

  lemma TickSimulates(w: World, l: Live, op: Op)
    requires op.Tick? && Means(w, l)
    ensures Means(Next(w, op), LiveNext(l, op))
  {
  }

  /** The stored table, with its opportunistic sweep and its rows that outlive their
      ceremony, answers every sequence of puts, takes and ticks as the map of live
      ceremonies does: sweeping is never observable. */
  lemma {:induction false} StoreRefinesLive(w: World, l: Live, ops: seq<Op>)
    requires Means(w, l)
    ensures Replies(w, ops) == LiveReplies(l, ops)
    decreases |ops|
  {
    if ops != [] {
      match ops[0] {
        case Put(_, _, _, _) => PutSimulates(w, l, ops[0]);
        case Take(_, _, _) => TakeSimulates(w, l, ops[0]);
        case Tick(_) => TickSimulates(w, l, ops[0]);
      }
      StoreRefinesLive(Next(w, ops[0]), LiveNext(l, ops[0]), ops[1..]);
    }
  }

  // ---- what a take can return ----

  function After(w: World, ops: seq<Op>): World
    decreases |ops|
  {
    if ops == [] then w else Next(After(w, ops[..|ops| - 1]), ops[|ops| - 1])
  }

  /** The world the `k`-th operation of a run from `w` meets. */
  function At(w: World, ops: seq<Op>, k: nat): World
    requires k <= |ops|
  {
    After(w, ops[..k])
  }

  lemma AtNext(w: World, ops: seq<Op>, k: nat)
    requires k < |ops|
    ensures At(w, ops, k + 1) == Next(At(w, ops, k), ops[k])
  {
    assert ops[..k + 1][..k] == ops[..k];
  }

  predicate TakesId(op: Op, tenant: Tenant, id: string) { op.Take? && op.tenant == tenant && op.id == id }

  /** Operation `j` stored this row, and nobody has tried to take it since. */
  ghost predicate StoredBy(w: World, ops: seq<Op>, j: nat, k: nat, tenant: Tenant, id: string, row: Row) {
    && j < k <= |ops| && ops[j].Put? && ops[j].tenant == tenant && ops[j].state.id == id
    && Reply(At(w, ops, j), ops[j]) == Stored(true)
    && row == RowOf(ops[j].state, ops[j].provider, At(w, ops, j).now + ops[j].ttl)
    && (forall i :: j < i < k ==> !TakesId(ops[i], tenant, id) || At(w, ops, i).now >= row.expiresAt)
  }

  /** One operation stores the row, or leaves it as it was. */
  lemma RowStep(w: World, op: Op, key: Key)
    requires key in Next(w, op).rows
    ensures if NewlyStored(w, op, key)
            then Next(w, op).rows[key] == RowOf(op.state, op.provider, w.now + op.ttl)
            else && key in w.rows && w.rows[key] == Next(w, op).rows[key]
                 && (TakesId(op, key.0, key.1.preimage) ==> w.now >= w.rows[key].expiresAt)
  {
  }

  lemma {:induction false} RowsComeFromPuts(w: World, ops: seq<Op>, k: nat, tenant: Tenant, id: string)
    requires w.rows == map[] && k <= |ops| && KeyOf(tenant, id) in At(w, ops, k).rows
    ensures exists j: nat :: StoredBy(w, ops, j, k, tenant, id, At(w, ops, k).rows[KeyOf(tenant, id)])
  {
    if k > 0 {
      AtNext(w, ops, k - 1);
      var before := At(w, ops, k - 1);
      var key := KeyOf(tenant, id);
      var row := At(w, ops, k).rows[key];
      RowStep(before, ops[k - 1], key);
      if NewlyStored(before, ops[k - 1], key) {
        assert StoredBy(w, ops, k - 1, k, tenant, id, row);
      } else {
        RowsComeFromPuts(w, ops, k - 1, tenant, id);
        var j: nat :| StoredBy(w, ops, j, k - 1, tenant, id, row);
        assert StoredBy(w, ops, j, k, tenant, id, row);
      }
    }
  }

  predicate NewlyStored(w: World, op: Op, key: Key) {
    op.Put? && KeyOf(op.tenant, op.state.id) == key && Reply(w, op) == Stored(true)
  }

  /** Operation `j` put exactly this state under this tenant and provider; it has not
      expired when operation `k` runs, and no take of its id came between. */
  ghost predicate PutBefore(w: World, ops: seq<Op>, j: nat, k: nat, tenant: Tenant, provider: string, s: LoginState) {
    && j < k <= |ops| && ops[j].Put? && ops[j].tenant == tenant && ops[j].provider == provider && ops[j].state == s
    && At(w, ops, k).now < At(w, ops, j).now + ops[j].ttl
    && (forall i :: j < i < k ==> !TakesId(ops[i], tenant, s.id))
  }

  /** In every run from an empty table, a take that returns a state returns exactly the
      fields its own tenant and provider binding put under that id, before they
      expired, and no take of that id came between. */
  lemma TakeReturnsWhatWasPut(w: World, ops: seq<Op>, k: nat, s: LoginState)
    requires w.rows == map[] && k < |ops| && ops[k].Take?
    requires Reply(At(w, ops, k), ops[k]) == Taken(Some(s))
    ensures s.id == ops[k].id
    ensures exists j: nat :: PutBefore(w, ops, j, k, ops[k].tenant, ops[k].provider, s)
  {
    var tenant, provider, id := ops[k].tenant, ops[k].provider, ops[k].id;
    RowsComeFromPuts(w, ops, k, tenant, id);
    var row := At(w, ops, k).rows[KeyOf(tenant, id)];
    var j: nat :| StoredBy(w, ops, j, k, tenant, id, row);
    forall i: nat | j < i < k ensures !TakesId(ops[i], tenant, id) { ClockMoves(w, ops, i, k); }
    assert PutBefore(w, ops, j, k, tenant, provider, s);
  }

  lemma {:induction false} ClockMoves(w: World, ops: seq<Op>, i: nat, k: nat)
    requires i <= k <= |ops|
    ensures At(w, ops, i).now <= At(w, ops, k).now
  {
    if i < k {
      AtNext(w, ops, k - 1);
      ClockMoves(w, ops, i, k - 1);
    }
  }

  /** A ceremony is spent by its first take: two takes of one id can both succeed
      only if the same tenant put it again in between. */
  lemma AtMostOncePerPut(w: World, ops: seq<Op>, i: nat, k: nat, a: LoginState, b: LoginState)
    requires w.rows == map[] && i < k < |ops| && ops[i].Take? && ops[k].Take?
    requires ops[i].tenant == ops[k].tenant && ops[i].id == ops[k].id
    requires Reply(At(w, ops, i), ops[i]) == Taken(Some(a)) && Reply(At(w, ops, k), ops[k]) == Taken(Some(b))
    ensures exists j :: i < j < k && ops[j].Put? && ops[j].tenant == ops[k].tenant && ops[j].state == b
  {
    TakeReturnsWhatWasPut(w, ops, k, b);
    var j: nat :| PutBefore(w, ops, j, k, ops[k].tenant, ops[k].provider, b);
    assert TakesId(ops[i], ops[k].tenant, b.id);
  }

  /** No operation of one tenant changes another tenant's rows, even a row stored
      under the same state hash. */
  lemma TenantsAreApart(w: World, op: Op, key: Key)
    requires !op.Tick? && key.0 != op.tenant
    ensures key in Next(w, op).rows <==> key in w.rows
    ensures key in w.rows ==> Next(w, op).rows[key] == w.rows[key]
  {
  }

  /** A take under the wrong provider binding consumes the row without returning it. */
  lemma WrongProviderConsumes(w: World, op: Op)
    requires op.Take? && Consumable(w.rows, op.tenant, op.id, w.now)
    requires w.rows[KeyOf(op.tenant, op.id)].provider != op.provider
    ensures Reply(w, op) == Taken(None)
    ensures Next(w, op).rows == w.rows - {KeyOf(op.tenant, op.id)}
  {
  }
}
