/** Logins, administration and logouts as concurrent transactions over one database,
    with the browsers' cookie jars: every step a worker, the database or a browser
    takes. Transactions run under READ COMMITTED: a statement sees committed rows, a
    write holds its row until the transaction ends, and another writer waits. */
module LoginProtocol {
  import opened Text

  type Tenant = nat
  type StateId = nat
  type BindingId = nat
  type PartyId = nat
  type SessionId = nat
  type TxId = nat

  /** One browser at one tenant's host: the scope of a host-only cookie. */
  datatype Agent = Agent(browser: nat, tenant: Tenant)

  /** A ceremony row. Its key, the state hash, stands for the state itself. */
  datatype Ceremony = Ceremony(tenant: Tenant, provider: string, returnTo: string, expiresAt: int)

  datatype Subject = Subject(issuer: string, subject: string)

  datatype Binding = Binding(tenant: Tenant, party: PartyId, provider: string, subject: Subject, active: bool)

  datatype Session = Session(tenant: Tenant, party: PartyId, binding: BindingId, revoked: bool)

  /** What a worker sends back; the network may deliver it late, twice or never, and
      whether or not its transaction commits. */
  datatype Response =
    | StateCookie(agent: Agent, id: StateId)
    | SignedIn(agent: Agent, session: SessionId, landing: string)
    | Refusal(agent: Agent)
    | SignedOut(agent: Agent)

  /** A request's transaction and how far it has got. */
  datatype Tx =
    | Beginning(agent: Agent, path: string, started: nat, put: Option<(StateId, Ceremony)>, swept: set<StateId>)
    | Calling(agent: Agent, query: StateId, cookie: Option<StateId>, provider: string, started: nat,
              taken: Option<Ceremony>, verified: Option<Subject>, finalized: Option<BindingId>, locked: bool,
              issued: Option<(SessionId, Session)>, answered: bool)
    | Administering(tenant: Tenant, binding: BindingId, activate: bool, locked: bool, applied: bool, revokes: set<SessionId>)
    | Leaving(agent: Agent, session: SessionId, revokes: set<SessionId>)

  /** Which browser began a ceremony, and the return path it gave. */
  datatype Begun = Begun(agent: Agent, path: string)

  datatype State = State(
    now: nat,
    ceremonies: map<StateId, Ceremony>,
    bindings: map<BindingId, Binding>,
    sessions: map<SessionId, Session>,
    txs: map<TxId, Tx>,
    responses: set<Response>,
    stateJar: map<Agent, StateId>,
    sessionJar: map<Agent, SessionId>,
    // What happened, for the properties to speak of; no step reads these but to
    // draw fresh identifiers.
    begun: map<StateId, Begun>,
    origin: map<SessionId, StateId>,
    landings: set<(Agent, SessionId, string)>)

  ghost predicate Init(s: State) {
    && s.ceremonies == map[] && s.sessions == map[] && s.txs == map[] && s.responses == {}
    && s.stateJar == map[] && s.sessionJar == map[]
    && s.begun == map[] && s.origin == map[] && s.landings == {}
  }

  /** The ceremony rows a transaction holds: inserted, swept or taken. */
  function Claims(tx: Tx): set<StateId> {
    match tx
    case Beginning(_, _, _, put, swept) => swept + (if put.Some? then {put.value.0} else {})
    case Calling(_, query, _, _, _, taken, _, _, _, _, _) => if taken.Some? then {query} else {}
    case _ => {}
  }

  /** The binding rows a transaction holds. */
  function Locks(tx: Tx): set<BindingId> {
    match tx
    case Calling(_, _, _, _, _, _, _, finalized, locked, _, _) =>
      if locked && finalized.Some? then {finalized.value} else {}
    case Administering(_, b, _, locked, _, _) => if locked then {b} else {}
    case _ => {}
  }

  function Issues(tx: Tx): set<SessionId> {
    if tx.Calling? && tx.issued.Some? then {tx.issued.value.0} else {}
  }

  ghost predicate Unclaimed(s: State, t: TxId, id: StateId) {
    forall u :: u in s.txs && u != t ==> id !in Claims(s.txs[u])
  }

  ghost predicate Unlocked(s: State, t: TxId, b: BindingId) {
    forall u :: u in s.txs && u != t ==> b !in Locks(s.txs[u])
  }

  datatype Action =
    | Tick
    | StartBegin(t: TxId, agent: Agent, path: string)
    | PutCeremony(t: TxId, id: StateId, provider: string, ttl: nat)
    | SendState(t: TxId)
    | StartCallback(t: TxId, agent: Agent, query: StateId, provider: string)
    | TakeCeremony(t: TxId)
    | VerifyToken(t: TxId, subject: Subject)
    | FinalizeLogin(t: TxId, b: BindingId)
    | IssueSession(t: TxId, sid: SessionId)
    | RefuseCallback(t: TxId)
    | StartAdmin(t: TxId, tenant: Tenant, b: BindingId, activate: bool)
    | LockAdmin(t: TxId)
    | ApplyAdmin(t: TxId)
    | AddBinding(b: BindingId, binding: Binding)
    | StartLogout(t: TxId, agent: Agent)
    | FindSession(t: TxId)
    | AnswerLogout(t: TxId)
    | Commit(t: TxId)
    | Abort(t: TxId)
    | Deliver(r: Response)
    | DropState(agent: Agent)
    | DropSession(agent: Agent)

  function SweptBy(s: State, tenant: Tenant, started: nat): set<StateId> {
    set id | id in s.ceremonies && s.ceremonies[id].tenant == tenant && s.ceremonies[id].expiresAt <= started
  }

  function LiveSessionsOf(s: State, b: BindingId): set<SessionId> {
    set sid | sid in s.sessions && s.sessions[sid].binding == b && !s.sessions[sid].revoked
  }

  /** When a step can be taken. `locking` says whether the callback finalizes under
      the binding's row lock, as the code does, or merely resolves the binding. */
  ghost predicate Enabled(s: State, a: Action, locking: bool) {
    match a
    case Tick => true
    case StartBegin(t, _, _) => t !in s.txs
    case PutCeremony(t, id, _, _) =>
      && t in s.txs && s.txs[t].Beginning? && s.txs[t].put.None? && id !in s.begun
      && (forall dead :: dead in SweptBy(s, s.txs[t].agent.tenant, s.txs[t].started) ==> Unclaimed(s, t, dead))
    case SendState(t) => t in s.txs && s.txs[t].Beginning? && s.txs[t].put.Some?
    case StartCallback(t, _, _, _) => t !in s.txs
    case TakeCeremony(t) =>
      && t in s.txs && s.txs[t].Calling? && s.txs[t].taken.None? && !s.txs[t].answered
      && s.txs[t].cookie == Some(s.txs[t].query)
      && s.txs[t].query in s.ceremonies
      && s.ceremonies[s.txs[t].query].tenant == s.txs[t].agent.tenant
      && s.ceremonies[s.txs[t].query].expiresAt > s.txs[t].started
      && Unclaimed(s, t, s.txs[t].query)
    case VerifyToken(t, _) =>
      && t in s.txs && s.txs[t].Calling? && s.txs[t].taken.Some? && s.txs[t].verified.None? && !s.txs[t].answered
      && s.txs[t].taken.value.provider == s.txs[t].provider
    case FinalizeLogin(t, b) =>
      && t in s.txs && s.txs[t].Calling? && s.txs[t].verified.Some? && s.txs[t].finalized.None? && !s.txs[t].answered
      && b in s.bindings && s.bindings[b].active
      && s.bindings[b].tenant == s.txs[t].agent.tenant && s.bindings[b].provider == s.txs[t].provider
      && s.bindings[b].subject == s.txs[t].verified.value
      && (locking ==> Unlocked(s, t, b))
    case IssueSession(t, sid) =>
      && t in s.txs && s.txs[t].Calling? && s.txs[t].finalized.Some? && s.txs[t].finalized.value in s.bindings
      && s.txs[t].taken.Some? && !s.txs[t].answered && sid !in s.origin
    case RefuseCallback(t) => t in s.txs && s.txs[t].Calling? && !s.txs[t].answered
    case StartAdmin(t, _, _, _) => t !in s.txs
    case LockAdmin(t) =>
      && t in s.txs && s.txs[t].Administering? && !s.txs[t].locked
      && s.txs[t].binding in s.bindings && s.bindings[s.txs[t].binding].tenant == s.txs[t].tenant
      && Unlocked(s, t, s.txs[t].binding)
    case ApplyAdmin(t) => t in s.txs && s.txs[t].Administering? && s.txs[t].locked && !s.txs[t].applied
    case AddBinding(b, binding) =>
      && b !in s.bindings && binding.active
      && (forall c :: c in s.bindings ==>
            (s.bindings[c].tenant, s.bindings[c].provider, s.bindings[c].subject)
            != (binding.tenant, binding.provider, binding.subject))
    case StartLogout(t, agent) => t !in s.txs && agent in s.sessionJar
    case FindSession(t) => t in s.txs && s.txs[t].Leaving?
    case AnswerLogout(t) => t in s.txs && s.txs[t].Leaving?
    case Commit(t) =>
      && t in s.txs
      && (s.txs[t].Calling? ==> s.txs[t].answered)
      && (s.txs[t].Administering? ==> s.txs[t].applied)
    case Abort(t) => t in s.txs
    case Deliver(r) => r in s.responses
    case DropState(_) => true
    case DropSession(_) => true
  }

  function WithTx(s: State, t: TxId, tx: Tx): State { s.(txs := s.txs[t := tx]) }

  function Revoked(sessions: map<SessionId, Session>, revokes: set<SessionId>): map<SessionId, Session> {
    map sid | sid in sessions :: if sid in revokes then sessions[sid].(revoked := true) else sessions[sid]
  }

  /** What a commit makes visible. */
  function Committed(s: State, tx: Tx): State {
    match tx
    case Beginning(_, _, _, put, swept) =>
      s.(ceremonies := (s.ceremonies - swept) + (if put.Some? then map[put.value.0 := put.value.1] else map[]))
    case Calling(_, query, _, _, _, taken, _, _, _, issued, _) =>
      s.(ceremonies := if taken.Some? then s.ceremonies - {query} else s.ceremonies,
         sessions := if issued.Some? then s.sessions[issued.value.0 := issued.value.1] else s.sessions)
    case Administering(_, b, activate, _, _, revokes) =>
      if b !in s.bindings then s
      else s.(bindings := s.bindings[b := s.bindings[b].(active := activate)],
              sessions := Revoked(s.sessions, revokes))
    case Leaving(_, _, revokes) => s.(sessions := Revoked(s.sessions, revokes))
  }

  function CommitOf(s: State, t: TxId): State
    requires t in s.txs
  {
    Committed(s, s.txs[t]).(txs := s.txs - {t})
  }

  function Delivered(s: State, r: Response): State {
    match r
    case StateCookie(agent, id) => s.(stateJar := s.stateJar[agent := id])
    case SignedIn(agent, sid, landing) =>
      s.(sessionJar := s.sessionJar[agent := sid], stateJar := s.stateJar - {agent},
         landings := s.landings + {(agent, sid, landing)})
    case Refusal(agent) => s.(stateJar := s.stateJar - {agent})
    case SignedOut(agent) => s.(sessionJar := s.sessionJar - {agent})
  }

  function Respond(s: State, r: Response): State { s.(responses := s.responses + {r}) }

  function JarOf<T>(jar: map<Agent, T>, agent: Agent): Option<T> {
    if agent in jar then Some(jar[agent]) else None
  }

  ghost function Next(s: State, a: Action, locking: bool): State
    requires Enabled(s, a, locking)
  {
    match a
    case Tick => s.(now := s.now + 1)
    case StartBegin(t, agent, path) => WithTx(s, t, Beginning(agent, path, s.now, None, {}))
    case PutCeremony(t, id, provider, ttl) =>
      var tx := s.txs[t];
      var row := Ceremony(tx.agent.tenant, provider, tx.path, s.now + ttl);
      WithTx(s.(begun := s.begun[id := Begun(tx.agent, tx.path)]), t,
             tx.(put := Some((id, row)), swept := SweptBy(s, tx.agent.tenant, tx.started)))
    case SendState(t) => Respond(s, StateCookie(s.txs[t].agent, s.txs[t].put.value.0))
    case StartCallback(t, agent, query, provider) =>
      WithTx(s, t, Calling(agent, query, JarOf(s.stateJar, agent), provider, s.now, None, None, None, false, None, false))
    case TakeCeremony(t) => WithTx(s, t, s.txs[t].(taken := Some(s.ceremonies[s.txs[t].query])))
    case VerifyToken(t, subject) => WithTx(s, t, s.txs[t].(verified := Some(subject)))
    case FinalizeLogin(t, b) => WithTx(s, t, s.txs[t].(finalized := Some(b), locked := locking))
    case IssueSession(t, sid) =>
      var tx := s.txs[t];
      var b := tx.finalized.value;
      var session := Session(tx.agent.tenant, s.bindings[b].party, b, false);
      Respond(WithTx(s.(origin := s.origin[sid := tx.query]), t, tx.(issued := Some((sid, session)), answered := true)),
              SignedIn(tx.agent, sid, tx.taken.value.returnTo))
    case RefuseCallback(t) => Respond(WithTx(s, t, s.txs[t].(answered := true)), Refusal(s.txs[t].agent))
    case StartAdmin(t, tenant, b, activate) => WithTx(s, t, Administering(tenant, b, activate, false, false, {}))
    case LockAdmin(t) => WithTx(s, t, s.txs[t].(locked := true))
    case ApplyAdmin(t) =>
      WithTx(s, t, s.txs[t].(applied := true,
                             revokes := if s.txs[t].activate then {} else LiveSessionsOf(s, s.txs[t].binding)))
    case AddBinding(b, binding) => s.(bindings := s.bindings[b := binding])
    case StartLogout(t, agent) => WithTx(s, t, Leaving(agent, s.sessionJar[agent], {}))
    case FindSession(t) =>
      var tx := s.txs[t];
      WithTx(s, t, tx.(revokes := if tx.session in s.sessions && s.sessions[tx.session].tenant == tx.agent.tenant
                                  then {tx.session} else {}))
    case AnswerLogout(t) => Respond(s, SignedOut(s.txs[t].agent))
    case Commit(t) => CommitOf(s, t)
    case Abort(t) => s.(txs := s.txs - {t})
    case Deliver(r) => Delivered(s, r)
    case DropState(agent) => s.(stateJar := s.stateJar - {agent})
    case DropSession(agent) => s.(sessionJar := s.sessionJar - {agent})
  }

  ghost predicate Step(s: State, a: Action, s': State, locking: bool) {
    Enabled(s, a, locking) && s' == Next(s, a, locking)
  }

  /** A run: an initial state and one step after another. */
  ghost predicate Run(states: seq<State>, actions: seq<Action>, locking: bool) {
    && |states| == |actions| + 1 && Init(states[0])
    && forall i :: 0 <= i < |actions| ==> Step(states[i], actions[i], states[i + 1], locking)
  }
}
