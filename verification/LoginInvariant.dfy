/** What every step of the login protocol keeps. */
module LoginInvariant {
  import opened Text
  import opened LoginProtocol

  /** A session and the binding it is stamped with. */
  ghost predicate Stamped(s: State, session: Session) {
    && session.binding in s.bindings
    && s.bindings[session.binding].party == session.party
    && s.bindings[session.binding].tenant == session.tenant
  }

  ghost predicate BegunBy(s: State, id: StateId, agent: Agent) {
    id in s.begun && s.begun[id].agent == agent
  }

  /** A ceremony row is the one its beginner asked for. */
  ghost predicate RowOk(s: State, id: StateId, row: Ceremony) {
    id in s.begun && row.tenant == s.begun[id].agent.tenant && row.returnTo == s.begun[id].path
  }

  /** An issued session belongs to a ceremony this agent began, and lands where it asked. */
  ghost predicate IssuedTo(s: State, sid: SessionId, agent: Agent) {
    sid in s.origin && BegunBy(s, s.origin[sid], agent)
  }

  ghost predicate LandsAt(s: State, sid: SessionId, landing: string) {
    sid in s.origin && s.origin[sid] in s.begun && s.begun[s.origin[sid]].path == landing
  }

  ghost predicate ResponseOk(s: State, r: Response) {
    match r
    case StateCookie(agent, id) => BegunBy(s, id, agent)
    case SignedIn(agent, sid, landing) => IssuedTo(s, sid, agent) && LandsAt(s, sid, landing)
    case _ => true
  }

  /** The tables and jars against what happened. */
  ghost predicate TablesOk(s: State) {
    && (forall id :: id in s.ceremonies ==> RowOk(s, id, s.ceremonies[id]))
    && (forall sid :: sid in s.origin ==> s.origin[sid] in s.begun)
    && (forall r :: r in s.responses ==> ResponseOk(s, r))
    && (forall a :: a in s.stateJar ==> BegunBy(s, s.stateJar[a], a))
    && (forall a :: a in s.sessionJar ==> IssuedTo(s, s.sessionJar[a], a))
    && (forall l :: l in s.landings ==> IssuedTo(s, l.1, l.0) && LandsAt(s, l.1, l.2))
  }

  /** Each committed session comes from a ceremony that is gone from the table. */
  ghost predicate OriginsSpent(s: State) {
    forall sid :: sid in s.sessions ==> sid in s.origin && s.origin[sid] !in s.ceremonies
  }

  /** No two committed sessions come from one ceremony. */
  ghost predicate OriginsDistinct(s: State)
    requires OriginsSpent(s)
  {
    forall a, b :: a in s.sessions && b in s.sessions && a != b ==> s.origin[a] != s.origin[b]
  }

  /** Each committed session is stamped with its party's binding, active while the
      session is live. */
  ghost predicate StampsOk(s: State) {
    forall sid :: sid in s.sessions ==>
      && Stamped(s, s.sessions[sid])
      && (!s.sessions[sid].revoked ==> s.bindings[s.sessions[sid].binding].active)
  }

  ghost predicate SessionsOk(s: State) {
    OriginsSpent(s) && OriginsDistinct(s) && StampsOk(s)
  }

  /** One transaction against the tables. */
  ghost predicate TxOk(s: State, tx: Tx) {
    match tx
    case Beginning(agent, path, started, put, swept) =>
      && started <= s.now
      && (put.Some? ==> && put.value.0 !in s.ceremonies && RowOk(s, put.value.0, put.value.1)
                        && s.begun[put.value.0] == Begun(agent, path))
      && (forall id :: id in swept ==> id in s.ceremonies && s.ceremonies[id].tenant == agent.tenant
                                       && s.ceremonies[id].expiresAt <= started)
    case Calling(agent, query, cookie, provider, started, taken, verified, finalized, locked, issued, _) =>
      && started <= s.now
      && (verified.Some? ==> taken.Some? && taken.value.provider == provider)
      && (cookie.Some? ==> BegunBy(s, cookie.value, agent))
      && (taken.Some? ==> && cookie == Some(query) && query in s.ceremonies && s.ceremonies[query] == taken.value
                          && taken.value.tenant == agent.tenant && taken.value.expiresAt > started)
      && (finalized.Some? ==> && locked && finalized.value in s.bindings && s.bindings[finalized.value].active
                              && s.bindings[finalized.value].tenant == agent.tenant
                              && s.bindings[finalized.value].provider == provider
                              && verified.Some? && s.bindings[finalized.value].subject == verified.value)
      && (issued.Some? ==> && taken.Some? && finalized.Some? && issued.value.0 in s.origin
                           && s.origin[issued.value.0] == query && issued.value.0 !in s.sessions
                           && issued.value.1.binding == finalized.value && !issued.value.1.revoked
                           && Stamped(s, issued.value.1))
    case Administering(tenant, b, activate, locked, applied, revokes) =>
      && (locked ==> b in s.bindings && s.bindings[b].tenant == tenant)
      && (applied ==> locked)
      && (applied && !activate ==>
            forall sid :: sid in s.sessions && s.sessions[sid].binding == b && !s.sessions[sid].revoked ==> sid in revokes)
      && (forall sid :: sid in revokes ==> sid in s.sessions && s.sessions[sid].binding == b)
    case Leaving(_, _, _) => true
  }

  /** Two transactions never hold the same row or carry the same session. */
  ghost predicate Apart(a: Tx, b: Tx) {
    Claims(a) !! Claims(b) && Locks(a) !! Locks(b) && Issues(a) !! Issues(b)
  }

  /** No transaction holds the ceremony of a committed session. */
  ghost predicate Spent(s: State, tx: Tx) {
    forall sid :: sid in s.sessions ==> sid in s.origin && s.origin[sid] !in Claims(tx)
  }

  ghost predicate TxsOk(s: State) {
    forall t :: t in s.txs ==> TxOk(s, s.txs[t]) && Spent(s, s.txs[t])
  }

  ghost predicate AllApart(txs: map<TxId, Tx>) {
    forall t, u :: t in txs && u in txs && t != u ==> Apart(txs[t], txs[u])
  }

  ghost predicate Inv(s: State) {
    TablesOk(s) && SessionsOk(s) && TxsOk(s) && AllApart(s.txs)
  }

  lemma InitHolds(s: State)
    requires Init(s)
    ensures Inv(s)
  {
  }

  lemma ApartSymmetric(a: Tx, b: Tx)
    requires Apart(a, b)
    ensures Apart(b, a)
  {
  }

  lemma ApartReplaced(txs: map<TxId, Tx>, t: TxId, tx: Tx)
    requires AllApart(txs) && forall u :: u in txs && u != t ==> Apart(tx, txs[u])
    ensures AllApart(txs[t := tx])
  {
    var after := txs[t := tx];
    forall u, v | u in after && v in after && u != v ensures Apart(after[u], after[v]) {
      if v == t { ApartSymmetric(tx, after[u]); }
    }
  }

  /** What a transaction must satisfy depends only on the tables, and not on the clock
      standing still or on jars and responses. */
  lemma SameTables(s: State, s': State, tx: Tx)
    requires s'.ceremonies == s.ceremonies && s'.bindings == s.bindings && s'.sessions == s.sessions
    requires s'.now >= s.now && s'.begun == s.begun && s'.origin == s.origin
    requires TxOk(s, tx) && Spent(s, tx)
    ensures TxOk(s', tx) && Spent(s', tx)
  {
  }

  lemma SameTablesKeep(s: State, s': State)
    requires Inv(s)
    requires s'.ceremonies == s.ceremonies && s'.bindings == s.bindings && s'.sessions == s.sessions
    requires s'.now >= s.now && s'.begun == s.begun && s'.origin == s.origin && s'.txs == s.txs
    requires TablesOk(s')
    ensures Inv(s')
  {
    forall u | u in s'.txs ensures TxOk(s', s'.txs[u]) && Spent(s', s'.txs[u]) {
      SameTables(s, s', s'.txs[u]);
    }
    assert SessionsOk(s');
  }

  lemma TxsReplaced(s: State, t: TxId, tx: Tx)
    requires TxsOk(s) && TxOk(s, tx) && Spent(s, tx)
    ensures TxsOk(WithTx(s, t, tx))
  {
    var s' := WithTx(s, t, tx);
    forall u | u in s'.txs ensures TxOk(s', s'.txs[u]) && Spent(s', s'.txs[u]) {
      assert s'.txs[u] == tx || s'.txs[u] == s.txs[u];
      SameTables(s, s', s'.txs[u]);
    }
  }

  /** A step that replaces one transaction keeps the invariant if the new one fits. */
  lemma TxReplaced(s: State, t: TxId, tx: Tx)
    requires Inv(s) && TxOk(s, tx) && Spent(s, tx)
    requires forall u :: u in s.txs && u != t ==> Apart(tx, s.txs[u])
    ensures Inv(WithTx(s, t, tx))
  {
    TxsReplaced(s, t, tx);
    ApartReplaced(s.txs, t, tx);
    var s' := WithTx(s, t, tx);
    assert SessionsOk(s');
    assert TablesOk(s');
  }

  lemma TickKeeps(s: State, s': State)
    requires Inv(s) && s' == s.(now := s.now + 1)
    ensures Inv(s') && Next(s, Tick, true) == s'
  {
    SameTablesKeep(s, s');
  }

  /** A transaction that holds nothing is apart from any other. */
  lemma HoldsNothing(s: State, tx: Tx)
    requires Claims(tx) == {} && Locks(tx) == {} && Issues(tx) == {}
    requires SessionsOk(s)
    ensures Spent(s, tx) && forall other :: Apart(tx, other)
  {
  }

  lemma StartsKeep(s: State, a: Action, locking: bool)
    requires Inv(s) && Enabled(s, a, locking)
    requires a.StartBegin? || a.StartCallback? || a.StartAdmin? || a.StartLogout?
    ensures Inv(Next(s, a, locking))
  {
    var tx := Next(s, a, locking).txs[a.t];
    HoldsNothing(s, tx);
    assert TxOk(s, tx);
    TxReplaced(s, a.t, tx);
  }

  /** Replacing a transaction by one that holds no more rows. */
  lemma TxAdvanced(s: State, t: TxId, tx: Tx)
    requires Inv(s) && t in s.txs && TxOk(s, tx)
    requires Claims(tx) <= Claims(s.txs[t]) && Locks(tx) <= Locks(s.txs[t]) && Issues(tx) <= Issues(s.txs[t])
    ensures Inv(WithTx(s, t, tx))
  {
    forall u | u in s.txs && u != t ensures Apart(tx, s.txs[u]) {
      assert Apart(s.txs[t], s.txs[u]);
    }
    TxReplaced(s, t, tx);
  }

  lemma TakeKeeps(s: State, t: TxId)
    requires Inv(s) && Enabled(s, TakeCeremony(t), true)
    ensures Inv(Next(s, TakeCeremony(t), true))
  {
    var tx := s.txs[t].(taken := Some(s.ceremonies[s.txs[t].query]));
    assert TxOk(s, s.txs[t]) && Spent(s, s.txs[t]);
    assert TxOk(s, tx);
    assert Spent(s, tx);
    forall u | u in s.txs && u != t ensures Apart(tx, s.txs[u]) {
      assert Apart(s.txs[t], s.txs[u]);
    }
    TxReplaced(s, t, tx);
  }

  lemma VerifyKeeps(s: State, t: TxId, subject: Subject)
    requires Inv(s) && Enabled(s, VerifyToken(t, subject), true)
    ensures Inv(Next(s, VerifyToken(t, subject), true))
  {
    assert TxOk(s, s.txs[t]);
    TxAdvanced(s, t, s.txs[t].(verified := Some(subject)));
  }

  lemma FinalizeKeeps(s: State, t: TxId, b: BindingId)
    requires Inv(s) && Enabled(s, FinalizeLogin(t, b), true)
    ensures Inv(Next(s, FinalizeLogin(t, b), true))
  {
    var tx := s.txs[t].(finalized := Some(b), locked := true);
    assert TxOk(s, s.txs[t]) && Spent(s, s.txs[t]);
    assert TxOk(s, tx);
    forall u | u in s.txs && u != t ensures Apart(tx, s.txs[u]) {
      assert Apart(s.txs[t], s.txs[u]);
    }
    TxReplaced(s, t, tx);
  }

  lemma AdminKeeps(s: State, a: Action)
    requires Inv(s) && Enabled(s, a, true) && (a.LockAdmin? || a.ApplyAdmin?)
    ensures Inv(Next(s, a, true))
  {
    var tx := Next(s, a, true).txs[a.t];
    assert TxOk(s, s.txs[a.t]) && Spent(s, s.txs[a.t]);
    assert TxOk(s, tx);
    forall u | u in s.txs && u != a.t ensures Apart(tx, s.txs[u]) {
      assert Apart(s.txs[a.t], s.txs[u]);
    }
    TxReplaced(s, a.t, tx);
  }

  lemma FindKeeps(s: State, t: TxId)
    requires Inv(s) && Enabled(s, FindSession(t), true)
    ensures Inv(Next(s, FindSession(t), true))
  {
    TxAdvanced(s, t, Next(s, FindSession(t), true).txs[t]);
  }

  lemma RespondKeeps(s: State, r: Response)
    requires Inv(s) && ResponseOk(s, r)
    ensures Inv(Respond(s, r))
  {
    var s' := Respond(s, r);
    forall q | q in s'.responses ensures ResponseOk(s', q) { assert ResponseOk(s, q); }
    SameTablesKeep(s, s');
  }

  lemma AnswersKeep(s: State, a: Action)
    requires Inv(s) && Enabled(s, a, true) && (a.SendState? || a.RefuseCallback? || a.AnswerLogout?)
    ensures Inv(Next(s, a, true))
  {
    assert TxOk(s, s.txs[a.t]);
    if a.RefuseCallback? {
      TxAdvanced(s, a.t, s.txs[a.t].(answered := true));
      RespondKeeps(WithTx(s, a.t, s.txs[a.t].(answered := true)), Refusal(s.txs[a.t].agent));
    } else if a.SendState? {
      RespondKeeps(s, StateCookie(s.txs[a.t].agent, s.txs[a.t].put.value.0));
    } else {
      RespondKeeps(s, SignedOut(s.txs[a.t].agent));
    }
  }

  lemma DeliverKeeps(s: State, r: Response)
    requires Inv(s) && r in s.responses
    ensures Inv(Delivered(s, r))
  {
    assert ResponseOk(s, r);
    var s' := Delivered(s, r);
    assert forall a :: a in s'.stateJar ==> BegunBy(s', s'.stateJar[a], a);
    assert forall a :: a in s'.sessionJar ==> IssuedTo(s', s'.sessionJar[a], a);
    ResponsesStay(s, s');
    forall l | l in s'.landings ensures IssuedTo(s', l.1, l.0) && LandsAt(s', l.1, l.2) {
      assert l in s.landings || (r.SignedIn? && l == (r.agent, r.session, r.landing));
    }
    SameTablesKeep(s, s');
  }

  lemma ResponsesStay(s: State, s': State)
    requires TablesOk(s) && s'.responses == s.responses && s'.begun == s.begun && s'.origin == s.origin
    ensures forall r :: r in s'.responses ==> ResponseOk(s', r)
  {
    forall r | r in s'.responses ensures ResponseOk(s', r) { assert ResponseOk(s, r); }
  }

  lemma DropStateKeeps(s: State, agent: Agent)
    requires Inv(s)
    ensures Inv(s.(stateJar := s.stateJar - {agent}))
  {
    ResponsesStay(s, s.(stateJar := s.stateJar - {agent}));
    SameTablesKeep(s, s.(stateJar := s.stateJar - {agent}));
  }

  lemma DropSessionKeeps(s: State, agent: Agent)
    requires Inv(s)
    ensures Inv(s.(sessionJar := s.sessionJar - {agent}))
  {
    ResponsesStay(s, s.(sessionJar := s.sessionJar - {agent}));
    SameTablesKeep(s, s.(sessionJar := s.sessionJar - {agent}));
  }

  // ---- steps that draw a fresh identifier ----

  /** `m` with more keys. */
  ghost predicate Extends<K, V>(m: map<K, V>, m': map<K, V>) {
    forall k :: k in m ==> k in m' && m'[k] == m[k]
  }

  /** Only the history and the bindings grow. */
  ghost predicate Grows(s: State, s': State) {
    && Extends(s.begun, s'.begun) && Extends(s.origin, s'.origin) && Extends(s.bindings, s'.bindings)
    && s' == s.(begun := s'.begun, origin := s'.origin, bindings := s'.bindings)
    && (forall sid :: sid in s'.origin ==> s'.origin[sid] in s'.begun)
  }

  lemma TxGrows(s: State, s': State, tx: Tx)
    requires Grows(s, s') && TxOk(s, tx) && Spent(s, tx)
    ensures TxOk(s', tx) && Spent(s', tx)
  {
  }

  lemma GrowthKeeps(s: State, s': State)
    requires Inv(s) && Grows(s, s')
    ensures Inv(s')
  {
    forall t | t in s'.txs ensures TxOk(s', s'.txs[t]) && Spent(s', s'.txs[t]) { TxGrows(s, s', s'.txs[t]); }
    forall r | r in s'.responses ensures ResponseOk(s', r) { assert ResponseOk(s, r); }
    assert SessionsOk(s');
  }

  lemma AddBindingKeeps(s: State, b: BindingId, binding: Binding)
    requires Inv(s) && Enabled(s, AddBinding(b, binding), true)
    ensures Inv(Next(s, AddBinding(b, binding), true))
  {
    GrowthKeeps(s, Next(s, AddBinding(b, binding), true));
  }

  /** An identifier never drawn before is claimed by nobody and spent by nobody. */
  lemma FreshId(s: State, id: StateId)
    requires Inv(s) && id !in s.begun
    ensures id !in s.ceremonies
    ensures forall u :: u in s.txs ==> id !in Claims(s.txs[u])
    ensures forall sid :: sid in s.sessions ==> s.origin[sid] != id
  {
    forall u | u in s.txs ensures id !in Claims(s.txs[u]) { assert TxOk(s, s.txs[u]); }
  }

  /** The transaction after its put. */
  function PutTx(s: State, t: TxId, id: StateId, provider: string, ttl: nat): Tx
    requires t in s.txs && s.txs[t].Beginning?
  {
    var tx := s.txs[t];
    tx.(put := Some((id, Ceremony(tx.agent.tenant, provider, tx.path, s.now + ttl))),
        swept := SweptBy(s, tx.agent.tenant, tx.started))
  }

  lemma PutIsApart(s: State, t: TxId, id: StateId, provider: string, ttl: nat, u: TxId)
    requires Inv(s) && Enabled(s, PutCeremony(t, id, provider, ttl), true) && u in s.txs && u != t
    ensures Apart(PutTx(s, t, id, provider, ttl), s.txs[u])
  {
    FreshId(s, id);
    var swept := SweptBy(s, s.txs[t].agent.tenant, s.txs[t].started);
    forall dead | dead in swept ensures dead !in Claims(s.txs[u]) { assert Unclaimed(s, t, dead); }
    assert Claims(PutTx(s, t, id, provider, ttl)) == swept + {id};
  }

  lemma PutFits(s: State, t: TxId, id: StateId, provider: string, ttl: nat)
    requires Inv(s) && Enabled(s, PutCeremony(t, id, provider, ttl), true)
    ensures var s1 := s.(begun := s.begun[id := Begun(s.txs[t].agent, s.txs[t].path)]);
            TxOk(s1, PutTx(s, t, id, provider, ttl)) && Spent(s1, PutTx(s, t, id, provider, ttl))
  {
    FreshId(s, id);
    assert TxOk(s, s.txs[t]);
    var swept := SweptBy(s, s.txs[t].agent.tenant, s.txs[t].started);
    assert Claims(PutTx(s, t, id, provider, ttl)) == swept + {id};
  }

  lemma PutKeeps(s: State, t: TxId, id: StateId, provider: string, ttl: nat)
    requires Inv(s) && Enabled(s, PutCeremony(t, id, provider, ttl), true)
    ensures Inv(Next(s, PutCeremony(t, id, provider, ttl), true))
  {
    var s1 := s.(begun := s.begun[id := Begun(s.txs[t].agent, s.txs[t].path)]);
    var tx' := PutTx(s, t, id, provider, ttl);
    assert Inv(s1) by { GrowthKeeps(s, s1); }
    PutFits(s, t, id, provider, ttl);
    forall u | u in s.txs && u != t ensures Apart(tx', s.txs[u]) {
      PutIsApart(s, t, id, provider, ttl, u);
    }
    PutNext(s, s1, t, id, provider, ttl, tx');
    TxReplaced(s1, t, tx');
  }

  lemma PutNext(s: State, s1: State, t: TxId, id: StateId, provider: string, ttl: nat, tx: Tx)
    requires Enabled(s, PutCeremony(t, id, provider, ttl), true)
    requires s1 == s.(begun := s.begun[id := Begun(s.txs[t].agent, s.txs[t].path)])
    requires tx == PutTx(s, t, id, provider, ttl)
    ensures Next(s, PutCeremony(t, id, provider, ttl), true) == WithTx(s1, t, tx)
  {
  }

  /** A session identifier never drawn before is carried by nobody. */
  lemma FreshSession(s: State, sid: SessionId)
    requires Inv(s) && sid !in s.origin
    ensures sid !in s.sessions
    ensures forall u :: u in s.txs ==> sid !in Issues(s.txs[u])
  {
    forall u | u in s.txs ensures sid !in Issues(s.txs[u]) { assert TxOk(s, s.txs[u]); }
  }

  /** The transaction after it issued its session. */
  function IssueTx(s: State, t: TxId, sid: SessionId): Tx
    requires t in s.txs && s.txs[t].Calling? && s.txs[t].finalized.Some? && s.txs[t].finalized.value in s.bindings
  {
    var tx := s.txs[t];
    var b := tx.finalized.value;
    tx.(issued := Some((sid, Session(tx.agent.tenant, s.bindings[b].party, b, false))), answered := true)
  }

  lemma IssueFits(s: State, t: TxId, sid: SessionId)
    requires Inv(s) && Enabled(s, IssueSession(t, sid), true)
    ensures var s1 := s.(origin := s.origin[sid := s.txs[t].query]);
            Grows(s, s1) && TxOk(s1, IssueTx(s, t, sid)) && Spent(s1, IssueTx(s, t, sid))
    ensures IssuedTo(s.(origin := s.origin[sid := s.txs[t].query]), sid, s.txs[t].agent)
    ensures LandsAt(s.(origin := s.origin[sid := s.txs[t].query]), sid, s.txs[t].taken.value.returnTo)
  {
    assert TxOk(s, s.txs[t]) && Spent(s, s.txs[t]);
    FreshSession(s, sid);
    assert RowOk(s, s.txs[t].query, s.ceremonies[s.txs[t].query]);
  }

  lemma IssueKeeps(s: State, t: TxId, sid: SessionId)
    requires Inv(s) && Enabled(s, IssueSession(t, sid), true)
    ensures Inv(Next(s, IssueSession(t, sid), true))
  {
    var tx := s.txs[t];
    var s1 := s.(origin := s.origin[sid := tx.query]);
    IssueFits(s, t, sid);
    FreshSession(s, sid);
    GrowthKeeps(s, s1);
    forall u | u in s1.txs && u != t ensures Apart(IssueTx(s, t, sid), s1.txs[u]) {
      assert Apart(tx, s.txs[u]);
    }
    TxReplaced(s1, t, IssueTx(s, t, sid));
    RespondKeeps(WithTx(s1, t, IssueTx(s, t, sid)), SignedIn(tx.agent, sid, tx.taken.value.returnTo));
  }

  // ---- the end of a transaction ----

  /** Jars, responses and history are right if they are unchanged and the rows are. */
  lemma TablesStay(s: State, s': State)
    requires TablesOk(s) && s'.origin == s.origin && s'.begun == s.begun && s'.responses == s.responses
    requires s'.stateJar == s.stateJar && s'.sessionJar == s.sessionJar && s'.landings == s.landings
    requires forall id :: id in s'.ceremonies ==> RowOk(s, id, s'.ceremonies[id])
    ensures TablesOk(s')
  {
    forall r | r in s'.responses ensures ResponseOk(s', r) { assert ResponseOk(s, r); }
  }

  lemma ApartRemoved(txs: map<TxId, Tx>, t: TxId)
    requires AllApart(txs)
    ensures AllApart(txs - {t})
  {
  }

  lemma AbortKeeps(s: State, t: TxId)
    requires Inv(s)
    ensures Inv(s.(txs := s.txs - {t}))
  {
    var s' := s.(txs := s.txs - {t});
    forall u | u in s'.txs ensures TxOk(s', s'.txs[u]) && Spent(s', s'.txs[u]) {
      assert TxOk(s, s.txs[u]) && Spent(s, s.txs[u]);
    }
    TablesStay(s, s');
    ApartRemoved(s.txs, t);
    assert SessionsOk(s');
  }

  ghost predicate SameHistory(s: State, s': State) {
    && s'.origin == s.origin && s'.begun == s.begun && s'.responses == s.responses
    && s'.stateJar == s.stateJar && s'.sessionJar == s.sessionJar && s'.landings == s.landings
  }

  /** The invariant after a commit, once the rows, the sessions and every other
      transaction are known to be right. */
  lemma CommitKeepsRest(s: State, s': State, t: TxId)
    requires TablesOk(s) && AllApart(s.txs) && SameHistory(s, s') && s'.txs == s.txs - {t}
    requires forall id :: id in s'.ceremonies ==> RowOk(s, id, s'.ceremonies[id])
    requires SessionsOk(s')
    requires forall u :: u in s.txs && u != t ==> TxOk(s', s.txs[u]) && Spent(s', s.txs[u])
    ensures Inv(s')
  {
    TablesStay(s, s');
    ApartRemoved(s.txs, t);
    forall u | u in s'.txs ensures TxOk(s', s'.txs[u]) && Spent(s', s'.txs[u]) { assert u in s.txs && u != t; }
  }

  /** What a commit of a begun login does: swept rows go, the new row appears. */
  ghost predicate BeginEffect(s: State, s': State, tx: Tx) {
    && tx.Beginning? && s'.sessions == s.sessions && s'.bindings == s.bindings
    && s'.begun == s.begun && s'.origin == s.origin && s'.now == s.now
    && (forall id :: id in s'.ceremonies <==> id in Claims(tx) - tx.swept || (id in s.ceremonies && id !in tx.swept))
    && (forall id :: id in s.ceremonies && id !in Claims(tx) ==> s'.ceremonies[id] == s.ceremonies[id])
  }

  lemma BeginHasEffect(s: State, t: TxId)
    requires t in s.txs && s.txs[t].Beginning? && TxOk(s, s.txs[t])
    ensures BeginEffect(s, CommitOf(s, t), s.txs[t])
  {
  }

  lemma CommitBeginOthers(s: State, s': State, tx: Tx, other: Tx)
    requires BeginEffect(s, s', tx) && TxOk(s, other) && Spent(s, other) && Apart(tx, other)
    ensures TxOk(s', other) && Spent(s', other)
  {
    match other
    case Beginning(_, _, _, put, swept) =>
      assert forall id :: id in swept ==> id in Claims(other) && id !in Claims(tx);
      assert put.Some? ==> put.value.0 in Claims(other);
    case Calling(_, query, _, _, _, taken, _, _, _, _, _) =>
      assert taken.Some? ==> query in Claims(other) && query !in Claims(tx);
    case _ =>
  }

  lemma CommitBeginKeeps(s: State, t: TxId)
    requires Inv(s) && t in s.txs && s.txs[t].Beginning?
    ensures Inv(CommitOf(s, t))
  {
    var s' := CommitOf(s, t);
    assert TxOk(s, s.txs[t]) && Spent(s, s.txs[t]);
    BeginHasEffect(s, t);
    forall u | u in s.txs && u != t ensures TxOk(s', s.txs[u]) && Spent(s', s.txs[u]) {
      assert TxOk(s, s.txs[u]) && Spent(s, s.txs[u]) && Apart(s.txs[t], s.txs[u]);
      CommitBeginOthers(s, s', s.txs[t], s.txs[u]);
    }
    assert OriginsSpent(s');
    assert StampsOk(s');
    CommitKeepsRest(s, s', t);
  }

  lemma CommitCallOther(s: State, s': State, tx: Tx, other: Tx)
    requires tx.Calling? && SameHistory(Committed(s, tx), s') && s'.bindings == s.bindings && s'.now == s.now
    requires s'.ceremonies == Committed(s, tx).ceremonies && s'.sessions == Committed(s, tx).sessions
    requires TxOk(s, tx) && TxOk(s, other) && Spent(s, other) && Apart(tx, other)
    ensures TxOk(s', other) && Spent(s', other)
  {
  }

  lemma CommitCallOrigin(s: State, s': State, tx: Tx)
    requires tx.Calling? && s'.origin == s.origin
    requires s'.ceremonies == Committed(s, tx).ceremonies && s'.sessions == Committed(s, tx).sessions
    requires TxOk(s, tx) && Spent(s, tx) && OriginsSpent(s) && OriginsDistinct(s)
    ensures OriginsSpent(s') && OriginsDistinct(s')
  {
  }

  lemma CommitCallOthers(s: State, s': State, t: TxId, u: TxId)
    requires Inv(s) && t in s.txs && s.txs[t].Calling? && s.txs[t].answered && s' == CommitOf(s, t)
    requires u in s.txs && u != t
    ensures TxOk(s', s.txs[u]) && Spent(s', s.txs[u])
  {
    assert TxOk(s, s.txs[t]) && TxOk(s, s.txs[u]) && Spent(s, s.txs[u]) && Apart(s.txs[t], s.txs[u]);
    CommitCallOther(s, s', s.txs[t], s.txs[u]);
  }

  lemma CommitCallOrigins(s: State, s': State, t: TxId)
    requires Inv(s) && t in s.txs && s.txs[t].Calling? && s.txs[t].answered && s' == CommitOf(s, t)
    ensures OriginsSpent(s') && OriginsDistinct(s')
  {
    assert TxOk(s, s.txs[t]) && Spent(s, s.txs[t]);
    CommitCallOrigin(s, s', s.txs[t]);
  }

  lemma CommitCallStamps(s: State, s': State, t: TxId)
    requires Inv(s) && t in s.txs && s.txs[t].Calling? && s.txs[t].answered && s' == CommitOf(s, t)
    ensures StampsOk(s')
  {
    assert TxOk(s, s.txs[t]);
  }

  lemma CommitCallKeeps(s: State, t: TxId)
    requires Inv(s) && t in s.txs && s.txs[t].Calling? && s.txs[t].answered
    ensures Inv(CommitOf(s, t))
  {
    var s' := CommitOf(s, t);
    CommitCallOrigins(s, s', t);
    CommitCallStamps(s, s', t);
    forall u | u in s.txs && u != t ensures TxOk(s', s.txs[u]) && Spent(s', s.txs[u]) {
      CommitCallOthers(s, s', t, u);
    }
    CommitKeepsRest(s, s', t);
  }

  /** What a commit of an administrative change or a logout does: some sessions are
      revoked, and the held binding may change its activity; nothing else moves. */
  ghost predicate RevokeEffect(s: State, s': State, tx: Tx) {
    && s'.ceremonies == s.ceremonies && s'.begun == s.begun && s'.origin == s.origin && s'.now == s.now
    && s'.sessions.Keys == s.sessions.Keys && s'.bindings.Keys == s.bindings.Keys
    && (forall sid :: sid in s.sessions ==>
          && s'.sessions[sid].binding == s.sessions[sid].binding
          && s'.sessions[sid].party == s.sessions[sid].party && s'.sessions[sid].tenant == s.sessions[sid].tenant
          && (s.sessions[sid].revoked ==> s'.sessions[sid].revoked))
    && (forall b :: b in s.bindings ==>
          && s'.bindings[b].party == s.bindings[b].party && s'.bindings[b].tenant == s.bindings[b].tenant
          && s'.bindings[b].provider == s.bindings[b].provider && s'.bindings[b].subject == s.bindings[b].subject
          && (b !in Locks(tx) ==> s'.bindings[b].active == s.bindings[b].active))
  }

  lemma LeaveHasEffect(s: State, t: TxId)
    requires t in s.txs && s.txs[t].Leaving?
    ensures RevokeEffect(s, CommitOf(s, t), s.txs[t])
  {
  }

  lemma AdminHasEffect(s: State, t: TxId)
    requires t in s.txs && s.txs[t].Administering? && s.txs[t].applied && TxOk(s, s.txs[t])
    ensures RevokeEffect(s, CommitOf(s, t), s.txs[t])
    ensures var s' := CommitOf(s, t); var b := s.txs[t].binding;
            && b in Locks(s.txs[t]) && b in s'.bindings && s'.bindings[b].active == s.txs[t].activate
            && (!s.txs[t].activate ==>
                  forall sid :: sid in s'.sessions && s'.sessions[sid].binding == b ==> s'.sessions[sid].revoked)
  {
  }

  lemma CommitRevokesOthers(s: State, s': State, tx: Tx, other: Tx)
    requires RevokeEffect(s, s', tx) && TxOk(s, other) && Spent(s, other) && Apart(tx, other)
    ensures TxOk(s', other) && Spent(s', other)
  {
    match other
    case Calling(_, _, _, _, _, _, _, finalized, _, issued, _) =>
      assert finalized.Some? ==> finalized.value in Locks(other) && finalized.value !in Locks(tx);
    case Administering(_, _, _, _, _, _) =>
    case _ =>
  }

  lemma CommitRevokesKeeps(s: State, s': State, t: TxId)
    requires Inv(s) && t in s.txs && RevokeEffect(s, s', s.txs[t])
    requires SameHistory(s, s') && s'.txs == s.txs - {t}
    requires forall sid :: sid in s'.sessions && s'.sessions[sid].binding in Locks(s.txs[t]) && !s'.sessions[sid].revoked
               ==> s'.sessions[sid].binding in s'.bindings && s'.bindings[s'.sessions[sid].binding].active
    ensures Inv(s')
  {
    RevokedStamps(s, s', s.txs[t]);
    assert OriginsSpent(s');
    forall u | u in s.txs && u != t ensures TxOk(s', s.txs[u]) && Spent(s', s.txs[u]) {
      assert TxOk(s, s.txs[u]) && Spent(s, s.txs[u]) && Apart(s.txs[t], s.txs[u]);
      CommitRevokesOthers(s, s', s.txs[t], s.txs[u]);
    }
    CommitKeepsRest(s, s', t);
  }

  lemma RevokedStamps(s: State, s': State, tx: Tx)
    requires StampsOk(s) && RevokeEffect(s, s', tx)
    requires forall sid :: sid in s'.sessions && s'.sessions[sid].binding in Locks(tx) && !s'.sessions[sid].revoked
               ==> s'.sessions[sid].binding in s'.bindings && s'.bindings[s'.sessions[sid].binding].active
    ensures StampsOk(s')
  {
    forall sid | sid in s'.sessions
      ensures Stamped(s', s'.sessions[sid])
      ensures !s'.sessions[sid].revoked ==> s'.bindings[s'.sessions[sid].binding].active
    {
      assert Stamped(s, s.sessions[sid]);
    }
  }

  lemma CallbackStepKeeps(s: State, a: Action)
    requires Inv(s) && Enabled(s, a, true)
    requires a.TakeCeremony? || a.VerifyToken? || a.FinalizeLogin? || a.IssueSession? || a.RefuseCallback?
    ensures Inv(Next(s, a, true))
  {
    match a
    case TakeCeremony(t) => TakeKeeps(s, t);
    case VerifyToken(t, subject) => VerifyKeeps(s, t, subject);
    case FinalizeLogin(t, b) => FinalizeKeeps(s, t, b);
    case IssueSession(t, sid) => IssueKeeps(s, t, sid);
    case RefuseCallback(_) => AnswersKeep(s, a);
  }

  lemma RevokingCommitKeeps(s: State, t: TxId)
    requires Inv(s) && t in s.txs && (s.txs[t].Leaving? || (s.txs[t].Administering? && s.txs[t].applied))
    ensures Inv(CommitOf(s, t))
  {
    assert TxOk(s, s.txs[t]);
    if s.txs[t].Leaving? { LeaveHasEffect(s, t); } else { AdminHasEffect(s, t); }
    CommitRevokesKeeps(s, CommitOf(s, t), t);
  }

  lemma CommitKeeps(s: State, t: TxId)
    requires Inv(s) && Enabled(s, Commit(t), true)
    ensures Inv(CommitOf(s, t))
  {
    match s.txs[t]
    case Beginning(_, _, _, _, _) => CommitBeginKeeps(s, t);
    case Calling(_, _, _, _, _, _, _, _, _, _, _) => CommitCallKeeps(s, t);
    case _ => RevokingCommitKeeps(s, t);
  }

  lemma DropStepKeeps(s: State, a: Action)
    requires Inv(s) && (a.DropState? || a.DropSession?)
    ensures Inv(Next(s, a, true))
  {
    if a.DropState? { DropStateKeeps(s, a.agent); } else { DropSessionKeeps(s, a.agent); }
  }

  lemma WorkerStepKeeps(s: State, a: Action)
    requires Inv(s) && Enabled(s, a, true)
    requires a.Commit? || a.Abort? || a.PutCeremony? || a.FindSession? || a.AddBinding?
    ensures Inv(Next(s, a, true))
  {
    if a.Commit? {
      CommitKeeps(s, a.t);
    } else if a.Abort? {
      AbortKeeps(s, a.t);
    } else if a.PutCeremony? {
      PutKeeps(s, a.t, a.id, a.provider, a.ttl);
    } else if a.AddBinding? {
      AddBindingKeeps(s, a.b, a.binding);
    } else {
      FindKeeps(s, a.t);
    }
  }

  lemma DeliverStep(s: State, a: Action, s': State)
    requires Inv(s) && a.Deliver? && a.r in s.responses && s' == Delivered(s, a.r)
    ensures Inv(s') && Next(s, a, true) == s'
  {
    DeliverKeeps(s, a.r);
  }

  /** Every step keeps the invariant. */
  lemma StepKeeps(s: State, a: Action)
    requires Inv(s) && Enabled(s, a, true)
    ensures Inv(Next(s, a, true))
  {
    if a.TakeCeremony? || a.VerifyToken? || a.FinalizeLogin? || a.IssueSession? || a.RefuseCallback? {
      CallbackStepKeeps(s, a);
    } else if a.Deliver? {
      DeliverStep(s, a, Delivered(s, a.r));
    } else if a.Tick? {
      TickKeeps(s, s.(now := s.now + 1));
    } else if a.DropState? || a.DropSession? {
      DropStepKeeps(s, a);
    } else if a.Commit? || a.Abort? || a.PutCeremony? || a.FindSession? || a.AddBinding? {
      WorkerStepKeeps(s, a);
    } else if a.LockAdmin? || a.ApplyAdmin? {
      AdminKeeps(s, a);
    } else if a.SendState? || a.AnswerLogout? {
      AnswersKeep(s, a);
    } else {
      StartsKeep(s, a, true);
    }
  }

  /** The invariant holds in every state of every run. */
  lemma {:induction false} RunKeeps(states: seq<State>, actions: seq<Action>, i: nat)
    requires Run(states, actions, true) && i < |states|
    ensures Inv(states[i])
  {
    if i == 0 {
      InitHolds(states[0]);
    } else {
      RunKeeps(states, actions, i - 1);
      assert Step(states[i - 1], actions[i - 1], states[i - 1 + 1], true);
      StepKeeps(states[i - 1], actions[i - 1]);
    }
  }
}
