/** What holds over whole runs of the login protocol: any number of browsers, workers
    and operators, in any interleaving, with any callback replayed into any browser
    and any transaction committing or aborting. */
module LoginRuns {
  import opened Text
  import opened LoginProtocol
  import opened LoginInvariant

  /** Login is bound to the browser that began it. A session cookie held by a browser
      belongs to a ceremony that same browser began at that same host, and every
      landing took the browser to the return path it gave when it began. */
  lemma SessionCookiesAreTheBeginners(states: seq<State>, actions: seq<Action>, i: nat)
    requires Run(states, actions, true) && i < |states|
    ensures var s := states[i];
            && (forall agent :: agent in s.sessionJar ==>
                  && s.sessionJar[agent] in s.origin && s.origin[s.sessionJar[agent]] in s.begun
                  && s.begun[s.origin[s.sessionJar[agent]]].agent == agent)
            && (forall l :: l in s.landings ==>
                  && l.1 in s.origin && s.origin[l.1] in s.begun
                  && s.begun[s.origin[l.1]] == Begun(l.0, l.2))
  {
    RunKeeps(states, actions, i);
    var s := states[i];
    forall agent | agent in s.sessionJar
      ensures s.sessionJar[agent] in s.origin && s.origin[s.sessionJar[agent]] in s.begun
              && s.begun[s.origin[s.sessionJar[agent]]].agent == agent
    {
      assert IssuedTo(s, s.sessionJar[agent], agent);
    }
    forall l | l in s.landings
      ensures l.1 in s.origin && s.origin[l.1] in s.begun && s.begun[s.origin[l.1]] == Begun(l.0, l.2)
    {
      assert IssuedTo(s, l.1, l.0) && LandsAt(s, l.1, l.2);
    }
  }

  /** The record of who began a ceremony is made by that browser's own put and never
      changes afterwards. */
  lemma {:induction false} BegunByAPut(states: seq<State>, actions: seq<Action>, i: nat, id: StateId)
    requires Run(states, actions, true) && i < |states| && id in states[i].begun
    ensures exists j :: 0 <= j < i && actions[j].PutCeremony? && actions[j].id == id
                        && actions[j].t in states[j].txs && states[j].txs[actions[j].t].Beginning?
                        && states[i].begun[id] == Begun(states[j].txs[actions[j].t].agent, states[j].txs[actions[j].t].path)
  {
    if i > 0 {
      var s, a := states[i - 1], actions[i - 1];
      assert Step(s, a, states[i - 1 + 1], true);
      if id in s.begun {
        BegunByAPut(states, actions, i - 1, id);
        HistoryIsFixed(s, a);
        var j :| 0 <= j < i - 1 && actions[j].PutCeremony? && actions[j].id == id
                 && actions[j].t in states[j].txs && states[j].txs[actions[j].t].Beginning?
                 && states[i - 1].begun[id] == Begun(states[j].txs[actions[j].t].agent, states[j].txs[actions[j].t].path);
        assert 0 <= j < i && actions[j].PutCeremony?;
      } else {
        NewlyBegun(s, a, id);
        assert actions[i - 1].PutCeremony?;
      }
    }
  }

  /** Deliveries touch only the jars; commits touch neither history nor jars. */
  lemma DeliveredFrame(s: State, r: Response)
    ensures var s' := Delivered(s, r);
            && s'.ceremonies == s.ceremonies && s'.sessions == s.sessions && s'.bindings == s.bindings
            && s'.begun == s.begun && s'.origin == s.origin
  {
  }

  lemma CommittedFrame(s: State, t: TxId)
    requires t in s.txs
    ensures CommitOf(s, t).begun == s.begun && CommitOf(s, t).origin == s.origin
  {
    match s.txs[t]
    case Beginning(_, _, _, _, _) =>
    case Calling(_, _, _, _, _, _, _, _, _, _, _) =>
    case Administering(_, _, _, _, _, _) =>
    case Leaving(_, _, _) =>
  }

  /** What a browser began, and which ceremony a session came from, never change. */
  lemma HistoryIsFixed(s: State, a: Action)
    requires Enabled(s, a, true)
    ensures Extends(s.begun, Next(s, a, true).begun) && Extends(s.origin, Next(s, a, true).origin)
  {
    if a.Deliver? {
      DeliveredFrame(s, a.r);
    } else if a.Commit? {
      CommittedFrame(s, a.t);
    }
  }

  lemma NewlyBegun(s: State, a: Action, id: StateId)
    requires Enabled(s, a, true) && id !in s.begun && id in Next(s, a, true).begun
    ensures a.PutCeremony? && a.id == id
    ensures Next(s, a, true).begun[id] == Begun(s.txs[a.t].agent, s.txs[a.t].path)
  {
    if a.Deliver? {
      DeliveredFrame(s, a.r);
    } else if a.Commit? {
      CommittedFrame(s, a.t);
    }
  }

  /** The transaction a step belongs to. */
  function TxOf(a: Action): Option<TxId> {
    match a
    case TakeCeremony(t) => Some(t)
    case VerifyToken(t, _) => Some(t)
    case FinalizeLogin(t, _) => Some(t)
    case IssueSession(t, _) => Some(t)
    case RefuseCallback(t) => Some(t)
    case Commit(t) => Some(t)
    case Abort(t) => Some(t)
    case _ => None
  }

  /** A callback whose query state is not the cookie's, or that comes without a cookie,
      leaves every table as it was at every step it takes. */
  lemma MismatchedCallbackIsInert(s: State, a: Action)
    requires Inv(s) && Enabled(s, a, true) && TxOf(a).Some? && TxOf(a).value in s.txs
    requires s.txs[TxOf(a).value].Calling?
    requires s.txs[TxOf(a).value].cookie != Some(s.txs[TxOf(a).value].query)
    ensures var s' := Next(s, a, true);
            s'.ceremonies == s.ceremonies && s'.sessions == s.sessions && s'.bindings == s.bindings
            && s'.origin == s.origin
  {
    var tx := s.txs[TxOf(a).value];
    assert TxOk(s, tx);
    assert tx.taken.None? && tx.issued.None?;
  }

  /** Why a ceremony row is gone: it had expired before a later login of its tenant
      swept it, or the browser that began it came back with its own state. */
  ghost predicate Answered(s: State, a: Action, id: StateId) {
    && a.Commit? && a.t in s.txs && id in s.begun && id in s.ceremonies
    && match s.txs[a.t]
       case Beginning(agent, _, started, _, swept) =>
         id in swept && s.ceremonies[id].expiresAt <= started <= s.now && s.ceremonies[id].tenant == agent.tenant
       case Calling(agent, query, cookie, _, _, _, _, _, _, _, _) =>
         query == id && cookie == Some(id) && s.begun[id].agent == agent
       case _ => false
  }

  lemma OnlyCommitsMoveRows(s: State, a: Action)
    requires Enabled(s, a, true) && !a.Commit?
    ensures Next(s, a, true).ceremonies == s.ceremonies && Next(s, a, true).sessions == s.sessions
  {
    if a.Deliver? { DeliveredFrame(s, a.r); }
  }

  lemma SweptRowsExpired(s: State, t: TxId, id: StateId)
    requires t in s.txs && s.txs[t].Beginning? && TxOk(s, s.txs[t])
    requires id in s.ceremonies && id !in CommitOf(s, t).ceremonies
    ensures id in s.txs[t].swept && s.ceremonies[id].expiresAt <= s.txs[t].started <= s.now
    ensures s.ceremonies[id].tenant == s.txs[t].agent.tenant
  {
    BeginHasEffect(s, t);
  }

  lemma TakenRowIsItsBeginners(s: State, t: TxId, id: StateId)
    requires t in s.txs && s.txs[t].Calling? && TxOk(s, s.txs[t])
    requires id in s.ceremonies && id !in CommitOf(s, t).ceremonies
    ensures s.txs[t].query == id && s.txs[t].cookie == Some(id) && BegunBy(s, id, s.txs[t].agent)
  {
  }

  lemma RowLeaves(s: State, t: TxId, id: StateId)
    requires t in s.txs && TxOk(s, s.txs[t]) && id in s.ceremonies && RowOk(s, id, s.ceremonies[id])
    requires id !in CommitOf(s, t).ceremonies
    ensures Answered(s, Commit(t), id)
  {
    if s.txs[t].Beginning? {
      SweptRowsExpired(s, t, id);
    } else if s.txs[t].Calling? {
      TakenRowIsItsBeginners(s, t, id);
    }
  }

  lemma RowsLeaveAtCommit(s: State, t: TxId, id: StateId)
    requires Inv(s) && t in s.txs && id in s.ceremonies && id !in CommitOf(s, t).ceremonies
    ensures Answered(s, Commit(t), id)
  {
    RowLeaves(s, t, id);
  }

  /** A ceremony row leaves the table for no other reason. */
  lemma RowsLeaveOnlyForTheirBeginner(s: State, a: Action, id: StateId)
    requires Inv(s) && Enabled(s, a, true) && id in s.ceremonies && id !in Next(s, a, true).ceremonies
    ensures Answered(s, a, id)
  {
    if a.Commit? {
      RowsLeaveAtCommit(s, a.t, id);
    } else {
      OnlyCommitsMoveRows(s, a);
    }
  }

  /** A live session's binding is active, whatever logins, disables, rebinds and
      logouts contend for it; the stamp names the session's own party and tenant. */
  lemma LiveSessionsHaveActiveBindings(states: seq<State>, actions: seq<Action>, i: nat)
    requires Run(states, actions, true) && i < |states|
    ensures var s := states[i];
            forall sid :: sid in s.sessions ==>
              && s.sessions[sid].binding in s.bindings
              && s.bindings[s.sessions[sid].binding].party == s.sessions[sid].party
              && s.bindings[s.sessions[sid].binding].tenant == s.sessions[sid].tenant
              && (!s.sessions[sid].revoked ==> s.bindings[s.sessions[sid].binding].active)
  {
    RunKeeps(states, actions, i);
    var s := states[i];
    forall sid | sid in s.sessions ensures Stamped(s, s.sessions[sid]) { }
  }

  lemma RevocationIsStepwise(s: State, a: Action)
    requires Inv(s) && Enabled(s, a, true)
    ensures forall sid :: sid in s.sessions ==>
              && sid in Next(s, a, true).sessions
              && (s.sessions[sid].revoked ==> Next(s, a, true).sessions[sid].revoked)
  {
    if a.Commit? {
      assert TxOk(s, s.txs[a.t]);
      CommitKeepsSessions(s, a.t);
    } else {
      OnlyCommitsMoveRows(s, a);
    }
  }

  lemma CommitKeepsSessions(s: State, t: TxId)
    requires t in s.txs && TxOk(s, s.txs[t])
    ensures forall sid :: sid in s.sessions ==>
              && sid in CommitOf(s, t).sessions
              && (s.sessions[sid].revoked ==> CommitOf(s, t).sessions[sid].revoked)
  {
  }

  lemma StepRevokes(s: State, a: Action, s': State, sid: SessionId)
    requires Inv(s) && Step(s, a, s', true) && sid in s.sessions
    ensures sid in s'.sessions && (s.sessions[sid].revoked ==> s'.sessions[sid].revoked)
  {
    RevocationIsStepwise(s, a);
  }

  /** A revoked session never becomes live again, and no session row is ever lost. */
  lemma {:induction false} RevokedForGood(states: seq<State>, actions: seq<Action>, i: nat, j: nat, sid: SessionId)
    requires Run(states, actions, true) && i <= j < |states| && sid in states[i].sessions
    ensures sid in states[j].sessions
    ensures states[i].sessions[sid].revoked ==> states[j].sessions[sid].revoked
  {
    if i < j {
      RevokedForGood(states, actions, i, j - 1, sid);
      RunKeeps(states, actions, j - 1);
      assert Step(states[j - 1], actions[j - 1], states[j - 1 + 1], true);
      StepRevokes(states[j - 1], actions[j - 1], states[j], sid);
    }
  }

  /** The subject a session answers for: when a session is issued, its binding is the
      active one of exactly the subject that was verified, at the tenant's provider under
      which the ceremony was begun. */
  lemma IssuesForTheVerified(states: seq<State>, actions: seq<Action>, i: nat)
    requires Run(states, actions, true) && i < |actions| && actions[i].IssueSession?
    ensures var s, a := states[i], actions[i];
            && a.t in s.txs && s.txs[a.t].Calling? && s.txs[a.t].verified.Some? && s.txs[a.t].finalized.Some?
            && (var tx, b := s.txs[a.t], s.txs[a.t].finalized.value;
                && b in s.bindings && s.bindings[b].active && s.bindings[b].tenant == tx.agent.tenant
                && s.bindings[b].subject == tx.verified.value && s.bindings[b].provider == tx.provider
                && tx.taken.Some? && tx.taken.value.provider == tx.provider
                && a.t in states[i + 1].txs && states[i + 1].txs[a.t].Calling?
                && states[i + 1].txs[a.t].issued == Some((a.sid, Session(tx.agent.tenant, s.bindings[b].party, b, false))))
  {
    RunKeeps(states, actions, i);
    var s, a := states[i], actions[i];
    assert Step(s, a, states[i + 1], true);
    assert TxOk(s, s.txs[a.t]);
  }

  /** The step between two states verified this subject for this transaction. */
  predicate VerifiesIt(a: Action, t: TxId, subject: Subject) { a == VerifyToken(t, subject) }

  lemma OwnStep(s: State, a: Action, t: TxId)
    requires Enabled(s, a, true) && TxOf(a) == Some(t) && !a.Commit? && !a.Abort? && t in Next(s, a, true).txs
    ensures Next(s, a, true).txs[t].Calling?
    ensures a.VerifyToken? || a.StartCallback? || (t in s.txs && s.txs[t].Calling? && Next(s, a, true).txs[t].verified == s.txs[t].verified)
  {
  }

  lemma VerifiedStep(s: State, a: Action, t: TxId)
    requires Enabled(s, a, true) && t in Next(s, a, true).txs && Next(s, a, true).txs[t].Calling?
    requires Next(s, a, true).txs[t].verified.Some?
    ensures VerifiesIt(a, t, Next(s, a, true).txs[t].verified.value)
            || (t in s.txs && s.txs[t].Calling? && s.txs[t].verified == Next(s, a, true).txs[t].verified)
  {
    if a.Deliver? {
      DeliveredFrame(s, a.r);
      DeliveredTxs(s, a.r);
    } else if a.Commit? {
      CommittedTxs(s, a.t);
    } else if TxOf(a) == Some(t) && !a.Abort? {
      OwnStep(s, a, t);
    }
  }

  lemma DeliveredTxs(s: State, r: Response)
    ensures Delivered(s, r).txs == s.txs
  {
  }

  lemma CommittedTxs(s: State, t: TxId)
    requires t in s.txs
    ensures CommitOf(s, t).txs == s.txs - {t}
  {
  }

  /** A transaction holds a verified subject only because a step verified it. */
  lemma {:induction false} VerifiedByAStep(states: seq<State>, actions: seq<Action>, i: nat, t: TxId)
    requires Run(states, actions, true) && i < |states|
    requires t in states[i].txs && states[i].txs[t].Calling? && states[i].txs[t].verified.Some?
    ensures exists j :: 0 <= j < i && VerifiesIt(actions[j], t, states[i].txs[t].verified.value)
  {
    if i > 0 {
      assert Step(states[i - 1], actions[i - 1], states[i - 1 + 1], true);
      VerifiedStep(states[i - 1], actions[i - 1], t);
      if !VerifiesIt(actions[i - 1], t, states[i].txs[t].verified.value) {
        VerifiedByAStep(states, actions, i - 1, t);
      }
    }
  }

  /** No two bindings of a tenant answer for one subject of one provider. */
  ghost predicate OneToASubject(bindings: map<BindingId, Binding>) {
    forall b, c :: b in bindings && c in bindings && b != c ==>
      (bindings[b].tenant, bindings[b].provider, bindings[b].subject) != (bindings[c].tenant, bindings[c].provider, bindings[c].subject)
  }

  lemma BindingsStay(s: State, a: Action)
    requires Enabled(s, a, true) && !a.Commit? && !a.AddBinding?
    ensures Next(s, a, true).bindings == s.bindings
  {
    if a.Deliver? { DeliveredFrame(s, a.r); }
  }

  lemma CommittedBindings(s: State, t: TxId)
    requires t in s.txs
    ensures var after := CommitOf(s, t).bindings;
            && after.Keys == s.bindings.Keys
            && forall b :: b in s.bindings ==> after[b] == s.bindings[b].(active := after[b].active)
  {
    CommittedTx(s, s.txs[t]);
  }

  lemma CommittedTx(s: State, tx: Tx)
    ensures Committed(s, tx).bindings
      == if tx.Administering? && tx.binding in s.bindings
         then s.bindings[tx.binding := s.bindings[tx.binding].(active := tx.activate)] else s.bindings
  {
  }

  lemma SubjectsStep(s: State, a: Action)
    requires Enabled(s, a, true) && OneToASubject(s.bindings)
    ensures OneToASubject(Next(s, a, true).bindings)
  {
    if a.Commit? {
      CommittedBindings(s, a.t);
    } else if !a.AddBinding? {
      BindingsStay(s, a);
    }
  }

  /** Whatever is bound, rebound and disabled meanwhile, a subject has at most one binding
      in a tenant, so a verified subject names at most one member. */
  lemma {:induction false} OneBindingPerSubject(states: seq<State>, actions: seq<Action>, i: nat)
    requires Run(states, actions, true) && i < |states| && OneToASubject(states[0].bindings)
    ensures OneToASubject(states[i].bindings)
  {
    if i > 0 {
      OneBindingPerSubject(states, actions, i - 1);
      assert Step(states[i - 1], actions[i - 1], states[i - 1 + 1], true);
      SubjectsStep(states[i - 1], actions[i - 1]);
    }
  }

  /** An operator's commit touches its own tenant only: no other tenant's binding or
      session changes. */
  lemma AdministrationStaysInItsTenant(states: seq<State>, actions: seq<Action>, i: nat)
    requires Run(states, actions, true) && i < |actions| && actions[i].Commit?
    requires actions[i].t in states[i].txs && states[i].txs[actions[i].t].Administering?
    ensures var s, s', tenant := states[i], states[i + 1], states[i].txs[actions[i].t].tenant;
            && (forall b :: b in s.bindings && s.bindings[b].tenant != tenant ==> b in s'.bindings && s'.bindings[b] == s.bindings[b])
            && (forall sid :: sid in s.sessions && s.sessions[sid].tenant != tenant ==>
                  sid in s'.sessions && s'.sessions[sid] == s.sessions[sid])
  {
    RunKeeps(states, actions, i);
    var s, t := states[i], actions[i].t;
    assert Step(s, actions[i], states[i + 1], true);
    assert TxOk(s, s.txs[t]);
    assert forall sid :: sid in s.sessions ==> Stamped(s, s.sessions[sid]);
    AdminCommit(s, t);
  }

  lemma AdminCommit(s: State, t: TxId)
    requires t in s.txs && s.txs[t].Administering? && s.txs[t].applied && TxOk(s, s.txs[t])
    requires forall sid :: sid in s.sessions ==> Stamped(s, s.sessions[sid])
    requires forall sid :: sid in s.txs[t].revokes && sid in s.sessions ==> s.sessions[sid].binding == s.txs[t].binding
    ensures var s', tenant := CommitOf(s, t), s.txs[t].tenant;
            && (forall b :: b in s.bindings && s.bindings[b].tenant != tenant ==> b in s'.bindings && s'.bindings[b] == s.bindings[b])
            && (forall sid :: sid in s.sessions && s.sessions[sid].tenant != tenant ==>
                  sid in s'.sessions && s'.sessions[sid] == s.sessions[sid])
  {
  }

  /** A ceremony is used at most once. Committed sessions map one-to-one to ceremonies
      that were begun, and a ceremony still in the table, never answered or restored
      by an abort, has left no session behind. */
  lemma OneSessionPerCeremony(states: seq<State>, actions: seq<Action>, i: nat)
    requires Run(states, actions, true) && i < |states|
    ensures var s := states[i];
            && (forall sid :: sid in s.sessions ==>
                  sid in s.origin && s.origin[sid] in s.begun && s.origin[sid] !in s.ceremonies)
            && (forall a, b :: a in s.sessions && b in s.sessions && s.origin[a] == s.origin[b] ==> a == b)
  {
    RunKeeps(states, actions, i);
  }

  // ---- what can be reached ----

  /** The last state of a run. */
  ghost predicate Reaches(s: State, locking: bool) {
    exists states, actions :: Run(states, actions, locking) && states[|states| - 1] == s
  }

  /** A run grows by one step. */
  lemma OneMoreStep(states: seq<State>, actions: seq<Action>, a: Action, s': State, locking: bool)
    requires Run(states, actions, locking) && Step(states[|states| - 1], a, s', locking)
    ensures Run(states + [s'], actions + [a], locking)
  {
    var more, acts := states + [s'], actions + [a];
    forall i | 0 <= i < |acts| ensures Step(more[i], acts[i], more[i + 1], locking) {
      if i < |actions| { assert Step(states[i], actions[i], states[i + 1], locking); }
    }
  }

  lemma ReachesNext(s: State, a: Action, locking: bool) returns (s': State)
    requires Reaches(s, locking) && Enabled(s, a, locking)
    ensures s' == Next(s, a, locking) && Reaches(s', locking)
  {
    s' := Next(s, a, locking);
    var states, actions :| Run(states, actions, locking) && states[|states| - 1] == s;
    OneMoreStep(states, actions, a, s', locking);
    assert (states + [s'])[|states|] == s';
  }

  /** One login: the browser and the path it asks for, the identifiers drawn for it,
      the binding it ends at. */
  datatype Login = Login(agent: Agent, path: string, provider: string, ttl: nat, t: TxId,
                         id: StateId, session: SessionId, binding: BindingId)

  /** The binding answers this login, and no other transaction holds its row or claims
      the ceremony. */
  ghost predicate Free(s: State, l: Login) {
    && l.binding in s.bindings && s.bindings[l.binding].active
    && s.bindings[l.binding].tenant == l.agent.tenant && s.bindings[l.binding].provider == l.provider
    && l.session !in s.origin
    && forall u :: u in s.txs && u != l.t ==> l.binding !in Locks(s.txs[u]) && l.id !in Claims(s.txs[u])
  }

  /** A login can start here: its identifiers are fresh and nothing it has to wait for
      is held. Whatever else is under way may stay under way. */
  ghost predicate Quiet(s: State, l: Login) {
    && Free(s, l) && l.ttl > 0 && l.t !in s.txs && l.id !in s.begun
    && forall u :: u in s.txs ==> Claims(s.txs[u]) !! SweptBy(s, l.agent.tenant, s.now)
  }

  /** Every initial state with such a binding is one. */
  lemma InitiallyQuiet(s: State, l: Login)
    requires Init(s) && l.ttl > 0 && l.binding in s.bindings && s.bindings[l.binding].active
    requires s.bindings[l.binding].tenant == l.agent.tenant && s.bindings[l.binding].provider == l.provider
    ensures Quiet(s, l)
    ensures forall locking :: Reaches(s, locking)
  {
    forall locking ensures Reaches(s, locking) { assert Run([s], [], locking); }
  }

  /** What the login leaves alone until it commits. */
  ghost predicate Along(from: State, s: State, l: Login) {
    && s.now == from.now && s.bindings == from.bindings && s.sessions == from.sessions
    && s.txs - {l.t} == from.txs - {l.t} && Free(s, l)
  }

  function RowOf(from: State, l: Login): Ceremony { Ceremony(l.agent.tenant, l.provider, l.path, from.now + l.ttl) }

  /** A browser has sent off its begin request. */
  lemma Asked(from: State, l: Login, locking: bool) returns (s: State)
    requires Reaches(from, locking) && Quiet(from, l)
    ensures Reaches(s, locking) && Along(from, s, l) && s.ceremonies == from.ceremonies && s.begun == from.begun
    ensures l.t in s.txs && s.txs[l.t] == Beginning(l.agent, l.path, from.now, None, {})
  {
    s := ReachesNext(from, StartBegin(l.t, l.agent, l.path), locking);
  }

  /** The ceremony is put. */
  lemma Put(from: State, l: Login, locking: bool) returns (s: State)
    requires Reaches(from, locking) && Quiet(from, l)
    ensures Reaches(s, locking) && Along(from, s, l)
    ensures l.t in s.txs && s.txs[l.t].Beginning? && s.txs[l.t].agent == l.agent && s.txs[l.t].put == Some((l.id, RowOf(from, l)))
  {
    s := Asked(from, l, locking);
    forall u | u in s.txs && u != l.t ensures Claims(s.txs[u]) !! SweptBy(s, l.agent.tenant, from.now) {
      assert u in s.txs - {l.t} && s.txs[u] == from.txs[u];
    }
    s := ReachesNext(s, PutCeremony(l.t, l.id, l.provider, l.ttl), locking);
  }

  /** The begin request has answered and committed. */
  lemma PutCommitted(from: State, l: Login, locking: bool) returns (s: State)
    requires Reaches(from, locking) && Quiet(from, l)
    ensures Reaches(s, locking) && Along(from, s, l)
    ensures l.t !in s.txs && l.id in s.ceremonies && s.ceremonies[l.id] == RowOf(from, l)
    ensures StateCookie(l.agent, l.id) in s.responses
  {
    s := Put(from, l, locking);
    s := ReachesNext(s, SendState(l.t), locking);
    s := ReachesNext(s, Commit(l.t), locking);
  }

  /** Its cookie has arrived. */
  lemma Cookied(from: State, l: Login, locking: bool) returns (s: State)
    requires Reaches(from, locking) && Quiet(from, l)
    ensures Reaches(s, locking) && Along(from, s, l)
    ensures l.t !in s.txs && l.id in s.ceremonies && s.ceremonies[l.id] == RowOf(from, l)
    ensures l.agent in s.stateJar && s.stateJar[l.agent] == l.id
  {
    s := PutCommitted(from, l, locking);
    s := ReachesNext(s, Deliver(StateCookie(l.agent, l.id)), locking);
  }

  // ---- what a forged callback costs ----

  /** The events that change what a browser's state cookie is. */
  predicate ChangesJar(a: Action, agent: Agent) {
    match a
    case Deliver(StateCookie(to, _)) => to == agent
    case Deliver(SignedIn(to, _, _)) => to == agent
    case Deliver(Refusal(to)) => to == agent
    case DropState(from) => from == agent
    case _ => false
  }

  lemma DeliveredJar(s: State, r: Response, agent: Agent)
    ensures JarOf(Delivered(s, r).stateJar, agent)
      == if r.StateCookie? && r.agent == agent then Some(r.id)
         else if ChangesJar(Deliver(r), agent) then None else JarOf(s.stateJar, agent)
  {
  }

  predicate CallbackAction(a: Action) {
    a.StartCallback? || a.TakeCeremony? || a.VerifyToken? || a.FinalizeLogin? || a.IssueSession? || a.RefuseCallback?
  }

  predicate OperatorAction(a: Action) {
    a.StartAdmin? || a.LockAdmin? || a.ApplyAdmin? || a.AddBinding? || a.StartLogout? || a.FindSession? || a.AnswerLogout?
  }

  lemma CallbackJars(s: State, a: Action)
    requires Enabled(s, a, true) && CallbackAction(a)
    ensures Next(s, a, true).stateJar == s.stateJar && Next(s, a, true).sessionJar == s.sessionJar
  {
  }

  lemma OperatorJars(s: State, a: Action)
    requires Enabled(s, a, true) && OperatorAction(a)
    ensures Next(s, a, true).stateJar == s.stateJar && Next(s, a, true).sessionJar == s.sessionJar
  {
  }

  lemma JarStep(s: State, a: Action, agent: Agent)
    requires Enabled(s, a, true)
    ensures var jar := JarOf(Next(s, a, true).stateJar, agent);
            if a.Deliver? && a.r.StateCookie? && a.r.agent == agent then jar == Some(a.r.id)
            else jar == if ChangesJar(a, agent) then None else JarOf(s.stateJar, agent)
  {
    if a.Deliver? {
      DeliveredJar(s, a.r, agent);
    } else if a.Commit? {
      CommittedFrame(s, a.t);
    } else if CallbackAction(a) {
      CallbackJars(s, a);
    } else if OperatorAction(a) {
      OperatorJars(s, a);
    }
  }

  /** The last event to touch the browser's state cookie delivered this one. */
  ghost predicate LastDelivered(actions: seq<Action>, i: nat, agent: Agent, id: StateId) {
    exists j :: 0 <= j < i <= |actions| && actions[j] == Deliver(StateCookie(agent, id))
                && forall k :: j < k < i ==> !ChangesJar(actions[k], agent)
  }

  /** In every run a browser holds a ceremony's state exactly when the last event that
      touched its cookie was the delivery of that state. */
  lemma {:induction false} JarMeans(states: seq<State>, actions: seq<Action>, i: nat, agent: Agent, id: StateId)
    requires Run(states, actions, true) && i < |states|
    ensures JarOf(states[i].stateJar, agent) == Some(id) <==> LastDelivered(actions, i, agent, id)
  {
    if i > 0 {
      var s, a := states[i - 1], actions[i - 1];
      assert Step(s, a, states[i - 1 + 1], true);
      JarStep(s, a, agent);
      JarMeans(states, actions, i - 1, agent, id);
      LastDeliveredStep(actions, i - 1, agent, id);
    }
  }

  lemma LastDeliveredStep(actions: seq<Action>, i: nat, agent: Agent, id: StateId)
    requires i < |actions|
    ensures LastDelivered(actions, i + 1, agent, id)
      <==> actions[i] == Deliver(StateCookie(agent, id)) || (!ChangesJar(actions[i], agent) && LastDelivered(actions, i, agent, id))
  {
    if LastDelivered(actions, i, agent, id) && !ChangesJar(actions[i], agent) {
      var j :| 0 <= j < i && actions[j] == Deliver(StateCookie(agent, id)) && forall k :: j < k < i ==> !ChangesJar(actions[k], agent);
      assert forall k :: j < k < i + 1 ==> !ChangesJar(actions[k], agent);
    }
  }

  /** The events that change what a browser's session cookie is. */
  predicate ChangesSession(a: Action, agent: Agent) {
    match a
    case Deliver(SignedIn(to, _, _)) => to == agent
    case Deliver(SignedOut(to)) => to == agent
    case DropSession(from) => from == agent
    case _ => false
  }

  predicate DeliversSession(a: Action, agent: Agent, sid: SessionId) {
    a.Deliver? && a.r.SignedIn? && a.r.agent == agent && a.r.session == sid
  }

  lemma DeliveredSession(s: State, r: Response, agent: Agent)
    ensures JarOf(Delivered(s, r).sessionJar, agent)
      == if r.SignedIn? && r.agent == agent then Some(r.session)
         else if r.SignedOut? && r.agent == agent then None else JarOf(s.sessionJar, agent)
  {
  }

  lemma SessionStep(s: State, a: Action, agent: Agent)
    requires Enabled(s, a, true)
    ensures var jar := JarOf(Next(s, a, true).sessionJar, agent);
            if a.Deliver? && a.r.SignedIn? && a.r.agent == agent then jar == Some(a.r.session)
            else jar == if ChangesSession(a, agent) then None else JarOf(s.sessionJar, agent)
  {
    if a.Deliver? {
      DeliveredSession(s, a.r, agent);
    } else if a.Commit? {
      CommittedFrame(s, a.t);
    } else if CallbackAction(a) {
      CallbackJars(s, a);
    } else if OperatorAction(a) {
      OperatorJars(s, a);
    }
  }

  /** The last event to touch the browser's session cookie delivered this session. */
  ghost predicate LastSignedIn(actions: seq<Action>, i: nat, agent: Agent, sid: SessionId) {
    exists j :: 0 <= j < i <= |actions| && DeliversSession(actions[j], agent, sid)
                && forall k :: j < k < i ==> !ChangesSession(actions[k], agent)
  }

  lemma LastSignedInStep(actions: seq<Action>, i: nat, agent: Agent, sid: SessionId)
    requires i < |actions|
    ensures LastSignedIn(actions, i + 1, agent, sid)
      <==> DeliversSession(actions[i], agent, sid) || (!ChangesSession(actions[i], agent) && LastSignedIn(actions, i, agent, sid))
  {
    if LastSignedIn(actions, i, agent, sid) && !ChangesSession(actions[i], agent) {
      var j :| 0 <= j < i && DeliversSession(actions[j], agent, sid) && forall k :: j < k < i ==> !ChangesSession(actions[k], agent);
      assert forall k :: j < k < i + 1 ==> !ChangesSession(actions[k], agent);
    }
  }

  /** In every run a browser holds a session's cookie exactly when the last event that
      touched it was the delivery of that sign-in: a sign-out takes it away. */
  lemma {:induction false} SessionJarMeans(states: seq<State>, actions: seq<Action>, i: nat, agent: Agent, sid: SessionId)
    requires Run(states, actions, true) && i < |states|
    ensures JarOf(states[i].sessionJar, agent) == Some(sid) <==> LastSignedIn(actions, i, agent, sid)
  {
    if i > 0 {
      assert Step(states[i - 1], actions[i - 1], states[i - 1 + 1], true);
      SessionStep(states[i - 1], actions[i - 1], agent);
      SessionJarMeans(states, actions, i - 1, agent, sid);
      LastSignedInStep(actions, i - 1, agent, sid);
    }
  }

  /** When a callback carries its own state, in every run: exactly when no refusal,
      sign-in, newer login or eviction touched the browser's cookie since that state's
      was delivered. Any other callback can take nothing. */
  lemma CallbackCarriesItsState(states: seq<State>, actions: seq<Action>, i: nat)
    requires Run(states, actions, true) && i < |actions| && actions[i].StartCallback?
    ensures var a, s' := actions[i], states[i + 1];
            && a.t in s'.txs && s'.txs[a.t].Calling? && s'.txs[a.t].query == a.query
            && (s'.txs[a.t].cookie == Some(a.query) <==> LastDelivered(actions, i, a.agent, a.query))
            && (!LastDelivered(actions, i, a.agent, a.query) ==> !Enabled(s', TakeCeremony(a.t), true))
  {
    assert Step(states[i], actions[i], states[i + 1], true);
    JarMeans(states, actions, i, actions[i].agent, actions[i].query);
  }

  /** A callback with another state is refused, and the refusal clears the cookie. */
  lemma Forged(from: State, l: Login, other: StateId) returns (s: State)
    requires Reaches(from, true) && Quiet(from, l) && other != l.id
    ensures Reaches(s, true) && Along(from, s, l)
    ensures l.id in s.ceremonies && s.ceremonies[l.id] == RowOf(from, l) && l.t in s.txs
    ensures s.txs[l.t] == Calling(l.agent, other, Some(l.id), l.provider, from.now, None, None, None, false, None, true)
    ensures Refusal(l.agent) in s.responses
  {
    s := Cookied(from, l, true);
    s := ReachesNext(s, StartCallback(l.t, l.agent, other, l.provider), true);
    s := ReachesNext(s, RefuseCallback(l.t), true);
  }

  lemma CookielessTakesNothing(s: State, t: TxId, agent: Agent, query: StateId, provider: string)
    requires agent !in s.stateJar && t !in s.txs
    ensures !Enabled(Next(s, StartCallback(t, agent, query, provider), true), TakeCeremony(t), true)
  {
  }

  lemma Refused(from: State, l: Login, other: StateId) returns (s: State)
    requires Reaches(from, true) && Quiet(from, l) && other != l.id
    ensures Reaches(s, true) && s.now == from.now && l.id in s.ceremonies && s.ceremonies[l.id] == RowOf(from, l)
    ensures l.t !in s.txs && Refusal(l.agent) in s.responses
  {
    s := Forged(from, l, other);
    s := ReachesNext(s, Commit(l.t), true);
  }

  /** Refusing a forged callback costs the member the login it met. The ceremony's row is
      untouched, but the refusal takes the browser's state cookie with it: from every
      quiet state a run leads to one where the row still waits, unexpired, and the
      member's own return carries no cookie and can take nothing. */
  lemma ForgedCallbackCostsTheLogin(from: State, l: Login, other: StateId)
    requires Reaches(from, true) && Quiet(from, l) && other != l.id
    ensures exists s ::
              && Reaches(s, true) && l.id in s.ceremonies && s.ceremonies[l.id] == RowOf(from, l)
              && s.ceremonies[l.id].expiresAt > s.now && l.agent !in s.stateJar && l.t !in s.txs
              && !Enabled(Next(s, StartCallback(l.t, l.agent, l.id, l.provider), true), TakeCeremony(l.t), true)
  {
    var s := Refused(from, l, other);
    s := ReachesNext(s, Deliver(Refusal(l.agent)), true);
    assert l.agent !in s.stateJar;
    CookielessTakesNothing(s, l.t, l.agent, l.id, l.provider);
  }

  /** The callback's transaction at a point of its life. */
  function Callback(from: State, l: Login, verified: Option<Subject>, finalized: Option<BindingId>, locked: bool): Tx {
    Calling(l.agent, l.id, Some(l.id), l.provider, from.now, Some(RowOf(from, l)), verified, finalized, locked, None, false)
  }

  /** The browser has come back. */
  lemma Called(from: State, l: Login, locking: bool) returns (s: State)
    requires Reaches(from, locking) && Quiet(from, l)
    ensures Reaches(s, locking) && Along(from, s, l) && l.id in s.ceremonies && s.ceremonies[l.id] == RowOf(from, l)
    ensures l.t in s.txs
    ensures s.txs[l.t] == Calling(l.agent, l.id, Some(l.id), l.provider, from.now, None, None, None, false, None, false)
  {
    s := Cookied(from, l, locking);
    s := ReachesNext(s, StartCallback(l.t, l.agent, l.id, l.provider), locking);
  }

  /** Its ceremony is taken. */
  lemma Taken(from: State, l: Login, locking: bool) returns (s: State)
    requires Reaches(from, locking) && Quiet(from, l)
    ensures Reaches(s, locking) && Along(from, s, l)
    ensures l.t in s.txs && s.txs[l.t] == Callback(from, l, None, None, false)
  {
    s := Called(from, l, locking);
    s := ReachesNext(s, TakeCeremony(l.t), locking);
  }

  /** Its token is verified and its binding finalized, under the lock or without it. */
  lemma Finalized(from: State, l: Login, locking: bool) returns (s: State)
    requires Reaches(from, locking) && Quiet(from, l)
    ensures Reaches(s, locking) && Along(from, s, l)
    ensures l.t in s.txs
    ensures s.txs[l.t] == Callback(from, l, Some(from.bindings[l.binding].subject), Some(l.binding), locking)
  {
    s := Taken(from, l, locking);
    s := ReachesNext(s, VerifyToken(l.t, from.bindings[l.binding].subject), locking);
    s := ReachesNext(s, FinalizeLogin(l.t, l.binding), locking);
  }

  /** The session of a login that has finalized. */
  function SessionOf(from: State, l: Login): Session
    requires l.binding in from.bindings
  {
    Session(l.agent.tenant, from.bindings[l.binding].party, l.binding, false)
  }

  lemma Issued(from: State, l: Login, s: State, locking: bool) returns (s': State)
    requires Reaches(s, locking) && l.binding in from.bindings && l.binding in s.bindings
    requires s.bindings[l.binding].party == from.bindings[l.binding].party && l.session !in s.origin
    requires l.t in s.txs
    requires s.txs[l.t] == Callback(from, l, Some(from.bindings[l.binding].subject), Some(l.binding), locking)
    ensures Reaches(s', locking) && s'.bindings == s.bindings
    ensures s'.sessions == s.sessions[l.session := SessionOf(from, l)]
    ensures SignedIn(l.agent, l.session, l.path) in s'.responses
  {
    s' := ReachesNext(s, IssueSession(l.t, l.session), locking);
    s' := ReachesNext(s', Commit(l.t), locking);
  }

  /** A login nobody gets in the way of signs its browser in: from every reachable
      state, whatever else is under way, as long as nothing it has to wait for is held,
      the browser ends with the cookie of one new live session, stamped with the
      binding, at the path it asked for. */
  lemma HonestLoginSignsIn(from: State, l: Login)
    requires Reaches(from, true) && Quiet(from, l)
    ensures exists s :: && Reaches(s, true) && l.agent in s.sessionJar && s.sessionJar[l.agent] == l.session
                        && s.sessions == from.sessions[l.session := SessionOf(from, l)]
                        && (l.agent, l.session, l.path) in s.landings
  {
    var s := Finalized(from, l, true);
    s := Issued(from, l, s, true);
    s := ReachesNext(s, Deliver(SignedIn(l.agent, l.session, l.path)), true);
    assert l.agent in s.sessionJar;
  }

  /** A disable takes the row while the login has resolved its binding without it. */
  lemma Disabling(from: State, l: Login, u: TxId) returns (s: State)
    requires Reaches(from, false) && Quiet(from, l) && u !in from.txs && u != l.t
    ensures Reaches(s, false) && s.bindings == from.bindings && l.session !in s.origin
    ensures l.binding in s.bindings && l.t in s.txs && u in s.txs
    ensures s.txs[l.t] == Callback(from, l, Some(from.bindings[l.binding].subject), Some(l.binding), false)
    ensures s.txs[u] == Administering(l.agent.tenant, l.binding, false, true, false, {})
  {
    s := Finalized(from, l, false);
    assert u !in s.txs by { assert u !in s.txs - {l.t}; }
    s := ReachesNext(s, StartAdmin(u, l.agent.tenant, l.binding, false), false);
    s := ReachesNext(s, LockAdmin(u), false);
  }

  /** The disable commits between the resolution and the session. */
  lemma DisabledInBetween(from: State, l: Login, u: TxId) returns (s: State)
    requires Reaches(from, false) && Quiet(from, l) && u !in from.txs && u != l.t
    ensures Reaches(s, false) && l.session !in s.origin
    ensures l.binding in s.bindings && s.bindings[l.binding] == from.bindings[l.binding].(active := false)
    ensures l.t in s.txs
    ensures s.txs[l.t] == Callback(from, l, Some(from.bindings[l.binding].subject), Some(l.binding), false)
  {
    s := Disabling(from, l, u);
    s := ReachesNext(s, ApplyAdmin(u), false);
    s := ReachesNext(s, Commit(u), false);
  }

  /** The row lock carries the property: were the callback merely to resolve the
      binding and issue, then from every such state a disable could commit in between,
      and a live session of a disabled binding would be reached. */
  lemma ResolveThenIssueBreaks(from: State, l: Login, u: TxId)
    requires Reaches(from, false) && Quiet(from, l) && u !in from.txs && u != l.t
    ensures exists s :: && Reaches(s, false) && l.session in s.sessions && !s.sessions[l.session].revoked
                        && s.sessions[l.session].binding == l.binding
                        && l.binding in s.bindings && !s.bindings[l.binding].active
  {
    var s := DisabledInBetween(from, l, u);
    s := Issued(from, l, s, false);
  }
}
