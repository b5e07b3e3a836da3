/** Every serial service call is a run of the concurrent protocol: the steps its
    transaction takes there, one after another, change the abstracted tables exactly
    as the call does. */
module LoginRefinement {
  import opened Text
  import opened CeremonyStore
  import M = Members
  import P = LoginProtocol
  import R = LoginRuns
  import S = LoginService

  // ---- steps taken one after another ----

  ghost predicate Can(s: P.State, actions: seq<P.Action>)
    decreases |actions|, 0
  {
    actions == [] || (var k := |actions| - 1; Can(s, actions[..k]) && P.Enabled(Do(s, actions[..k]), actions[k], true))
  }

  ghost function Do(s: P.State, actions: seq<P.Action>): P.State
    requires Can(s, actions)
    decreases |actions|, 1
  {
    if actions == [] then s else var k := |actions| - 1; P.Next(Do(s, actions[..k]), actions[k], true)
  }

  lemma Then(s: P.State, actions: seq<P.Action>, a: P.Action)
    requires Can(s, actions) && P.Enabled(Do(s, actions), a, true)
    ensures Can(s, actions + [a]) && Do(s, actions + [a]) == P.Next(Do(s, actions), a, true)
  {
    assert (actions + [a])[..|actions|] == actions;
  }

  /** Such steps carry a run on. */
  lemma {:induction false} DoReaches(s: P.State, actions: seq<P.Action>)
    requires R.Reaches(s, true) && Can(s, actions)
    ensures R.Reaches(Do(s, actions), true)
    decreases |actions|
  {
    if actions != [] {
      var k := |actions| - 1;
      DoReaches(s, actions[..k]);
      var s' := R.ReachesNext(Do(s, actions[..k]), actions[k], true);
    }
  }

  // ---- the tables behind a protocol state ----

  /** The protocol's name for a stored ceremony's key. */
  type Naming = Key -> P.StateId

  ghost predicate Injective(name: Naming) {
    forall k, k' :: name(k) == name(k') ==> k == k'
  }

  function CeremonyOf(k: Key, row: Row): P.Ceremony { P.Ceremony(k.0, row.provider, row.returnTo, row.expiresAt) }

  ghost function Ceremonies(rows: Rows, name: Naming): map<P.StateId, P.Ceremony>
    requires Injective(name)
  {
    map k | k in rows :: name(k) := CeremonyOf(k, rows[k])
  }

  function BindingOf(b: S.Binding): P.Binding { P.Binding(b.tenant, b.party, b.provider, P.Subject(b.issuer, b.subject), b.active) }

  function Bindings(bindings: map<S.Id, S.Binding>): map<P.BindingId, P.Binding> {
    map b | b in bindings :: BindingOf(bindings[b])
  }

  function SessionOf(a: S.AuthSession): P.Session { P.Session(a.tenant, a.party, a.binding, a.revoked) }

  function Sessions(sessions: map<S.Id, S.AuthSession>): map<P.SessionId, P.Session> {
    map s | s in sessions :: SessionOf(sessions[s])
  }

  /** The state's committed tables are these, and nothing is under way. */
  ghost predicate Idle(s: P.State, tb: S.Tables, name: Naming) {
    && Injective(name) && s.txs == map[]
    && s.ceremonies == Ceremonies(tb.ceremonies, name)
    && s.bindings == Bindings(tb.bindings) && s.sessions == Sessions(tb.sessions)
  }

  /** The state with one transaction under way. */
  function With(s: P.State, t: P.TxId, tx: P.Tx): P.State { s.(txs := map[t := tx]) }

  /** What the protocol's runs keep, the service's tables have: a live session's binding
      is there, active, and its own party's and tenant's. */
  lemma TablesAreBound(s: P.State, tb: S.Tables, name: Naming)
    requires R.Reaches(s, true) && Idle(s, tb, name)
    ensures forall sid :: sid in tb.sessions ==>
              && tb.sessions[sid].binding in tb.bindings
              && tb.bindings[tb.sessions[sid].binding].party == tb.sessions[sid].party
              && tb.bindings[tb.sessions[sid].binding].tenant == tb.sessions[sid].tenant
              && (!tb.sessions[sid].revoked ==> tb.bindings[tb.sessions[sid].binding].active)
  {
    var states, actions :| P.Run(states, actions, true) && states[|states| - 1] == s;
    R.LiveSessionsHaveActiveBindings(states, actions, |states| - 1);
    forall sid | sid in tb.sessions
      ensures tb.sessions[sid].binding in tb.bindings
      ensures tb.bindings[tb.sessions[sid].binding].party == tb.sessions[sid].party
      ensures tb.bindings[tb.sessions[sid].binding].tenant == tb.sessions[sid].tenant
      ensures !tb.sessions[sid].revoked ==> tb.bindings[tb.sessions[sid].binding].active
    {
      assert s.sessions[sid] == SessionOf(tb.sessions[sid]);
      assert s.sessions[sid].binding in s.bindings;
    }
  }

  // ---- the callback ----

  /** The callback comes from this browser, with the cookie its jar holds, now. */
  ghost predicate Presents(s: P.State, agent: P.Agent, c: S.Callback, name: Naming) {
    && agent.tenant == c.tenant && c.now == s.now
    && P.JarOf(s.stateJar, agent) == if c.stored.Some? then Some(name(KeyOf(c.tenant, c.stored.value))) else None
  }

  function Start(t: P.TxId, agent: P.Agent, c: S.Callback, name: Naming): seq<P.Action> {
    [P.StartCallback(t, agent, name(KeyOf(c.tenant, c.state)), c.provider)]
  }

  function Take(t: P.TxId, agent: P.Agent, c: S.Callback, name: Naming): seq<P.Action> {
    Start(t, agent, c, name) + [P.TakeCeremony(t)]
  }

  function Verify(t: P.TxId, agent: P.Agent, c: S.Callback, v: S.Verified, name: Naming): seq<P.Action> {
    Take(t, agent, c, name) + [P.VerifyToken(t, P.Subject(v.issuer, v.subject))]
  }

  function Finalize(t: P.TxId, agent: P.Agent, c: S.Callback, v: S.Verified, b: S.Id, name: Naming): seq<P.Action> {
    Verify(t, agent, c, v, name) + [P.FinalizeLogin(t, b)]
  }

  /** The transaction of a callback once it has started, and at each later point. */
  ghost function Tx(s: P.State, agent: P.Agent, c: S.Callback, name: Naming, taken: Option<P.Ceremony>,
                    verified: Option<P.Subject>, finalized: Option<S.Id>): P.Tx
  {
    P.Calling(agent, name(KeyOf(c.tenant, c.state)), P.JarOf(s.stateJar, agent), c.provider, s.now,
              taken, verified, finalized, finalized.Some?, None, false)
  }

  lemma Starts(s: P.State, tb: S.Tables, t: P.TxId, agent: P.Agent, c: S.Callback, name: Naming)
    requires Idle(s, tb, name) && Presents(s, agent, c, name)
    ensures Can(s, Start(t, agent, c, name))
    ensures Do(s, Start(t, agent, c, name)) == With(s, t, Tx(s, agent, c, name, None, None, None))
  {
    assert Can(s, []);
    Then(s, [], P.StartCallback(t, agent, name(KeyOf(c.tenant, c.state)), c.provider));
    assert [] + Start(t, agent, c, name) == Start(t, agent, c, name);
  }

  /** The row a consumable state names, as the protocol sees it. */
  ghost function TakenOf(tb: S.Tables, c: S.Callback): P.Ceremony
    requires KeyOf(c.tenant, c.state) in tb.ceremonies
  {
    CeremonyOf(KeyOf(c.tenant, c.state), tb.ceremonies[KeyOf(c.tenant, c.state)])
  }

  ghost predicate Takes(tb: S.Tables, c: S.Callback) {
    S.PairMatches(c) && Consumable(tb.ceremonies, c.tenant, c.state, c.now)
  }

  lemma TakesRow(s: P.State, tb: S.Tables, t: P.TxId, agent: P.Agent, c: S.Callback, name: Naming)
    requires Idle(s, tb, name) && Presents(s, agent, c, name) && Takes(tb, c)
    ensures Can(s, Take(t, agent, c, name))
    ensures Do(s, Take(t, agent, c, name)) == With(s, t, Tx(s, agent, c, name, Some(TakenOf(tb, c)), None, None))
  {
    Starts(s, tb, t, agent, c, name);
    assert name(KeyOf(c.tenant, c.state)) in s.ceremonies;
    Then(s, Start(t, agent, c, name), P.TakeCeremony(t));
  }

  lemma Verifies(s: P.State, tb: S.Tables, t: P.TxId, agent: P.Agent, c: S.Callback, v: S.Verified, name: Naming)
    requires Idle(s, tb, name) && Presents(s, agent, c, name) && Takes(tb, c)
    requires tb.ceremonies[KeyOf(c.tenant, c.state)].provider == c.provider
    ensures Can(s, Verify(t, agent, c, v, name))
    ensures Do(s, Verify(t, agent, c, v, name))
      == With(s, t, Tx(s, agent, c, name, Some(TakenOf(tb, c)), Some(P.Subject(v.issuer, v.subject)), None))
  {
    TakesRow(s, tb, t, agent, c, name);
    Then(s, Take(t, agent, c, name), P.VerifyToken(t, P.Subject(v.issuer, v.subject)));
  }

  lemma FinalizeStep(s: P.State, t: P.TxId, tx: P.Tx, b: P.BindingId)
    requires tx.Calling? && tx.verified.Some? && tx.finalized.None? && !tx.answered
    requires b in s.bindings && s.bindings[b] == P.Binding(tx.agent.tenant, s.bindings[b].party, tx.provider, tx.verified.value, true)
    ensures P.Step(With(s, t, tx), P.FinalizeLogin(t, b), With(s, t, tx.(finalized := Some(b), locked := true)), true)
  {
  }

  lemma Finalizes(s: P.State, tb: S.Tables, t: P.TxId, agent: P.Agent, c: S.Callback, v: S.Verified, b: S.Id, name: Naming)
    requires Idle(s, tb, name) && Presents(s, agent, c, name) && Takes(tb, c)
    requires tb.ceremonies[KeyOf(c.tenant, c.state)].provider == c.provider
    requires S.Resolves(tb.bindings, c.tenant, c.provider, v, b) && tb.bindings[b].active
    ensures Can(s, Finalize(t, agent, c, v, b, name))
    ensures Do(s, Finalize(t, agent, c, v, b, name))
      == With(s, t, Tx(s, agent, c, name, Some(TakenOf(tb, c)), Some(P.Subject(v.issuer, v.subject)), Some(b)))
  {
    Verifies(s, tb, t, agent, c, v, name);
    assert s.bindings[b] == BindingOf(tb.bindings[b]);
    FinalizeStep(s, t, Tx(s, agent, c, name, Some(TakenOf(tb, c)), Some(P.Subject(v.issuer, v.subject)), None), b);
    Then(s, Verify(t, agent, c, v, name), P.FinalizeLogin(t, b));
  }

  /** Two steps, each from a state already known. */
  lemma ThenBoth(s: P.State, actions: seq<P.Action>, first: P.State, a: P.Action, second: P.State, b: P.Action, third: P.State)
    requires Can(s, actions) && Do(s, actions) == first
    requires P.Step(first, a, second, true) && P.Step(second, b, third, true)
    ensures Can(s, actions + [a, b]) && Do(s, actions + [a, b]) == third
  {
    Then(s, actions, a);
    Then(s, actions + [a], b);
    assert actions + [a] + [b] == actions + [a, b];
  }

  /** A transaction alone in the database commits. */
  lemma Commits(s: P.State, t: P.TxId, tx: P.Tx)
    requires s.txs == map[] && (tx.Calling? ==> tx.answered) && (tx.Administering? ==> tx.applied)
    ensures P.Step(With(s, t, tx), P.Commit(t), P.Committed(s, tx), true)
  {
    assert With(s, t, tx).txs - {t} == map[];
  }

  /** A refusal commits what was taken. */
  lemma Refuses(s: P.State, actions: seq<P.Action>, t: P.TxId, tx: P.Tx)
    requires Can(s, actions) && Do(s, actions) == With(s, t, tx) && tx.Calling? && !tx.answered && tx.issued.None?
    requires s.txs == map[]
    ensures Can(s, actions + [P.RefuseCallback(t), P.Commit(t)])
    ensures Do(s, actions + [P.RefuseCallback(t), P.Commit(t)])
      == s.(ceremonies := if tx.taken.Some? then s.ceremonies - {tx.query} else s.ceremonies,
            responses := s.responses + {P.Refusal(tx.agent)})
  {
    var sent := P.Respond(s, P.Refusal(tx.agent));
    Answers(s, t, tx);
    Commits(sent, t, tx.(answered := true));
    ThenBoth(s, actions, With(s, t, tx), P.RefuseCallback(t), With(sent, t, tx.(answered := true)), P.Commit(t),
             P.Committed(sent, tx.(answered := true)));
  }

  lemma Answers(s: P.State, t: P.TxId, tx: P.Tx)
    requires tx.Calling? && !tx.answered
    ensures P.Step(With(s, t, tx), P.RefuseCallback(t), With(P.Respond(s, P.Refusal(tx.agent)), t, tx.(answered := true)), true)
  {
  }

  /** The consuming delete, under the names. */
  lemma DeletedRow(rows: Rows, k: Key, name: Naming)
    requires Injective(name)
    ensures Ceremonies(rows - {k}, name) == Ceremonies(rows, name) - {name(k)}
  {
  }

  lemma AddedSession(sessions: map<S.Id, S.AuthSession>, id: S.Id, a: S.AuthSession)
    ensures Sessions(sessions[id := a]) == Sessions(sessions)[id := SessionOf(a)]
  {
  }

  /** The steps of one callback, from `StartCallback` to the end of its transaction. */
  ghost function CallbackSteps(tb: S.Tables, c: S.Callback, verify: S.Verifier, f: S.Fresh, t: P.TxId, agent: P.Agent, name: Naming)
    : seq<P.Action>
  {
    var refuse := [P.RefuseCallback(t), P.Commit(t)];
    if !Takes(tb, c) then Start(t, agent, c, name) + refuse
    else match TakeResult(tb.ceremonies, c.tenant, c.provider, c.state, c.now)
      case None => Take(t, agent, c, name) + refuse
      case Some(ceremony) =>
        match verify(c.code, ceremony)
        case None => Take(t, agent, c, name) + refuse
        case Some(v) =>
          match S.Finalized(tb.bindings, c.tenant, c.provider, v)
          case None => Verify(t, agent, c, v, name) + refuse
          case Some(b) =>
            if f.session in tb.sessions || S.TokenUsed(tb.sessions, f.token)
            then Finalize(t, agent, c, v, b, name) + [P.Abort(t)]
            else Finalize(t, agent, c, v, b, name) + [P.IssueSession(t, f.session), P.Commit(t)]
  }

  /** The steps can be taken, and lead to these tables with nothing left under way. */
  ghost predicate Realises(s: P.State, actions: seq<P.Action>, after: S.Tables, name: Naming) {
    Can(s, actions) && Idle(Do(s, actions), after, name)
  }

  lemma RefusedWithout(s: P.State, tb: S.Tables, t: P.TxId, agent: P.Agent, c: S.Callback, name: Naming)
    requires Idle(s, tb, name) && Presents(s, agent, c, name)
    ensures var steps := Start(t, agent, c, name) + [P.RefuseCallback(t), P.Commit(t)];
            Realises(s, steps, tb, name) && P.Refusal(agent) in Do(s, steps).responses
  {
    Starts(s, tb, t, agent, c, name);
    Refuses(s, Start(t, agent, c, name), t, Tx(s, agent, c, name, None, None, None));
  }

  /** A refusal after the row was taken, whatever was found out before it. */
  lemma RefusedWith(s: P.State, tb: S.Tables, actions: seq<P.Action>, t: P.TxId, agent: P.Agent, c: S.Callback, name: Naming,
                    verified: Option<P.Subject>)
    requires Idle(s, tb, name) && Presents(s, agent, c, name) && Takes(tb, c)
    requires Can(s, actions) && Do(s, actions) == With(s, t, Tx(s, agent, c, name, Some(TakenOf(tb, c)), verified, None))
    ensures var steps := actions + [P.RefuseCallback(t), P.Commit(t)];
            Realises(s, steps, S.Taken(tb, c), name) && P.Refusal(agent) in Do(s, steps).responses
  {
    Refuses(s, actions, t, Tx(s, agent, c, name, Some(TakenOf(tb, c)), verified, None));
    DeletedRow(tb.ceremonies, KeyOf(c.tenant, c.state), name);
  }

  /** A unique key's violation takes everything back. */
  lemma Aborted(s: P.State, tb: S.Tables, actions: seq<P.Action>, t: P.TxId, tx: P.Tx, name: Naming)
    requires Idle(s, tb, name) && Can(s, actions) && Do(s, actions) == With(s, t, tx)
    ensures Realises(s, actions + [P.Abort(t)], tb, name)
  {
    Then(s, actions, P.Abort(t));
  }

  /** The protocol's state once a login that holds its binding has issued and committed. */
  function Committed(s: P.State, tx: P.Tx, sid: P.SessionId, session: P.Session): P.State
    requires tx.Calling? && tx.taken.Some?
  {
    s.(ceremonies := s.ceremonies - {tx.query}, sessions := s.sessions[sid := session], origin := s.origin[sid := tx.query],
       responses := s.responses + {P.SignedIn(tx.agent, sid, tx.taken.value.returnTo)})
  }

  lemma IssueStep(s: P.State, t: P.TxId, tx: P.Tx, b: P.BindingId, sid: P.SessionId, session: P.Session)
    requires tx.Calling? && tx.taken.Some? && tx.finalized == Some(b) && !tx.answered && b in s.bindings && sid !in s.origin
    requires session == P.Session(tx.agent.tenant, s.bindings[b].party, b, false)
    ensures P.Step(With(s, t, tx), P.IssueSession(t, sid),
                   With(P.Respond(s.(origin := s.origin[sid := tx.query]), P.SignedIn(tx.agent, sid, tx.taken.value.returnTo)), t,
                        tx.(issued := Some((sid, session)), answered := true)), true)
  {
  }

  lemma IssuesAndCommits(s: P.State, actions: seq<P.Action>, t: P.TxId, tx: P.Tx, b: P.BindingId, sid: P.SessionId)
    requires Can(s, actions) && Do(s, actions) == With(s, t, tx) && s.txs == map[]
    requires tx.Calling? && tx.taken.Some? && tx.finalized == Some(b) && tx.issued.None? && !tx.answered
    requires b in s.bindings && sid !in s.origin
    ensures Can(s, actions + [P.IssueSession(t, sid), P.Commit(t)])
    ensures Do(s, actions + [P.IssueSession(t, sid), P.Commit(t)])
      == Committed(s, tx, sid, P.Session(tx.agent.tenant, s.bindings[b].party, b, false))
  {
    var session := P.Session(tx.agent.tenant, s.bindings[b].party, b, false);
    var sent := P.Respond(s.(origin := s.origin[sid := tx.query]), P.SignedIn(tx.agent, sid, tx.taken.value.returnTo));
    var issued := tx.(issued := Some((sid, session)), answered := true);
    IssueStep(s, t, tx, b, sid, session);
    Commits(sent, t, issued);
    ThenBoth(s, actions, With(s, t, tx), P.IssueSession(t, sid), With(sent, t, issued), P.Commit(t), P.Committed(sent, issued));
  }

  /** The session is issued, and all of it commits together. */
  lemma Issues(s: P.State, tb: S.Tables, actions: seq<P.Action>, t: P.TxId, agent: P.Agent, c: S.Callback, f: S.Fresh,
               name: Naming, b: S.Id, verified: Option<P.Subject>)
    requires Idle(s, tb, name) && Presents(s, agent, c, name) && Takes(tb, c) && b in tb.bindings
    requires Can(s, actions) && f.session !in s.origin
    requires Do(s, actions) == With(s, t, Tx(s, agent, c, name, Some(TakenOf(tb, c)), verified, Some(b)))
    ensures var steps := actions + [P.IssueSession(t, f.session), P.Commit(t)];
            && Realises(s, steps, S.Issued(S.Taken(tb, c), c, b, f), name)
            && SignsIn(s, tb, Do(s, steps), agent, c, f, name)
  {
    var tx := Tx(s, agent, c, name, Some(TakenOf(tb, c)), verified, Some(b));
    IssuesAndCommits(s, actions, t, tx, b, f.session);
    assert s.bindings[b] == BindingOf(tb.bindings[b]);
    DeletedRow(tb.ceremonies, KeyOf(c.tenant, c.state), name);
    AddedSession(tb.sessions, f.session, S.AuthSession(c.tenant, tb.bindings[b].party, S.HashOf(f.token), f.expiresAt, b, false));
  }

  /** The browser is sent its session and the row's own return path, and the session
      comes from this ceremony. */
  ghost predicate SignsIn(s: P.State, tb: S.Tables, s': P.State, agent: P.Agent, c: S.Callback, f: S.Fresh, name: Naming) {
    var key := KeyOf(c.tenant, c.state);
    && key in tb.ceremonies && P.SignedIn(agent, f.session, tb.ceremonies[key].returnTo) in s'.responses
    && s'.origin == s.origin[f.session := name(key)]
  }

  /** Every serial `complete_login`, however it ends, is a run of the protocol: the steps
      of its transaction can be taken from any state that stands for the tables, and
      lead to one that stands for the tables the call leaves. A completed call sends the
      browser its session and return path, a refused one a refusal, and a violated key
      sends nothing. */
  lemma CompleteIsRealised(s: P.State, tb: S.Tables, t: P.TxId, agent: P.Agent, c: S.Callback, verify: S.Verifier, f: S.Fresh,
                           name: Naming)
    requires Idle(s, tb, name) && Presents(s, agent, c, name)
    requires S.Complete(tb, c, verify, f).0.Completed? ==> f.session !in s.origin
    ensures var (outcome, after) := S.Complete(tb, c, verify, f);
            var steps := CallbackSteps(tb, c, verify, f, t, agent, name);
            && Realises(s, steps, after, name)
            && (outcome.Completed? ==> SignsIn(s, tb, Do(s, steps), agent, c, f, name))
            && (outcome.Refused? ==> P.Refusal(agent) in Do(s, steps).responses)
  {
    if !Takes(tb, c) {
      RefusedWithout(s, tb, t, agent, c, name);
    } else {
      TakesRow(s, tb, t, agent, c, name);
      match TakeResult(tb.ceremonies, c.tenant, c.provider, c.state, c.now)
      case None => RefusedWith(s, tb, Take(t, agent, c, name), t, agent, c, name, None);
      case Some(ceremony) =>
        match verify(c.code, ceremony)
        case None => RefusedWith(s, tb, Take(t, agent, c, name), t, agent, c, name, None);
        case Some(v) => VerifiedIsRealised(s, tb, t, agent, c, v, f, name);
    }
  }

  /** From a verified token on. */
  lemma VerifiedIsRealised(s: P.State, tb: S.Tables, t: P.TxId, agent: P.Agent, c: S.Callback, v: S.Verified, f: S.Fresh,
                           name: Naming)
    requires Idle(s, tb, name) && Presents(s, agent, c, name) && Takes(tb, c)
    requires tb.ceremonies[KeyOf(c.tenant, c.state)].provider == c.provider
    ensures match S.Finalized(tb.bindings, c.tenant, c.provider, v)
            case None =>
              var steps := Verify(t, agent, c, v, name) + [P.RefuseCallback(t), P.Commit(t)];
              Realises(s, steps, S.Taken(tb, c), name) && P.Refusal(agent) in Do(s, steps).responses
            case Some(b) =>
              && Realises(s, Finalize(t, agent, c, v, b, name) + [P.Abort(t)], tb, name)
              && (f.session !in s.origin ==>
                    var steps := Finalize(t, agent, c, v, b, name) + [P.IssueSession(t, f.session), P.Commit(t)];
                    && Realises(s, steps, S.Issued(S.Taken(tb, c), c, b, f), name)
                    && SignsIn(s, tb, Do(s, steps), agent, c, f, name))
  {
    var subject := Some(P.Subject(v.issuer, v.subject));
    match S.Finalized(tb.bindings, c.tenant, c.provider, v)
    case None =>
      Verifies(s, tb, t, agent, c, v, name);
      RefusedWith(s, tb, Verify(t, agent, c, v, name), t, agent, c, name, subject);
    case Some(b) =>
      Finalizes(s, tb, t, agent, c, v, b, name);
      Aborted(s, tb, Finalize(t, agent, c, v, b, name), t, Tx(s, agent, c, name, Some(TakenOf(tb, c)), subject, Some(b)), name);
      if f.session !in s.origin {
        Issues(s, tb, Finalize(t, agent, c, v, b, name), t, agent, c, f, name, b, subject);
      }
  }

  // ---- the other calls ----

  lemma Alone(s: P.State, a: P.Action)
    requires P.Enabled(s, a, true)
    ensures Can(s, [a]) && Do(s, [a]) == P.Next(s, a, true)
  {
    assert Can(s, []);
    Then(s, [], a);
    assert [] + [a] == [a];
  }

  /** The steps of a begin; a start that the provider cannot serve sends no cookie and
      still commits, and one the unique key refuses is taken back. */
  function BeginSteps(put: bool, reachable: bool, t: P.TxId, agent: P.Agent, path: string, id: P.StateId, provider: string, ttl: nat)
    : seq<P.Action>
  {
    if !put then [P.StartBegin(t, agent, path), P.Abort(t)]
    else [P.StartBegin(t, agent, path)] + [P.PutCeremony(t, id, provider, ttl)]
         + (if reachable then [P.SendState(t), P.Commit(t)] else [P.Commit(t)])
  }

  /** The begin's transaction once its row is put. */
  ghost function PutTx(s: P.State, agent: P.Agent, path: string, id: P.StateId, provider: string, ttl: nat): P.Tx {
    P.Beginning(agent, path, s.now, Some((id, P.Ceremony(agent.tenant, provider, path, s.now + ttl))),
                P.SweptBy(s, agent.tenant, s.now))
  }

  /** The protocol's table after a put. */
  ghost function Stored(s: P.State, agent: P.Agent, path: string, id: P.StateId, provider: string, ttl: nat): map<P.StateId, P.Ceremony> {
    (s.ceremonies - P.SweptBy(s, agent.tenant, s.now))[id := P.Ceremony(agent.tenant, provider, path, s.now + ttl)]
  }

  lemma SweptRows(s: P.State, rows: Rows, name: Naming, tenant: Tenant)
    requires Injective(name) && s.ceremonies == Ceremonies(rows, name)
    ensures Ceremonies(Swept(rows, tenant, s.now), name) == s.ceremonies - P.SweptBy(s, tenant, s.now)
  {
    forall k | k in rows ensures name(k) in P.SweptBy(s, tenant, s.now) <==> k.0 == tenant && rows[k].expiresAt <= s.now {
      assert s.ceremonies[name(k)] == CeremonyOf(k, rows[k]);
    }
  }

  lemma AddedRow(rows: Rows, k: Key, row: Row, name: Naming)
    requires Injective(name)
    ensures Ceremonies(rows[k := row], name) == Ceremonies(rows, name)[name(k) := CeremonyOf(k, row)]
  {
  }

  lemma Begins(s: P.State, t: P.TxId, agent: P.Agent, path: string)
    requires s.txs == map[]
    ensures Can(s, [P.StartBegin(t, agent, path)])
    ensures Do(s, [P.StartBegin(t, agent, path)]) == With(s, t, P.Beginning(agent, path, s.now, None, {}))
  {
    Alone(s, P.StartBegin(t, agent, path));
  }

  lemma SameSwept(s: P.State, s': P.State, tenant: Tenant, started: nat)
    requires s'.ceremonies == s.ceremonies
    ensures P.SweptBy(s', tenant, started) == P.SweptBy(s, tenant, started)
  {
  }

  lemma PutEnabled(s: P.State, t: P.TxId, tx: P.Tx, id: P.StateId, provider: string, ttl: nat)
    requires tx.Beginning? && tx.put.None? && id !in s.begun
    ensures P.Enabled(With(s, t, tx), P.PutCeremony(t, id, provider, ttl), true)
  {
  }

  lemma PutStep(s: P.State, t: P.TxId, agent: P.Agent, path: string, id: P.StateId, provider: string, ttl: nat)
    requires id !in s.begun
    ensures P.Step(With(s, t, P.Beginning(agent, path, s.now, None, {})), P.PutCeremony(t, id, provider, ttl),
                   With(s.(begun := s.begun[id := P.Begun(agent, path)]), t, PutTx(s, agent, path, id, provider, ttl)), true)
  {
    var tx := P.Beginning(agent, path, s.now, None, {});
    PutEnabled(s, t, tx, id, provider, ttl);
    SameSwept(s, With(s, t, tx), agent.tenant, s.now);
  }

  lemma Puts(s: P.State, t: P.TxId, agent: P.Agent, path: string, id: P.StateId, provider: string, ttl: nat)
    requires s.txs == map[] && id !in s.begun
    ensures var steps := [P.StartBegin(t, agent, path)] + [P.PutCeremony(t, id, provider, ttl)];
            && Can(s, steps)
            && Do(s, steps) == With(s.(begun := s.begun[id := P.Begun(agent, path)]), t, PutTx(s, agent, path, id, provider, ttl))
  {
    Begins(s, t, agent, path);
    PutStep(s, t, agent, path, id, provider, ttl);
    Then(s, [P.StartBegin(t, agent, path)], P.PutCeremony(t, id, provider, ttl));
  }

  /** The state once the row is committed, with the cookie sent or not. */
  ghost function Begun(s: P.State, agent: P.Agent, path: string, id: P.StateId, provider: string, ttl: nat, reachable: bool): P.State {
    s.(begun := s.begun[id := P.Begun(agent, path)], ceremonies := Stored(s, agent, path, id, provider, ttl),
       responses := if reachable then s.responses + {P.StateCookie(agent, id)} else s.responses)
  }

  lemma CommittedPut(s: P.State, sent: P.State, agent: P.Agent, path: string, id: P.StateId, provider: string, ttl: nat, reachable: bool)
    requires sent == s.(begun := s.begun[id := P.Begun(agent, path)],
                        responses := if reachable then s.responses + {P.StateCookie(agent, id)} else s.responses)
    ensures P.Committed(sent, PutTx(s, agent, path, id, provider, ttl)) == Begun(s, agent, path, id, provider, ttl, reachable)
  {
    assert (s.ceremonies - P.SweptBy(s, agent.tenant, s.now)) + map[id := P.Ceremony(agent.tenant, provider, path, s.now + ttl)]
        == Stored(s, agent, path, id, provider, ttl);
  }

  lemma SendStep(s: P.State, t: P.TxId, tx: P.Tx)
    requires tx.Beginning? && tx.put.Some?
    ensures P.Step(With(s, t, tx), P.SendState(t), With(P.Respond(s, P.StateCookie(tx.agent, tx.put.value.0)), t, tx), true)
  {
  }

  lemma PutsAndCommits(s: P.State, t: P.TxId, agent: P.Agent, path: string, id: P.StateId, provider: string, ttl: nat, reachable: bool)
    requires s.txs == map[] && id !in s.begun
    ensures Can(s, BeginSteps(true, reachable, t, agent, path, id, provider, ttl))
    ensures Do(s, BeginSteps(true, reachable, t, agent, path, id, provider, ttl))
      == Begun(s, agent, path, id, provider, ttl, reachable)
  {
    Puts(s, t, agent, path, id, provider, ttl);
    var steps := [P.StartBegin(t, agent, path)] + [P.PutCeremony(t, id, provider, ttl)];
    var begun, tx := s.(begun := s.begun[id := P.Begun(agent, path)]), PutTx(s, agent, path, id, provider, ttl);
    var sent := if reachable then P.Respond(begun, P.StateCookie(agent, id)) else begun;
    Commits(sent, t, tx);
    CommittedPut(s, sent, agent, path, id, provider, ttl, reachable);
    if reachable {
      SendStep(begun, t, tx);
      ThenBoth(s, steps, With(begun, t, tx), P.SendState(t), With(sent, t, tx), P.Commit(t), P.Committed(sent, tx));
    } else {
      Then(s, steps, P.Commit(t));
    }
  }

  lemma BeginTakenBack(s: P.State, tb: S.Tables, t: P.TxId, agent: P.Agent, path: string, name: Naming)
    requires Idle(s, tb, name)
    ensures Realises(s, [P.StartBegin(t, agent, path), P.Abort(t)], tb, name)
  {
    Begins(s, t, agent, path);
    Aborted(s, tb, [P.StartBegin(t, agent, path)], t, P.Beginning(agent, path, s.now, None, {}), name);
    assert [P.StartBegin(t, agent, path)] + [P.Abort(t)] == [P.StartBegin(t, agent, path), P.Abort(t)];
  }

  lemma PutRows(rows: Rows, tenant: Tenant, l: LoginState, provider: string, ttl: nat, now: int)
    requires AfterPut(rows, tenant, provider, l, ttl, now).Some?
    ensures AfterPut(rows, tenant, provider, l, ttl, now).value
      == Swept(rows, tenant, now)[KeyOf(tenant, l.id) := RowOf(l, provider, now + ttl)]
  {
  }

  lemma StoredRows(s: P.State, rows: Rows, name: Naming, agent: P.Agent, l: LoginState, provider: string, ttl: nat, stored: Rows)
    requires Injective(name) && s.ceremonies == Ceremonies(rows, name)
    requires AfterPut(rows, agent.tenant, provider, l, ttl, s.now) == Some(stored)
    ensures Ceremonies(stored, name) == Stored(s, agent, l.returnTo, name(KeyOf(agent.tenant, l.id)), provider, ttl)
  {
    var swept := Swept(rows, agent.tenant, s.now);
    PutRows(rows, agent.tenant, l, provider, ttl, s.now);
    StoredRow(swept, name, agent.tenant, l, provider, s.now + ttl);
    SweptRows(s, rows, name, agent.tenant);
    StoredFrom(s, Ceremonies(swept, name), agent, l.returnTo, name(KeyOf(agent.tenant, l.id)), provider, ttl);
  }

  lemma StoredFrom(s: P.State, left: map<P.StateId, P.Ceremony>, agent: P.Agent, path: string, id: P.StateId, provider: string, ttl: nat)
    requires left == s.ceremonies - P.SweptBy(s, agent.tenant, s.now)
    ensures Stored(s, agent, path, id, provider, ttl) == left[id := P.Ceremony(agent.tenant, provider, path, s.now + ttl)]
  {
  }

  lemma StoredRow(rows: Rows, name: Naming, tenant: Tenant, l: LoginState, provider: string, expiresAt: int)
    requires Injective(name)
    ensures Ceremonies(rows[KeyOf(tenant, l.id) := RowOf(l, provider, expiresAt)], name)
      == Ceremonies(rows, name)[name(KeyOf(tenant, l.id)) := P.Ceremony(tenant, provider, l.returnTo, expiresAt)]
  {
    AddedRow(rows, KeyOf(tenant, l.id), RowOf(l, provider, expiresAt), name);
  }

  /** Every serial `begin_login` is a run of the protocol. */
  lemma BeginIsRealised(s: P.State, tb: S.Tables, t: P.TxId, agent: P.Agent, provider: string, l: LoginState, ttl: nat,
                        reachable: bool, name: Naming)
    requires Idle(s, tb, name) && name(KeyOf(agent.tenant, l.id)) !in s.begun
    ensures var put := AfterPut(tb.ceremonies, agent.tenant, provider, l, ttl, s.now);
            var id := name(KeyOf(agent.tenant, l.id));
            var steps := BeginSteps(put.Some?, reachable, t, agent, l.returnTo, id, provider, ttl);
            && Realises(s, steps, S.Serve(tb, S.Begin(agent.tenant, provider, l, ttl, s.now)), name)
            && (put.Some? && reachable ==> P.StateCookie(agent, id) in Do(s, steps).responses)
  {
    if AfterPut(tb.ceremonies, agent.tenant, provider, l, ttl, s.now).None? {
      BeginTakenBack(s, tb, t, agent, l.returnTo, name);
    } else {
      PutsAndCommits(s, t, agent, l.returnTo, name(KeyOf(agent.tenant, l.id)), provider, ttl, reachable);
      StoredRows(s, tb.ceremonies, name, agent, l, provider, ttl,
                 AfterPut(tb.ceremonies, agent.tenant, provider, l, ttl, s.now).value);
    }
  }

  // ---- disables and rebinds ----

  function AdminTx(tenant: Tenant, b: P.BindingId, activate: bool, locked: bool): P.Tx {
    P.Administering(tenant, b, activate, locked, false, {})
  }

  function AdminSteps(t: P.TxId, tenant: Tenant, b: P.BindingId, activate: bool): seq<P.Action> {
    [P.StartAdmin(t, tenant, b, activate)] + [P.LockAdmin(t)] + [P.ApplyAdmin(t), P.Commit(t)]
  }

  function Touched(s: P.State, b: P.BindingId, activate: bool): set<P.SessionId> {
    if activate then {} else P.LiveSessionsOf(s, b)
  }

  lemma LockStep(s: P.State, t: P.TxId, tenant: Tenant, b: P.BindingId, activate: bool)
    requires b in s.bindings && s.bindings[b].tenant == tenant
    ensures P.Step(With(s, t, AdminTx(tenant, b, activate, false)), P.LockAdmin(t), With(s, t, AdminTx(tenant, b, activate, true)), true)
  {
  }

  lemma ApplyStep(s: P.State, t: P.TxId, tenant: Tenant, b: P.BindingId, activate: bool)
    ensures P.Step(With(s, t, AdminTx(tenant, b, activate, true)), P.ApplyAdmin(t),
                   With(s, t, P.Administering(tenant, b, activate, true, true, Touched(s, b, activate))), true)
  {
    assert P.LiveSessionsOf(With(s, t, AdminTx(tenant, b, activate, true)), b) == P.LiveSessionsOf(s, b);
  }

  lemma Administers(s: P.State, t: P.TxId, tenant: Tenant, b: P.BindingId, activate: bool)
    requires s.txs == map[] && b in s.bindings && s.bindings[b].tenant == tenant
    ensures Can(s, AdminSteps(t, tenant, b, activate))
    ensures Do(s, AdminSteps(t, tenant, b, activate))
      == s.(bindings := s.bindings[b := s.bindings[b].(active := activate)], sessions := P.Revoked(s.sessions, Touched(s, b, activate)))
  {
    var start, tx := P.StartAdmin(t, tenant, b, activate), P.Administering(tenant, b, activate, true, true, Touched(s, b, activate));
    var locked := With(s, t, AdminTx(tenant, b, activate, true));
    Alone(s, start);
    LockStep(s, t, tenant, b, activate);
    Then(s, [start], P.LockAdmin(t));
    ApplyStep(s, t, tenant, b, activate);
    Commits(s, t, tx);
    ThenBoth(s, [start] + [P.LockAdmin(t)], locked, P.ApplyAdmin(t), With(s, t, tx), P.Commit(t), P.Committed(s, tx));
  }

  lemma EndedSessions(s: P.State, sessions: map<S.Id, S.AuthSession>, after: map<S.Id, S.AuthSession>, b: S.Id)
    requires s.sessions == Sessions(sessions) && after.Keys == sessions.Keys
    requires forall x :: x in sessions ==>
               after[x] == if sessions[x].binding == b then sessions[x].(revoked := true) else sessions[x]
    ensures Sessions(after) == P.Revoked(s.sessions, P.LiveSessionsOf(s, b))
  {
    forall x | x in sessions ensures SessionOf(after[x]) == P.Revoked(s.sessions, P.LiveSessionsOf(s, b))[x] {
      assert s.sessions[x] == SessionOf(sessions[x]);
    }
  }

  lemma ChangedBinding(bindings: map<S.Id, S.Binding>, b: S.Id, row: S.Binding)
    ensures Bindings(bindings[b := row]) == Bindings(bindings)[b := BindingOf(row)]
  {
  }

  lemma NothingRevoked(sessions: map<P.SessionId, P.Session>)
    ensures P.Revoked(sessions, {}) == sessions
  {
  }

  /** The tables with one binding's row and the sessions changed are still those of the state. */
  lemma IdleWith(s: P.State, tb: S.Tables, name: Naming, b: S.Id, row: S.Binding, sessions: map<S.Id, S.AuthSession>, s': P.State)
    requires Idle(s, tb, name)
    requires s' == s.(bindings := s.bindings[b := BindingOf(row)], sessions := Sessions(sessions))
    ensures Idle(s', tb.(bindings := tb.bindings[b := row], sessions := sessions), name)
  {
    ChangedBinding(tb.bindings, b, row);
  }

  lemma AbstractBinding(bindings: map<S.Id, S.Binding>, b: S.Id, active: bool)
    requires b in bindings
    ensures b in Bindings(bindings) && Bindings(bindings)[b].tenant == bindings[b].tenant
    ensures BindingOf(bindings[b].(active := active)) == Bindings(bindings)[b].(active := active)
  {
  }

  /** An administrative change of one binding, and what it leaves. */
  lemma AdminIsRealised(s: P.State, tb: S.Tables, t: P.TxId, b: S.Id, activate: bool, row: S.Binding, name: Naming,
                        sessions: map<S.Id, S.AuthSession>)
    requires Idle(s, tb, name) && b in tb.bindings && row == tb.bindings[b].(active := activate)
    requires Sessions(sessions) == P.Revoked(s.sessions, Touched(s, b, activate))
    ensures Realises(s, AdminSteps(t, row.tenant, b, activate), tb.(bindings := tb.bindings[b := row], sessions := sessions), name)
  {
    AbstractBinding(tb.bindings, b, activate);
    Administers(s, t, row.tenant, b, activate);
    IdleWith(s, tb, name, b, row, sessions, Do(s, AdminSteps(t, row.tenant, b, activate)));
  }

  /** Every serial disable of a binding that is there is a run of the protocol. */
  lemma DisableIsRealised(s: P.State, tb: S.Tables, t: P.TxId, b: S.Id, name: Naming)
    requires Idle(s, tb, name) && b in tb.bindings
    ensures Realises(s, AdminSteps(t, tb.bindings[b].tenant, b, false), S.Disabled(tb, b), name)
  {
    var after := S.Disabled(tb, b);
    EndedSessions(s, tb.sessions, after.sessions, b);
    AdminIsRealised(s, tb, t, b, false, tb.bindings[b].(active := false), name, after.sessions);
  }

  /** So is reactivating a binding. */
  lemma RebindIsRealised(s: P.State, tb: S.Tables, t: P.TxId, b: S.Id, row: S.Binding, name: Naming)
    requires Idle(s, tb, name) && b in tb.bindings && row == tb.bindings[b].(active := true)
    ensures Realises(s, AdminSteps(t, row.tenant, b, true), S.Serve(tb, S.Bind(b, row)), name)
  {
    Untouched(s, b);
    BindServes(tb, b, row);
    AdminIsRealised(s, tb, t, b, true, row, name, tb.sessions);
  }

  lemma Untouched(s: P.State, b: P.BindingId)
    ensures P.Revoked(s.sessions, Touched(s, b, true)) == s.sessions
  {
    NothingRevoked(s.sessions);
  }

  lemma BindServes(tb: S.Tables, b: S.Id, row: S.Binding)
    ensures S.Serve(tb, S.Bind(b, row)) == tb.(bindings := tb.bindings[b := row], sessions := tb.sessions)
  {
  }

  lemma UnboundSubject(tb: S.Tables, b: S.Id, row: S.Binding)
    requires S.FitsKeys(tb, S.Bind(b, row)) && b !in tb.bindings
    ensures forall c :: c in Bindings(tb.bindings) ==>
              (Bindings(tb.bindings)[c].tenant, Bindings(tb.bindings)[c].provider, Bindings(tb.bindings)[c].subject)
              != (row.tenant, row.provider, BindingOf(row).subject)
  {
  }

  /** So is binding an unbound subject. */
  lemma BindIsRealised(s: P.State, tb: S.Tables, b: S.Id, row: S.Binding, name: Naming)
    requires Idle(s, tb, name) && row.active && b !in tb.bindings && S.FitsKeys(tb, S.Bind(b, row))
    ensures Realises(s, [P.AddBinding(b, BindingOf(row))], S.Serve(tb, S.Bind(b, row)), name)
  {
    UnboundSubject(tb, b, row);
    Alone(s, P.AddBinding(b, BindingOf(row)));
    BindServes(tb, b, row);
    IdleWith(s, tb, name, b, row, tb.sessions, Do(s, [P.AddBinding(b, BindingOf(row))]));
  }

  // ---- logout ----

  function LogoutSteps(t: P.TxId, agent: P.Agent): seq<P.Action> {
    [P.StartLogout(t, agent)] + [P.FindSession(t)] + [P.AnswerLogout(t), P.Commit(t)]
  }

  /** The session a logout finds to revoke. */
  function Found(s: P.State, agent: P.Agent, sid: P.SessionId): set<P.SessionId> {
    if sid in s.sessions && s.sessions[sid].tenant == agent.tenant then {sid} else {}
  }

  lemma FindStep(s: P.State, t: P.TxId, agent: P.Agent, sid: P.SessionId)
    ensures P.Step(With(s, t, P.Leaving(agent, sid, {})), P.FindSession(t), With(s, t, P.Leaving(agent, sid, Found(s, agent, sid))), true)
  {
  }

  lemma AnswerStep(s: P.State, t: P.TxId, tx: P.Tx)
    requires tx.Leaving?
    ensures P.Step(With(s, t, tx), P.AnswerLogout(t), With(P.Respond(s, P.SignedOut(tx.agent)), t, tx), true)
  {
  }

  lemma Leaves(s: P.State, t: P.TxId, agent: P.Agent)
    requires s.txs == map[] && agent in s.sessionJar
    ensures Can(s, LogoutSteps(t, agent))
    ensures Do(s, LogoutSteps(t, agent))
      == P.Respond(s, P.SignedOut(agent)).(sessions := P.Revoked(s.sessions, Found(s, agent, s.sessionJar[agent])))
  {
    var sid := s.sessionJar[agent];
    var tx, sent := P.Leaving(agent, sid, Found(s, agent, sid)), P.Respond(s, P.SignedOut(agent));
    Alone(s, P.StartLogout(t, agent));
    FindStep(s, t, agent, sid);
    Then(s, [P.StartLogout(t, agent)], P.FindSession(t));
    AnswerStep(s, t, tx);
    Commits(sent, t, tx);
    ThenBoth(s, [P.StartLogout(t, agent)] + [P.FindSession(t)], With(s, t, tx), P.AnswerLogout(t), With(sent, t, tx), P.Commit(t),
             P.Committed(sent, tx));
  }

  /** The browser's session cookie is this token: it names the one session, if any,
      stored under the token's hash. */
  ghost predicate HoldsToken(s: P.State, tb: S.Tables, agent: P.Agent, token: string) {
    && agent in s.sessionJar
    && forall x :: x in tb.sessions ==> (tb.sessions[x].tokenHash == S.HashOf(token) <==> x == s.sessionJar[agent])
  }

  lemma LeftSession(sessions: map<S.Id, S.AuthSession>, sid: S.Id)
    requires sid in sessions
    ensures Sessions(sessions[sid := sessions[sid].(revoked := true)]) == P.Revoked(Sessions(sessions), {sid})
  {
  }

  lemma AlreadyRevoked(sessions: map<P.SessionId, P.Session>, sid: P.SessionId)
    requires sid in sessions ==> sessions[sid].revoked
    ensures P.Revoked(sessions, {sid}) == sessions
  {
  }

  lemma LeftSessions(s: P.State, tb: S.Tables, agent: P.Agent, party: S.Id, token: string, name: Naming)
    requires Idle(s, tb, name) && HoldsToken(s, tb, agent, token)
    ensures S.Ended(tb, agent.tenant, party, token)
      == tb.(sessions := S.Ended(tb, agent.tenant, party, token).sessions, audit := S.Ended(tb, agent.tenant, party, token).audit)
    ensures Sessions(S.Ended(tb, agent.tenant, party, token).sessions)
      == P.Revoked(s.sessions, Found(s, agent, s.sessionJar[agent]))
  {
    var sid := s.sessionJar[agent];
    assert forall x :: S.Revocable(tb, agent.tenant, token, x) ==> x == sid;
    assert sid in tb.sessions ==> s.sessions[sid] == SessionOf(tb.sessions[sid]);
    if S.Revocable(tb, agent.tenant, token, sid) {
      LeftSession(tb.sessions, sid);
    } else {
      NothingRevoked(s.sessions);
      if Found(s, agent, sid) != {} { AlreadyRevoked(s.sessions, sid); }
    }
  }

  /** Every serial `end_session` is a run of the protocol. */
  lemma EndIsRealised(s: P.State, tb: S.Tables, t: P.TxId, agent: P.Agent, party: S.Id, token: string, name: Naming)
    requires Idle(s, tb, name) && HoldsToken(s, tb, agent, token)
    ensures Realises(s, LogoutSteps(t, agent), S.Ended(tb, agent.tenant, party, token), name)
    ensures P.SignedOut(agent) in Do(s, LogoutSteps(t, agent)).responses
  {
    Leaves(s, t, agent);
    LeftSessions(s, tb, agent, party, token, name);
  }
}
