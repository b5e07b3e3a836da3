/** `begin_login`, `complete_login` and `end_session` as one transaction each over the
    ceremony table, the bindings, the sessions and the audit trail, and the routes
    that tie them to one browser's cookies. */
module LoginService {
  import opened Text
  import opened CeremonyStore
  import Members

  type Id = Members.Id

  type Binding = Members.Binding

  /** `hash_token`: only the hash is stored, and no two tokens share one. */
  datatype TokenHash = HashOf(token: string)

  datatype AuthSession = AuthSession(tenant: Tenant, party: Id, tokenHash: TokenHash, expiresAt: int, binding: Id, revoked: bool)

  datatype Event =
    | LoginSucceeded(tenant: Tenant, party: Id, session: Id, binding: Id)
    | Logout(tenant: Tenant, party: Id, session: Id)

  datatype Tables = Tables(ceremonies: Rows, bindings: map<Id, Binding>, sessions: map<Id, AuthSession>, audit: seq<Event>)

  datatype Verified = Verified(issuer: string, subject: string)

  /** The relying party's check of a code against a taken ceremony, whatever it decides. */
  type Verifier = (string, LoginState) -> Option<Verified>

  datatype Callback = Callback(tenant: Tenant, provider: string, state: string, stored: Option<string>, code: string, now: int)

  /** What `issue` draws: a row id and a token with its expiry. */
  datatype Fresh = Fresh(session: Id, token: string, expiresAt: int)

  /** How a begin ends; a unique key's refusal is an exception that leaves the route. */
  datatype Start = Started | Unreachable | Duplicate

  datatype Outcome =
    | Refused
    | Violation
    | Completed(party: Id, session: Id, binding: Id, returnPath: string)

  predicate Resolves(bindings: map<Id, Binding>, t: Tenant, provider: string, v: Verified, b: Id) {
    && b in bindings && bindings[b].tenant == t && bindings[b].provider == provider
    && bindings[b].issuer == v.issuer && bindings[b].subject == v.subject
  }

  /** The schema's unique keys on subjects and token hashes. */
  ghost predicate Keyed(tb: Tables) {
    && (forall b, c :: b in tb.bindings && c in tb.bindings && b != c ==>
          (tb.bindings[b].tenant, tb.bindings[b].provider, tb.bindings[b].issuer, tb.bindings[b].subject)
          != (tb.bindings[c].tenant, tb.bindings[c].provider, tb.bindings[c].issuer, tb.bindings[c].subject))
    && (forall s, u :: s in tb.sessions && u in tb.sessions && s != u ==> tb.sessions[s].tokenHash != tb.sessions[u].tokenHash)
  }

  /** `finalize_external_login`: the active binding of this subject, if there is one. */
  ghost function Finalized(bindings: map<Id, Binding>, t: Tenant, provider: string, v: Verified): (r: Option<Id>)
    ensures r.Some? ==> Resolves(bindings, t, provider, v, r.value) && bindings[r.value].active
    ensures r.None? ==> forall b :: Resolves(bindings, t, provider, v, b) ==> !bindings[b].active
  {
    if b :| Resolves(bindings, t, provider, v, b) && bindings[b].active then Some(b) else None
  }

  predicate TokenUsed(sessions: map<Id, AuthSession>, token: string) {
    exists s :: s in sessions && sessions[s].tokenHash == HashOf(token)
  }

  predicate PairMatches(c: Callback) { c.stored.Some? && c.stored.value != "" && c.stored.value == c.state }

  function Issued(tb: Tables, c: Callback, b: Id, f: Fresh): Tables
    requires b in tb.bindings
  {
    var party := tb.bindings[b].party;
    tb.(sessions := tb.sessions[f.session := AuthSession(c.tenant, party, HashOf(f.token), f.expiresAt, b, false)],
        audit := tb.audit + [LoginSucceeded(c.tenant, party, f.session, b)])
  }

  /** The tables once the pair has matched and the ceremony is taken. */
  function Taken(tb: Tables, c: Callback): Tables {
    tb.(ceremonies := AfterTake(tb.ceremonies, c.tenant, c.state, c.now))
  }

  /** `complete_login`, refusals committed, a key's violation rolled back. */
  ghost function Complete(tb: Tables, c: Callback, verify: Verifier, f: Fresh): (Outcome, Tables) {
    if !PairMatches(c) then (Refused, tb)
    else match TakeResult(tb.ceremonies, c.tenant, c.provider, c.state, c.now)
      case None => (Refused, Taken(tb, c))
      case Some(ceremony) =>
        match verify(c.code, ceremony)
        case None => (Refused, Taken(tb, c))
        case Some(v) =>
          match Finalized(tb.bindings, c.tenant, c.provider, v)
          case None => (Refused, Taken(tb, c))
          case Some(b) =>
            if f.session in tb.sessions || TokenUsed(tb.sessions, f.token) then (Violation, tb)
            else (Completed(tb.bindings[b].party, f.session, b, ceremony.returnTo), Issued(Taken(tb, c), c, b, f))
  }

  predicate Revocable(tb: Tables, t: Tenant, token: string, s: Id) {
    s in tb.sessions && tb.sessions[s].tenant == t && tb.sessions[s].tokenHash == HashOf(token) && !tb.sessions[s].revoked
  }

  ghost function Ended(tb: Tables, t: Tenant, party: Id, token: string): Tables {
    if s :| Revocable(tb, t, token, s) then EndedOne(tb, t, party, s) else tb
  }

  function EndedOne(tb: Tables, t: Tenant, party: Id, s: Id): Tables
    requires s in tb.sessions
  {
    tb.(sessions := tb.sessions[s := tb.sessions[s].(revoked := true)], audit := tb.audit + [Logout(t, party, s)])
  }

  /** `disable_external_identity_binding`: the row stays, its sessions are revoked. */
  function Disabled(tb: Tables, b: Id): Tables {
    if b !in tb.bindings then tb
    else tb.(bindings := tb.bindings[b := tb.bindings[b].(active := false)],
             sessions := map s | s in tb.sessions ::
               if tb.sessions[s].binding == b then tb.sessions[s].(revoked := true) else tb.sessions[s])
  }

  // ---- the service ----

  class Database {
    const ceremonies: CeremonyTable
    var bindings: map<Id, Binding>
    var sessions: map<Id, AuthSession>
    var audit: seq<Event>

    constructor ()
      ensures View() == Tables(map[], map[], map[], []) && fresh(ceremonies)
    {
      ceremonies := new CeremonyTable();
      bindings, sessions, audit := map[], map[], [];
    }

    function View(): Tables
      reads this, ceremonies
    {
      Tables(ceremonies.rows, bindings, sessions, audit)
    }

    /** `begin_login`: the client puts the ceremony before it knows whether the
        provider can be reached; an unreachable one is a refusal and the row stays. */
    method BeginLogin(tenant: Tenant, provider: string, s: LoginState, reachable: bool, ttl: int, now: int) returns (r: Start)
      modifies ceremonies
      ensures var put := AfterPut(old(ceremonies.rows), tenant, provider, s, ttl, now);
              && ceremonies.rows == put.GetOr(old(ceremonies.rows))
              && (r == Duplicate <==> put.None?) && (r == Started <==> put.Some? && reachable)
    {
      var store := new PostgresStateStore(ceremonies, tenant, provider);
      var ok := store.Put(s, ttl, now);
      r := if !ok then Duplicate else if reachable then Started else Unreachable;
    }

    method FinalizeLogin(t: Tenant, provider: string, v: Verified) returns (r: Option<Id>)
      requires Keyed(View())
      ensures r == Finalized(bindings, t, provider, v)
    {
      if b :| b in bindings && Resolves(bindings, t, provider, v, b) && bindings[b].active { return Some(b); }
      return None;
    }

    method CompleteLogin(c: Callback, verify: Verifier, f: Fresh) returns (r: Outcome)
      requires Keyed(View())
      modifies this, ceremonies
      ensures (r, View()) == Complete(old(View()), c, verify, f)
    {
      if !PairMatches(c) { return Refused; }
      var before := ceremonies.rows;
      var store := new PostgresStateStore(ceremonies, c.tenant, c.provider);
      var taken := store.Take(c.state, c.now);
      if taken.None? { return Refused; }
      var verified := verify(c.code, taken.value);
      if verified.None? { return Refused; }
      var bound := FinalizeLogin(c.tenant, c.provider, verified.value);
      if bound.None? { return Refused; }
      var b := bound.value;
      if f.session in sessions || TokenUsed(sessions, f.token) {
        ceremonies.rows := before;
        return Violation;
      }
      sessions := sessions[f.session := AuthSession(c.tenant, bindings[b].party, HashOf(f.token), f.expiresAt, b, false)];
      audit := audit + [LoginSucceeded(c.tenant, bindings[b].party, f.session, b)];
      return Completed(bindings[b].party, f.session, b, taken.value.returnTo);
    }

    method EndSession(t: Tenant, party: Id, token: string)
      requires Keyed(View())
      modifies this
      ensures View() == Ended(old(View()), t, party, token)
    {
      if s :| s in sessions && Revocable(View(), t, token, s) {
        OneRevocable(View(), t, token, s);
        sessions := sessions[s := sessions[s].(revoked := true)];
        audit := audit + [Logout(t, party, s)];
      }
    }

    method DisableBinding(b: Id)
      modifies this
      ensures View() == Disabled(old(View()), b)
    {
      if b !in bindings { return; }
      bindings := bindings[b := bindings[b].(active := false)];
      sessions := map s | s in sessions :: if sessions[s].binding == b then sessions[s].(revoked := true) else sessions[s];
    }
  }

  /** What a callback leaves, by how it ends. Completion means that the pair matched, the
      tenant's own row was there, unexpired and of this provider, exactly that row is
      gone, an active binding of the tenant answered, one session of its party is new,
      and the browser goes to the row's own return path. Any other outcome leaves
      bindings, sessions and audit alone, and takes at most that row; a mismatched pair
      or a violated key changes nothing. */
  lemma CompletedMeans(tb: Tables, c: Callback, verify: Verifier, f: Fresh)
    ensures var (outcome, after) := Complete(tb, c, verify, f);
            var key := KeyOf(c.tenant, c.state);
            && after.bindings == tb.bindings
            && (!PairMatches(c) ==> outcome.Refused?)
            && (!PairMatches(c) || outcome.Violation? ==> after == tb)
            && (!outcome.Completed? ==> after.sessions == tb.sessions && after.audit == tb.audit)
            && (outcome.Refused? && PairMatches(c) ==>
                  after.ceremonies == if Consumable(tb.ceremonies, c.tenant, c.state, c.now) then tb.ceremonies - {key} else tb.ceremonies)
    ensures var (outcome, after) := Complete(tb, c, verify, f);
            outcome.Completed? ==> CompletedAs(tb, c, f, outcome, after)
  {
  }

  ghost predicate CompletedAs(tb: Tables, c: Callback, f: Fresh, outcome: Outcome, after: Tables)
    requires outcome.Completed?
  {
    var key := KeyOf(c.tenant, c.state);
    && PairMatches(c) && key in tb.ceremonies
    && tb.ceremonies[key].expiresAt > c.now && tb.ceremonies[key].provider == c.provider
    && outcome.returnPath == tb.ceremonies[key].returnTo && after.ceremonies == tb.ceremonies - {key}
    && outcome.binding in tb.bindings && tb.bindings[outcome.binding].active && tb.bindings[outcome.binding].tenant == c.tenant
    && tb.bindings[outcome.binding].provider == c.provider && outcome.party == tb.bindings[outcome.binding].party
    && outcome.session == f.session && f.session !in tb.sessions && !TokenUsed(tb.sessions, f.token)
    && after.sessions == tb.sessions[f.session := AuthSession(c.tenant, outcome.party, HashOf(f.token), f.expiresAt, outcome.binding, false)]
    && after.audit == tb.audit + [LoginSucceeded(c.tenant, outcome.party, f.session, outcome.binding)]
  }

  /** The callback is one a login can be completed from: the browser's cookie and the
      query carry one state, the tenant's row under it is live and of this provider, the
      code verifies against exactly that row, and the verified subject's binding there
      is active. */
  ghost predicate Honest(tb: Tables, c: Callback, verify: Verifier, v: Verified, b: Id) {
    var key := KeyOf(c.tenant, c.state);
    && c.stored == Some(c.state) && c.state != ""
    && key in tb.ceremonies && tb.ceremonies[key].expiresAt > c.now && tb.ceremonies[key].provider == c.provider
    && (var row := tb.ceremonies[key];
        verify(c.code, LoginState(c.state, row.verifier, row.nonce, row.redirectUri, row.returnTo, row.issuedAt)) == Some(v))
    && b in tb.bindings
    && tb.bindings[b] == Members.Binding(c.tenant, tb.bindings[b].party, c.provider, v.issuer, v.subject, true)
  }

  /** The row id and the token are not in use. */
  ghost predicate Unused(tb: Tables, f: Fresh) {
    f.session !in tb.sessions && forall s :: s in tb.sessions ==> tb.sessions[s].tokenHash != HashOf(f.token)
  }

  lemma ResolvedOnce(tb: Tables, t: Tenant, provider: string, v: Verified, b: Id)
    requires Keyed(tb) && Resolves(tb.bindings, t, provider, v, b) && tb.bindings[b].active
    ensures Finalized(tb.bindings, t, provider, v) == Some(b)
  {
  }

  /** Which callbacks complete. An honest one does, with its row's own return path; with
      a used id or token it is a violation; and no other callback does either. */
  lemma CompletesExactly(tb: Tables, c: Callback, verify: Verifier, f: Fresh)
    requires Keyed(tb)
    ensures var outcome := Complete(tb, c, verify, f).0;
            && (forall v, b :: Honest(tb, c, verify, v, b) ==>
                  outcome == if Unused(tb, f)
                             then Completed(tb.bindings[b].party, f.session, b, tb.ceremonies[KeyOf(c.tenant, c.state)].returnTo)
                             else Violation)
            && (!outcome.Refused? ==> exists v, b :: Honest(tb, c, verify, v, b))
  {
    var outcome := Complete(tb, c, verify, f).0;
    forall v, b | Honest(tb, c, verify, v, b)
      ensures outcome == if Unused(tb, f)
                         then Completed(tb.bindings[b].party, f.session, b, tb.ceremonies[KeyOf(c.tenant, c.state)].returnTo)
                         else Violation
    {
      ResolvedOnce(tb, c.tenant, c.provider, v, b);
    }
    if !outcome.Refused? {
      var v := verify(c.code, TakeResult(tb.ceremonies, c.tenant, c.provider, c.state, c.now).value).value;
      var b := Finalized(tb.bindings, c.tenant, c.provider, v).value;
      assert Honest(tb, c, verify, v, b);
    }
  }

  /** A session a logout can end: the tenant's, stored under this token's hash, live. */
  predicate CanEnd(tb: Tables, t: Tenant, token: string, s: Id) {
    s in tb.sessions && tb.sessions[s] == AuthSession(t, tb.sessions[s].party, HashOf(token), tb.sessions[s].expiresAt, tb.sessions[s].binding, false)
  }

  /** What a logout does, exactly: it revokes the one session it can end and records
      that, with who ended it; and without one it does nothing. */
  lemma EndsExactly(tb: Tables, t: Tenant, party: Id, token: string)
    requires Keyed(tb)
    ensures forall s :: CanEnd(tb, t, token, s) ==>
              Ended(tb, t, party, token)
              == tb.(sessions := tb.sessions[s := tb.sessions[s].(revoked := true)], audit := tb.audit + [Logout(t, party, s)])
    ensures (forall s :: !CanEnd(tb, t, token, s)) ==> Ended(tb, t, party, token) == tb
  {
    forall s | CanEnd(tb, t, token, s)
      ensures Ended(tb, t, party, token)
              == tb.(sessions := tb.sessions[s := tb.sessions[s].(revoked := true)], audit := tb.audit + [Logout(t, party, s)])
    {
      assert Revocable(tb, t, token, s);
      OneRevocable(tb, t, token, s);
      assert Ended(tb, t, party, token) == EndedOne(tb, t, party, s);
    }
    forall s | Revocable(tb, t, token, s) ensures CanEnd(tb, t, token, s) {}
  }

  /** A begin that could not be started keeps its row: the route answers 502 and the
      request's transaction commits what `PostLogin` says it stores. */
  lemma RefusedBeginKeepsItsRow(rows: Rows, tenant: Tenant, provider: string, s: LoginState, ttl: int, now: int)
    requires AfterPut(rows, tenant, provider, s, ttl, now).Some?
    ensures KeyOf(tenant, s.id) in AfterPut(rows, tenant, provider, s, ttl, now).value
    ensures KeyOf(tenant, s.id) !in Swept(rows, tenant, now)
  {
  }

  /** A disable keeps every row: the binding itself is deactivated, the sessions that
      change are exactly the live ones stamped with it, and nothing else does. */
  lemma DisabledMeans(tb: Tables, b: Id)
    ensures var after := Disabled(tb, b);
            && after.ceremonies == tb.ceremonies && after.audit == tb.audit
            && after.bindings.Keys == tb.bindings.Keys && after.sessions.Keys == tb.sessions.Keys
            && (b in tb.bindings ==> after.bindings[b] == tb.bindings[b].(active := false))
            && (forall c :: c in tb.bindings && c != b ==> after.bindings[c] == tb.bindings[c])
            && (forall s :: s in tb.sessions ==>
                  && after.sessions[s] == tb.sessions[s].(revoked := after.sessions[s].revoked)
                  && (after.sessions[s] != tb.sessions[s]
                      <==> b in tb.bindings && tb.sessions[s].binding == b && !tb.sessions[s].revoked))
  {
  }

  lemma OneRevocable(tb: Tables, t: Tenant, token: string, s: Id)
    requires Keyed(tb) && Revocable(tb, t, token, s)
    ensures forall u :: Revocable(tb, t, token, u) ==> u == s
  {
  }

  // ---- one browser and its two cookies ----

  class Browser {
    var state: Option<string>
    var session: Option<string>

    constructor ()
      ensures state == None && session == None
    {
      state, session := None, None;
    }
  }

  datatype Page = Page(status: nat) | Redirect(path: string)

  /** `POST /login`. Only a refusal is answered as one; an exception ends as a 500 that
      carries no cookie. */
  method PostLogin(db: Database, browser: Browser, tenant: Tenant, provider: string, s: LoginState, reachable: bool,
                   ttl: int, now: int, url: string) returns (r: Page)
    modifies db.ceremonies, browser
    ensures var put := AfterPut(old(db.ceremonies.rows), tenant, provider, s, ttl, now);
            && db.ceremonies.rows == put.GetOr(old(db.ceremonies.rows))
            && browser.session == old(browser.session)
            && browser.state == (if put.Some? && reachable then Some(s.id) else old(browser.state))
            && r == (if put.None? then Page(500) else if reachable then Redirect(url) else Page(502))
  {
    var start := db.BeginLogin(tenant, provider, s, reachable, ttl, now);
    if start == Duplicate { return Page(500); }
    if start == Unreachable { return Page(502); }
    browser.state := Some(s.id);
    return Redirect(url);
  }

  /** `GET /login/callback`. Every exit through the route clears the state cookie; only a
      completed login sets a session cookie, and it redirects to the ceremony's own
      return path. A unique key's violation leaves the route as an exception: nothing is
      stored and neither cookie moves. */
  method GetCallback(db: Database, browser: Browser, tenant: Tenant, provider: string, code: string, state: string,
                     error: string, verify: Verifier, f: Fresh, now: int) returns (r: Page)
    requires Keyed(db.View())
    modifies db, db.ceremonies, browser
    ensures var c := Callback(tenant, provider, state, old(browser.state), code, now);
            var (outcome, after) := Complete(old(db.View()), c, verify, f);
            if error != "" || code == "" || state == "" then
              db.View() == old(db.View()) && browser.session == old(browser.session) && browser.state == None
              && r == (if error != "" then Page(403) else Page(400))
            else
              && db.View() == after
              && browser.state == (if outcome.Violation? then old(browser.state) else None)
              && browser.session == (if outcome.Completed? then Some(f.token) else old(browser.session))
              && r == (if outcome.Completed? then Redirect(outcome.returnPath)
                       else if outcome.Violation? then Page(500) else Page(403))
  {
    if error != "" {
      r := Page(403);
    } else if code == "" || state == "" {
      r := Page(400);
    } else {
      var completed := db.CompleteLogin(Callback(tenant, provider, state, browser.state, code, now), verify, f);
      if completed.Violation? { return Page(500); }
      if completed.Refused? {
        r := Page(403);
      } else {
        r := Redirect(completed.returnPath);
        browser.session := Some(f.token);
      }
    }
    browser.state := None;
  }

  /** `POST /logout`, for a member the guard has authenticated. */
  method PostLogout(db: Database, browser: Browser, tenant: Tenant, member: Id) returns (r: Page)
    requires Keyed(db.View())
    modifies db, browser
    ensures browser.session == None && browser.state == old(browser.state) && r == Redirect("/login")
    ensures db.View() == if old(browser.session).Some? && old(browser.session).value != ""
                         then Ended(old(db.View()), tenant, member, old(browser.session).value) else old(db.View())
  {
    if browser.session.Some? && browser.session.value != "" {
      db.EndSession(tenant, member, browser.session.value);
    }
    browser.session := None;
    return Redirect("/login");
  }

  // ---- the audit trail ----

  /** A login event is a session's, with its tenant, party and binding. */
  predicate Attests(tb: Tables, e: Event, s: Id) {
    && e.LoginSucceeded? && e.session == s && s in tb.sessions
    && tb.sessions[s].tenant == e.tenant && tb.sessions[s].party == e.party && tb.sessions[s].binding == e.binding
  }

  ghost predicate LoginsAttested(tb: Tables) {
    && (forall e :: e in tb.audit && e.LoginSucceeded? ==> Attests(tb, e, e.session))
    && (forall s :: s in tb.sessions ==> exists e :: e in tb.audit && Attests(tb, e, s))
  }

  ghost predicate LogoutsAttested(tb: Tables) {
    forall e :: e in tb.audit && e.Logout? ==> e.session in tb.sessions && tb.sessions[e.session].revoked
                                               && tb.sessions[e.session].tenant == e.tenant
  }

  ghost predicate NoRepeats(audit: seq<Event>) {
    forall i, j :: 0 <= i < j < |audit| && audit[i].LoginSucceeded? == audit[j].LoginSucceeded? ==>
      audit[i].session != audit[j].session
  }

  /** Login events and sessions correspond one to one; logout events name distinct
      sessions, each revoked. */
  ghost predicate Attested(tb: Tables) {
    LoginsAttested(tb) && LogoutsAttested(tb) && NoRepeats(tb.audit)
  }

  lemma IssuedLogins(tb: Tables, c: Callback, b: Id, f: Fresh)
    requires LoginsAttested(tb) && b in tb.bindings && f.session !in tb.sessions
    ensures LoginsAttested(Issued(tb, c, b, f))
  {
    var after := Issued(tb, c, b, f);
    var event := LoginSucceeded(c.tenant, tb.bindings[b].party, f.session, b);
    forall s | s in after.sessions ensures exists e :: e in after.audit && Attests(after, e, s) {
      if s == f.session {
        assert event in after.audit && Attests(after, event, s);
      } else {
        var e :| e in tb.audit && Attests(tb, e, s);
        assert e in after.audit && Attests(after, e, s);
      }
    }
    assert forall e :: e in after.audit ==> e in tb.audit || e == event;
  }

  lemma OneMoreEvent(audit: seq<Event>, event: Event)
    requires NoRepeats(audit)
    requires forall e :: e in audit && e.LoginSucceeded? == event.LoginSucceeded? ==> e.session != event.session
    ensures NoRepeats(audit + [event])
  {
    assert forall i :: 0 <= i < |audit| ==> audit[i] in audit;
  }

  lemma IssuedAttested(tb: Tables, c: Callback, b: Id, f: Fresh)
    requires Attested(tb) && b in tb.bindings && f.session !in tb.sessions
    ensures Attested(Issued(tb, c, b, f))
  {
    IssuedLogins(tb, c, b, f);
    OneMoreEvent(tb.audit, LoginSucceeded(c.tenant, tb.bindings[b].party, f.session, b));
  }

  lemma OneMoreIn(audit: seq<Event>, event: Event)
    ensures forall e :: e in audit + [event] <==> e in audit || e == event
  {
  }

  lemma EndedOneLogins(tb: Tables, t: Tenant, party: Id, s: Id)
    requires LoginsAttested(tb) && s in tb.sessions
    ensures LoginsAttested(EndedOne(tb, t, party, s))
  {
    OneMoreIn(tb.audit, Logout(t, party, s));
    SameStamps(tb, EndedOne(tb, t, party, s));
  }

  lemma EndedOneLogouts(tb: Tables, t: Tenant, party: Id, s: Id)
    requires LogoutsAttested(tb) && s in tb.sessions && tb.sessions[s].tenant == t
    ensures LogoutsAttested(EndedOne(tb, t, party, s))
  {
    OneMoreIn(tb.audit, Logout(t, party, s));
  }

  lemma EndedOneAttested(tb: Tables, t: Tenant, party: Id, s: Id)
    requires Attested(tb) && s in tb.sessions && !tb.sessions[s].revoked && tb.sessions[s].tenant == t
    ensures Attested(EndedOne(tb, t, party, s))
  {
    EndedOneLogins(tb, t, party, s);
    EndedOneLogouts(tb, t, party, s);
    OneMoreEvent(tb.audit, Logout(t, party, s));
  }

  lemma EndedAttested(tb: Tables, t: Tenant, party: Id, token: string)
    requires Attested(tb)
    ensures Attested(Ended(tb, t, party, token))
  {
    if exists s :: Revocable(tb, t, token, s) {
      var after := Ended(tb, t, party, token);
      var s := after.audit[|tb.audit|].session;
      EndedOneAttested(tb, t, party, s);
    }
  }

  /** Sessions that only change by revocation keep their login events. */
  lemma SameStamps(tb: Tables, after: Tables)
    requires LoginsAttested(tb) && after.sessions.Keys == tb.sessions.Keys
    requires forall s :: s in tb.sessions ==> after.sessions[s] == tb.sessions[s].(revoked := after.sessions[s].revoked)
    requires forall e: Event :: e.LoginSucceeded? ==> (e in after.audit <==> e in tb.audit)
    ensures LoginsAttested(after)
  {
    forall s | s in after.sessions ensures exists e :: e in after.audit && Attests(after, e, s) {
      var e :| e in tb.audit && Attests(tb, e, s);
      assert e in after.audit && Attests(after, e, s);
    }
    forall e | e in after.audit && e.LoginSucceeded? ensures Attests(after, e, e.session) {
      assert Attests(tb, e, e.session);
    }
  }

  lemma DisabledAttested(tb: Tables, b: Id)
    requires Attested(tb)
    ensures Attested(Disabled(tb, b))
  {
    SameStamps(tb, Disabled(tb, b));
  }

  /** Logging out twice is logging out once: the second call finds nothing to revoke
      and writes no event. */
  lemma LogoutIsIdempotent(tb: Tables, t: Tenant, party: Id, token: string, again: Id)
    requires Keyed(tb)
    ensures Ended(Ended(tb, t, party, token), t, again, token) == Ended(tb, t, party, token)
  {
    if s :| Revocable(tb, t, token, s) { OneRevocable(tb, t, token, s); }
  }

  // ---- serial runs ----

  datatype Request =
    | Begin(tenant: Tenant, provider: string, state: LoginState, ttl: int, now: int)
    | Call(c: Callback, verify: Verifier, f: Fresh)
    | End(tenant: Tenant, party: Id, token: string)
    | Disable(b: Id)
    | Bind(b: Id, row: Binding)

  ghost function Serve(tb: Tables, r: Request): Tables {
    match r
    case Begin(t, p, s, ttl, now) => tb.(ceremonies := AfterPut(tb.ceremonies, t, p, s, ttl, now).GetOr(tb.ceremonies))
    case Call(c, verify, f) => Complete(tb, c, verify, f).1
    case End(t, party, token) => Ended(tb, t, party, token)
    case Disable(b) => Disabled(tb, b)
    case Bind(b, row) => tb.(bindings := tb.bindings[b := row])
  }

  ghost function ServeAll(tb: Tables, rs: seq<Request>): Tables
    decreases |rs|
  {
    if rs == [] then tb else ServeAll(Serve(tb, rs[0]), rs[1..])
  }

  lemma ServeAttested(tb: Tables, r: Request)
    requires Attested(tb)
    ensures Attested(Serve(tb, r))
  {
    match r
    case Begin(_, _, _, _, _) =>
    case Call(c, verify, f) =>
      var (outcome, after) := Complete(tb, c, verify, f);
      assert Attested(Taken(tb, c));
      if outcome.Completed? { IssuedAttested(Taken(tb, c), c, outcome.binding, f); }
    case End(t, party, token) => EndedAttested(tb, t, party, token);
    case Disable(b) => DisabledAttested(tb, b);
    case Bind(_, _) =>
  }

  ghost predicate FitsKeys(tb: Tables, r: Request) {
    r.Bind? ==>
      forall b :: b in tb.bindings && b != r.b ==>
        (tb.bindings[b].tenant, tb.bindings[b].provider, tb.bindings[b].issuer, tb.bindings[b].subject)
        != (r.row.tenant, r.row.provider, r.row.issuer, r.row.subject)
  }

  lemma CompleteKeepsKeys(tb: Tables, c: Callback, verify: Verifier, f: Fresh)
    requires Keyed(tb)
    ensures Keyed(Complete(tb, c, verify, f).1)
  {
    if !TokenUsed(tb.sessions, f.token) {
      assert forall s :: s in tb.sessions ==> tb.sessions[s].tokenHash != HashOf(f.token);
    }
  }

  /** Every request leaves the tables in a state the next one can be served from. */
  lemma ServeKeepsKeys(tb: Tables, r: Request)
    requires Keyed(tb) && FitsKeys(tb, r)
    ensures Keyed(Serve(tb, r))
  {
    match r
    case Begin(_, _, _, _, _) =>
    case Call(c, verify, f) => CompleteKeepsKeys(tb, c, verify, f);
    case End(_, _, _) =>
    case Disable(_) =>
    case Bind(_, _) =>
  }

  /** Audit conservation: after every serial run of requests the login events and the
      sessions issued correspond one to one, with the same party and binding, and the
      logout events name distinct revoked sessions. */
  lemma {:induction false} AuditIsConserved(tb: Tables, rs: seq<Request>)
    requires Attested(tb)
    ensures Attested(ServeAll(tb, rs))
    decreases |rs|
  {
    if rs != [] {
      ServeAttested(tb, rs[0]);
      AuditIsConserved(Serve(tb, rs[0]), rs[1..]);
    }
  }
}
