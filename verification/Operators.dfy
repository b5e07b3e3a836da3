/** Administration: the four writes of the operator surface over a tenant's tables,
    and the invariant that surface protects. */
module Operators {
  import opened Text
  import opened Members

  /** How a call ends; `Violation` is a unique key refusing a row, which rolls the
      call back. */
  datatype Result = Done | NotFound | Conflict | Violation

  /** A new member's names, and the display name the kernel makes of them. */
  datatype Person = Person(first: string, last: string, display: string)

  datatype Call =
    | AddMember(tenant: Tenant, email: string, who: Person, slug: string, newParty: Id, newRole: Id)
    | BindMember(tenant: Tenant, email: string, provider: string, issuer: string, subject: string, newBinding: Id)
    | RevokeRole(tenant: Tenant, party: Id, slug: string)
    | DisableBinding(tenant: Tenant, binding: Id)

  // ---- lookups, each by a unique key ----

  predicate Emailed(db: Db, t: Tenant, email: string, p: Id) {
    p in db.parties && db.parties[p].tenant == t && db.parties[p].email == Some(email)
  }

  predicate MemberEmailed(db: Db, t: Tenant, email: string, p: Id) {
    Emailed(db, t, email, p) && db.parties[p].isPerson
  }

  predicate RoleNamed(db: Db, t: Tenant, slug: string, r: Id) {
    r in db.roles && db.roles[r] == Role(t, slug)
  }

  predicate BindsSubject(db: Db, t: Tenant, provider: string, issuer: string, subject: string, b: Id) {
    && b in db.bindings && db.bindings[b].tenant == t && db.bindings[b].provider == provider
    && db.bindings[b].issuer == issuer && db.bindings[b].subject == subject
  }

  predicate BindsParty(db: Db, t: Tenant, provider: string, p: Id, b: Id) {
    b in db.bindings && db.bindings[b].tenant == t && db.bindings[b].provider == provider && db.bindings[b].party == p
  }

  /** `find_member` */
  ghost function MemberOf(db: Db, t: Tenant, email: string): (r: Option<Id>)
    ensures r.Some? ==> MemberEmailed(db, t, email, r.value)
    ensures r.None? ==> forall p :: !MemberEmailed(db, t, email, p)
  {
    if p :| MemberEmailed(db, t, email, p) then Some(p) else None
  }

  ghost function RoleOf(db: Db, t: Tenant, slug: string): (r: Option<Id>)
    ensures r.Some? ==> RoleNamed(db, t, slug, r.value)
    ensures r.None? ==> forall q :: !RoleNamed(db, t, slug, q)
  {
    if q :| RoleNamed(db, t, slug, q) then Some(q) else None
  }

  ghost function SubjectBinding(db: Db, t: Tenant, provider: string, issuer: string, subject: string): (r: Option<Id>)
    ensures r.Some? ==> BindsSubject(db, t, provider, issuer, subject, r.value)
    ensures r.None? ==> forall b :: !BindsSubject(db, t, provider, issuer, subject, b)
  {
    if b :| BindsSubject(db, t, provider, issuer, subject, b) then Some(b) else None
  }

  lemma OneMember(db: Db, t: Tenant, email: string, p: Id)
    requires Wf(db) && MemberEmailed(db, t, email, p)
    ensures MemberOf(db, t, email) == Some(p)
  {
    var q := MemberOf(db, t, email).value;
    assert p != q ==> !SameEmail(db.parties[p], db.parties[q]);
  }

  lemma OneRole(db: Db, t: Tenant, slug: string, r: Id)
    requires Wf(db) && RoleNamed(db, t, slug, r)
    ensures RoleOf(db, t, slug) == Some(r)
  {
  }

  lemma OneSubject(db: Db, t: Tenant, provider: string, issuer: string, subject: string, b: Id)
    requires Wf(db) && BindsSubject(db, t, provider, issuer, subject, b)
    ensures SubjectBinding(db, t, provider, issuer, subject) == Some(b)
  {
    var c := SubjectBinding(db, t, provider, issuer, subject).value;
    assert b != c ==> !SameSubject(db.bindings[b], db.bindings[c]);
  }

  // ---- what each call does to the tables ----

  /** `grant_role`: the role made if the tenant has none by that slug, then the grant. */
  ghost function Granted(db: Db, t: Tenant, p: Id, slug: string, newRole: Id): (Result, Db) {
    match RoleOf(db, t, slug)
    case Some(r) => (Done, db.(grants := db.grants + {Grant(t, p, r)}))
    case None =>
      if newRole in db.roles then (Violation, db)
      else (Done, db.(roles := db.roles[newRole := Role(t, slug)], grants := db.grants + {Grant(t, p, newRole)}))
  }

  function WithParty(db: Db, t: Tenant, p: Id, email: string, who: Person): Db {
    db.(parties := db.parties[p := Party(t, true, true, Some(email), who.display)],
        profiles := db.profiles[p := Profile(who.first, who.last)])
  }

  ghost function Added(db: Db, t: Tenant, email: string, who: Person, slug: string, newParty: Id, newRole: Id): (Result, Db) {
    match MemberOf(db, t, email)
    case Some(p) => Granted(db, t, p, slug, newRole)
    case None =>
      if newParty in db.parties || exists p :: Emailed(db, t, email, p) then (Violation, db)
      else
        var (result, after) := Granted(WithParty(db, t, newParty, email, who), t, newParty, slug, newRole);
        if result == Done then (Done, after) else (result, db)
  }

  /** Binding only adds a row or reactivates the party's own. */
  ghost function Bound(db: Db, t: Tenant, email: string, provider: string, issuer: string, subject: string, newBinding: Id): (Result, Db) {
    match MemberOf(db, t, email)
    case None => (NotFound, db)
    case Some(p) =>
      match SubjectBinding(db, t, provider, issuer, subject)
      case Some(b) =>
        if db.bindings[b].party == p then (Done, db.(bindings := db.bindings[b := db.bindings[b].(active := true)]))
        else (Conflict, db)
      case None =>
        if exists b :: BindsParty(db, t, provider, p, b) then (Conflict, db)
        else if newBinding in db.bindings then (Violation, db)
        else (Done, db.(bindings := db.bindings[newBinding := Binding(t, p, provider, issuer, subject, true)]))
  }

  function WithoutGrant(db: Db, t: Tenant, p: Id, r: Id): Db { db.(grants := db.grants - {Grant(t, p, r)}) }

  ghost function RoleRevoked(db: Db, t: Tenant, p: Id, slug: string): (Result, Db) {
    if p !in db.parties || db.parties[p].tenant != t then (NotFound, db)
    else match RoleOf(db, t, slug)
      case None => (NotFound, db)
      case Some(r) =>
        if slug == ADMIN && Strands(db, t, p) then (Conflict, db) else (Done, WithoutGrant(db, t, p, r))
  }

  /** The sessions once those a binding issued are revoked. */
  function Ended(sessions: map<Id, Stamp>, b: Id): map<Id, Stamp> {
    map s | s in sessions :: if sessions[s].binding == b then sessions[s].(revoked := true) else sessions[s]
  }

  function Disabled(db: Db, b: Id): Db
    requires b in db.bindings
  {
    db.(bindings := db.bindings[b := db.bindings[b].(active := false)], sessions := Ended(db.sessions, b))
  }

  ghost function BindingDisabled(db: Db, t: Tenant, b: Id): (Result, Db) {
    if b !in db.bindings || db.bindings[b].tenant != t then (NotFound, db)
    else if db.bindings[b].active && Strands(db, t, db.bindings[b].party) then (Conflict, db)
    else (Done, Disabled(db, b))
  }

  ghost function Effect(db: Db, c: Call): (Result, Db) {
    match c
    case AddMember(t, email, who, slug, newParty, newRole) => Added(db, t, email, who, slug, newParty, newRole)
    case BindMember(t, email, provider, issuer, subject, newBinding) => Bound(db, t, email, provider, issuer, subject, newBinding)
    case RevokeRole(t, p, slug) => RoleRevoked(db, t, p, slug)
    case DisableBinding(t, b) => BindingDisabled(db, t, b)
  }

  // ---- the calls themselves ----

  class Workspace {
    var parties: map<Id, Party>
    var profiles: map<Id, Profile>
    var roles: map<Id, Role>
    var grants: set<Grant>
    var bindings: map<Id, Binding>
    var sessions: map<Id, Stamp>

    function View(): Db
      reads this
    {
      Db(parties, profiles, roles, grants, bindings, sessions)
    }

    method FindMember(t: Tenant, email: string) returns (r: Option<Id>)
      requires Wf(View())
      ensures r == MemberOf(View(), t, email)
    {
      if p :| p in parties && MemberEmailed(View(), t, email, p) {
        OneMember(View(), t, email, p);
        return Some(p);
      }
      return None;
    }

    method FindRole(t: Tenant, slug: string) returns (r: Option<Id>)
      requires Wf(View())
      ensures r == RoleOf(View(), t, slug)
    {
      if q :| q in roles && RoleNamed(View(), t, slug, q) {
        OneRole(View(), t, slug, q);
        return Some(q);
      }
      return None;
    }

    method GrantRole(t: Tenant, p: Id, slug: string, newRole: Id) returns (result: Result)
      requires Wf(View())
      modifies this`roles, this`grants
      ensures (result, View()) == Granted(old(View()), t, p, slug, newRole)
    {
      var role := FindRole(t, slug);
      if role.None? {
        if newRole in roles { return Violation; }
        roles := roles[newRole := Role(t, slug)];
        grants := grants + {Grant(t, p, newRole)};
      } else if Grant(t, p, role.value) !in grants {
        grants := grants + {Grant(t, p, role.value)};
      }
      assert role.Some? ==> View() == old(View()).(grants := old(grants) + {Grant(t, p, role.value)});
      return Done;
    }

    /** `add_member`; a refused role takes the new party and its profile back with it. */
    method AddMember(t: Tenant, email: string, who: Person, slug: string, newParty: Id, newRole: Id) returns (result: Result)
      requires Wf(View())
      modifies this
      ensures (result, View()) == Added(old(View()), t, email, who, slug, newParty, newRole)
    {
      var found := FindMember(t, email);
      if found.Some? {
        result := GrantRole(t, found.value, slug, newRole);
        return;
      }
      if newParty in parties || exists p :: p in parties && Emailed(View(), t, email, p) { return Violation; }
      var parties', profiles' := parties, profiles;
      parties := parties[newParty := Party(t, true, true, Some(email), who.display)];
      profiles := profiles[newParty := Profile(who.first, who.last)];
      NewPartyFits(old(View()), t, newParty, email, who);
      result := GrantRole(t, newParty, slug, newRole);
      if result == Violation { parties, profiles := parties', profiles'; }
    }

    /** `revoke_role`; the stranding check reads the members with the answers `a`. */
    method RevokeRole(t: Tenant, p: Id, slug: string, a: Answers) returns (result: Result)
      requires Wf(View()) && Answering(View(), t, a)
      modifies this`grants
      ensures (result, View()) == RoleRevoked(old(View()), t, p, slug)
    {
      if p !in parties || parties[p].tenant != t { return NotFound; }
      var role := FindRole(t, slug);
      if role.None? { return NotFound; }
      if slug == ADMIN {
        var strands := WouldStrand(View(), t, p, a);
        if strands { return Conflict; }
      }
      grants := grants - {Grant(t, p, role.value)};
      return Done;
    }

    method FindSubject(t: Tenant, provider: string, issuer: string, subject: string) returns (r: Option<Id>)
      requires Wf(View())
      ensures r == SubjectBinding(View(), t, provider, issuer, subject)
    {
      if b :| b in bindings && BindsSubject(View(), t, provider, issuer, subject, b) {
        OneSubject(View(), t, provider, issuer, subject, b);
        return Some(b);
      }
      return None;
    }

    /** `bind_member`, with the kernel's rules for a binding. */
    method BindMember(t: Tenant, email: string, provider: string, issuer: string, subject: string, newBinding: Id)
      returns (result: Result)
      requires Wf(View())
      modifies this`bindings
      ensures (result, View()) == Bound(old(View()), t, email, provider, issuer, subject, newBinding)
    {
      var found := FindMember(t, email);
      if found.None? { return NotFound; }
      var p := found.value;
      var row := FindSubject(t, provider, issuer, subject);
      if row.Some? {
        if bindings[row.value].party != p { return Conflict; }
        bindings := bindings[row.value := bindings[row.value].(active := true)];
        return Done;
      }
      if exists b :: b in bindings && BindsParty(View(), t, provider, p, b) { return Conflict; }
      if newBinding in bindings { return Violation; }
      bindings := bindings[newBinding := Binding(t, p, provider, issuer, subject, true)];
      return Done;
    }

    /** `disable_binding_for`, with the kernel's revocation of the sessions stamped with the binding. */
    method DisableBindingFor(t: Tenant, b: Id, a: Answers) returns (result: Result)
      requires Wf(View()) && Answering(View(), t, a)
      modifies this`bindings, this`sessions
      ensures (result, View()) == BindingDisabled(old(View()), t, b)
    {
      if b !in bindings || bindings[b].tenant != t { return NotFound; }
      if bindings[b].active {
        var strands := WouldStrand(View(), t, bindings[b].party, a);
        if strands { return Conflict; }
      }
      bindings := bindings[b := bindings[b].(active := false)];
      sessions := Ended(sessions, b);
      return Done;
    }
  }

  lemma NewPartyFits(db: Db, t: Tenant, p: Id, email: string, who: Person)
    requires Wf(db) && p !in db.parties && forall q :: !Emailed(db, t, email, q)
    ensures Wf(WithParty(db, t, p, email, who))
  {
    var after := WithParty(db, t, p, email, who);
    forall q | q in db.parties ensures !SameEmail(after.parties[p], db.parties[q]) && !SameEmail(db.parties[q], after.parties[p]) {
      assert !Emailed(db, t, email, q);
    }
  }
}
