/** A tenant always keeps a member who can both sign in and administer. */
module Stranding {
  import opened Text
  import opened Members
  import opened Operators

  ghost predicate HasAble(db: Db, t: Tenant) { exists p :: Able(db, t, p) }

  // ---- the schema's guarantees are kept ----

  lemma GrantedFits(db: Db, t: Tenant, p: Id, slug: string, newRole: Id)
    requires Wf(db) && p in db.parties && db.parties[p].tenant == t
    ensures Wf(Granted(db, t, p, slug, newRole).1)
  {
    var after := Granted(db, t, p, slug, newRole).1;
    if RoleOf(db, t, slug).None? {
      assert forall q :: q in db.roles ==> !RoleNamed(db, t, slug, q);
    }
    assert forall g :: g in after.grants ==> g in db.grants || (g.tenant == t && g.party == p);
  }

  lemma AddedFits(db: Db, c: Call)
    requires Wf(db) && c.AddMember?
    ensures Wf(Effect(db, c).1)
  {
    match MemberOf(db, c.tenant, c.email)
    case Some(p) => GrantedFits(db, c.tenant, p, c.slug, c.newRole);
    case None =>
      if c.newParty !in db.parties && forall p :: !Emailed(db, c.tenant, c.email, p) {
        NewPartyFits(db, c.tenant, c.newParty, c.email, c.who);
        GrantedFits(WithParty(db, c.tenant, c.newParty, c.email, c.who), c.tenant, c.newParty, c.slug, c.newRole);
      }
  }

  lemma NewBindingFits(db: Db, b: Id, row: Binding)
    requires Wf(db) && b !in db.bindings && row.party in db.parties && db.parties[row.party].tenant == row.tenant
    requires forall c :: c in db.bindings ==> !SameSubject(row, db.bindings[c]) && !SamePartyProvider(row, db.bindings[c])
    ensures Wf(db.(bindings := db.bindings[b := row]))
  {
    forall c | c in db.bindings ensures !SameSubject(db.bindings[c], row) && !SamePartyProvider(db.bindings[c], row) {
      assert !SameSubject(row, db.bindings[c]) && !SamePartyProvider(row, db.bindings[c]);
    }
  }

  lemma ActivityFits(db: Db, b: Id, active: bool)
    requires Wf(db) && b in db.bindings
    ensures Wf(db.(bindings := db.bindings[b := db.bindings[b].(active := active)]))
  {
    var after := db.bindings[b := db.bindings[b].(active := active)];
    forall c, d | c in after && d in after && c != d ensures !SameSubject(after[c], after[d]) && !SamePartyProvider(after[c], after[d]) {
      assert !SameSubject(db.bindings[c], db.bindings[d]) && !SamePartyProvider(db.bindings[c], db.bindings[d]);
    }
  }

  lemma BoundFits(db: Db, c: Call)
    requires Wf(db) && c.BindMember?
    ensures Wf(Effect(db, c).1)
  {
    var t := c.tenant;
    var member := MemberOf(db, t, c.email);
    if member.Some? {
      var p := member.value;
      var row := SubjectBinding(db, t, c.provider, c.issuer, c.subject);
      if row.Some? {
        ActivityFits(db, row.value, true);
      } else if c.newBinding !in db.bindings && forall b :: !BindsParty(db, t, c.provider, p, b) {
        var made := Binding(t, p, c.provider, c.issuer, c.subject, true);
        forall b | b in db.bindings ensures !SameSubject(made, db.bindings[b]) && !SamePartyProvider(made, db.bindings[b]) {
          assert !BindsSubject(db, t, c.provider, c.issuer, c.subject, b) && !BindsParty(db, t, c.provider, p, b);
        }
        NewBindingFits(db, c.newBinding, made);
      }
    }
  }

  /** No call breaks a key or a reference. */
  lemma CallsFit(db: Db, c: Call)
    requires Wf(db)
    ensures Wf(Effect(db, c).1)
  {
    match c
    case AddMember(_, _, _, _, _, _) => AddedFits(db, c);
    case BindMember(_, _, _, _, _, _) => BoundFits(db, c);
    case RevokeRole(_, _, _) =>
    case DisableBinding(_, b) => if b in db.bindings { ActivityFits(db, b, false); }
  }

  // ---- who stays able ----

  /** `db'` has everything `db` has that makes this tenant's member able. */
  lemma AbleGrows(db: Db, db': Db, t: Tenant, p: Id)
    requires Able(db, t, p)
    requires p in db'.parties && db'.parties[p] == db.parties[p]
    requires forall g :: g in db.grants && g.tenant == t && g.party == p ==> g in db'.grants
    requires forall r :: r in db.roles ==> r in db'.roles && db'.roles[r] == db.roles[r]
    requires forall b :: b in db.bindings && db.bindings[b].party == p ==>
               b in db'.bindings && db'.bindings[b].party == p && db'.bindings[b].tenant == db.bindings[b].tenant
               && (db.bindings[b].active ==> db'.bindings[b].active)
    ensures Able(db', t, p)
  {
    var g :| g in db.grants && g.tenant == t && g.party == p && g.role in db.roles && db.roles[g.role].slug == ADMIN;
    assert g in db'.grants && db'.roles[g.role].slug == ADMIN;
    var b :| b in db.bindings && db.bindings[b].tenant == t && db.bindings[b].party == p && db.bindings[b].active;
    assert b in db'.bindings && db'.bindings[b].active;
  }

  lemma GrantingKeepsAble(db: Db, u: Tenant, holder: Id, slug: string, newRole: Id, t: Tenant, p: Id)
    requires Able(db, t, p)
    ensures Able(Granted(db, u, holder, slug, newRole).1, t, p)
  {
    AbleGrows(db, Granted(db, u, holder, slug, newRole).1, t, p);
  }

  lemma AddingKeepsAble(db: Db, c: Call, t: Tenant, p: Id)
    requires c.AddMember? && Able(db, t, p)
    ensures Able(Effect(db, c).1, t, p)
  {
    match MemberOf(db, c.tenant, c.email)
    case Some(holder) => GrantingKeepsAble(db, c.tenant, holder, c.slug, c.newRole, t, p);
    case None =>
      if c.newParty !in db.parties {
        var made := WithParty(db, c.tenant, c.newParty, c.email, c.who);
        AbleGrows(db, made, t, p);
        GrantingKeepsAble(made, c.tenant, c.newParty, c.slug, c.newRole, t, p);
      }
  }

  lemma BindingKeepsAble(db: Db, c: Call, t: Tenant, p: Id)
    requires c.BindMember? && Able(db, t, p)
    ensures Able(Effect(db, c).1, t, p)
  {
    AbleGrows(db, Effect(db, c).1, t, p);
  }

  /** Adding and binding never take an ability away. */
  lemma AdditionsKeepAble(db: Db, c: Call, t: Tenant, p: Id)
    requires (c.AddMember? || c.BindMember?) && Able(db, t, p)
    ensures Able(Effect(db, c).1, t, p)
  {
    if c.AddMember? { AddingKeepsAble(db, c, t, p); } else { BindingKeepsAble(db, c, t, p); }
  }

  lemma OthersStayRoled(db: Db, c: Call, t: Tenant, p: Id)
    requires Able(db, t, p) && c.RevokeRole? && p != c.party
    ensures Able(Effect(db, c).1, t, p)
  {
    AbleGrows(db, Effect(db, c).1, t, p);
  }

  lemma OthersStayBound(db: Db, c: Call, t: Tenant, p: Id)
    requires Able(db, t, p) && c.DisableBinding? && c.binding in db.bindings && p != db.bindings[c.binding].party
    ensures Able(Effect(db, c).1, t, p)
  {
    AbleGrows(db, Effect(db, c).1, t, p);
  }

  /** Revoking a role or disabling a binding touches only its own party's ability. */
  lemma OthersStayAble(db: Db, c: Call, t: Tenant, p: Id, losing: Id)
    requires Able(db, t, p) && p != losing
    requires if c.RevokeRole? then losing == c.party
             else c.DisableBinding? && c.binding in db.bindings && losing == db.bindings[c.binding].party
    ensures Able(Effect(db, c).1, t, p)
  {
    if c.RevokeRole? { OthersStayRoled(db, c, t, p); } else { OthersStayBound(db, c, t, p); }
  }

  /** Revoking another role than the administrator's takes no ability away. */
  lemma OtherRolesDoNotMatter(db: Db, c: Call, t: Tenant, p: Id)
    requires Wf(db) && Able(db, t, p) && c.RevokeRole? && c.slug != ADMIN
    ensures Able(Effect(db, c).1, t, p)
  {
    var db' := Effect(db, c).1;
    var g :| g in db.grants && g.tenant == t && g.party == p && g.role in db.roles && db.roles[g.role].slug == ADMIN;
    assert g in db'.grants;
  }

  /** Disabling an inactive binding takes no ability away. */
  lemma InertBindingsDoNotMatter(db: Db, c: Call, t: Tenant, p: Id)
    requires Wf(db) && Able(db, t, p) && c.DisableBinding?
    requires c.binding in db.bindings && !db.bindings[c.binding].active
    ensures Able(Effect(db, c).1, t, p)
  {
    AbleGrows(db, Effect(db, c).1, t, p);
  }

  /** One call, refused or not, leaves a tenant that has an able member with one. */
  lemma CallKeepsAble(db: Db, c: Call, t: Tenant)
    requires Wf(db) && HasAble(db, t)
    ensures HasAble(Effect(db, c).1, t)
  {
    var p :| Able(db, t, p);
    match c
    case AddMember(_, _, _, _, _, _) => AdditionsKeepAble(db, c, t, p);
    case BindMember(_, _, _, _, _, _) => AdditionsKeepAble(db, c, t, p);
    case RevokeRole(u, losing, slug) =>
      if slug != ADMIN {
        OtherRolesDoNotMatter(db, c, t, p);
      } else if q :| Able(db, t, q) && q != losing {
        OthersStayAble(db, c, t, q, losing);
      } else {
        SoleMemberIsKept(db, c, t, losing);
        assert Able(Effect(db, c).1, t, p);
      }
    case DisableBinding(u, b) =>
      if b in db.bindings {
        if !db.bindings[b].active {
          InertBindingsDoNotMatter(db, c, t, p);
        } else if q :| Able(db, t, q) && q != db.bindings[b].party {
          OthersStayAble(db, c, t, q, db.bindings[b].party);
        } else {
          SoleMemberIsKept(db, c, t, db.bindings[b].party);
          assert Able(Effect(db, c).1, t, p);
        }
      }
  }

  /** When the change would cost the tenant its only able member, nothing changes. */
  lemma SoleMemberIsKept(db: Db, c: Call, t: Tenant, losing: Id)
    requires Wf(db) && Able(db, t, losing) && forall p :: Able(db, t, p) ==> p == losing
    requires (c.RevokeRole? && c.slug == ADMIN && c.party == losing)
             || (c.DisableBinding? && c.binding in db.bindings && db.bindings[c.binding].active
                 && db.bindings[c.binding].party == losing)
    ensures Effect(db, c).1 == db
  {
  }

  ghost function Run(db: Db, calls: seq<Call>): Db
    decreases |calls|
  {
    if calls == [] then db else Run(Effect(db, calls[0]).1, calls[1..])
  }

  /** From any tenant with a member who is active, holds the administrator's role and
      has an active binding, every finite serial sequence of calls, refused ones
      included and whichever tenants they name, ends with such a member. */
  lemma {:induction false} NeverStranded(db: Db, calls: seq<Call>, t: Tenant)
    requires Wf(db) && HasAble(db, t)
    ensures Wf(Run(db, calls)) && HasAble(Run(db, calls), t)
    decreases |calls|
  {
    if calls != [] {
      CallsFit(db, calls[0]);
      CallKeepsAble(db, calls[0], t);
      NeverStranded(Effect(db, calls[0]).1, calls[1..], t);
    }
  }

  /** What the schema alone does not promise: every person has a profile, and a live
      session's binding is active. */
  ghost predicate Whole(db: Db) {
    && (forall p :: p in db.parties && db.parties[p].isPerson ==> p in db.profiles)
    && (forall s :: s in db.sessions ==>
          && db.sessions[s].binding in db.bindings
          && (!db.sessions[s].revoked ==> db.bindings[db.sessions[s].binding].active))
  }

  lemma AdditionKeepsWhole(db: Db, c: Call)
    requires Whole(db) && c.AddMember?
    ensures Whole(Effect(db, c).1)
  {
  }

  lemma BindKeepsWhole(db: Db, c: Call)
    requires Whole(db) && c.BindMember?
    ensures Whole(Effect(db, c).1)
  {
  }

  lemma RemovalKeepsWhole(db: Db, c: Call)
    requires Whole(db) && (c.RevokeRole? || c.DisableBinding?)
    ensures Whole(Effect(db, c).1)
  {
  }

  lemma CallKeepsWhole(db: Db, c: Call)
    requires Whole(db)
    ensures Whole(Effect(db, c).1)
  {
    match c
    case AddMember(_, _, _, _, _, _) => AdditionKeepsWhole(db, c);
    case BindMember(_, _, _, _, _, _) => BindKeepsWhole(db, c);
    case RevokeRole(_, _, _) => RemovalKeepsWhole(db, c);
    case DisableBinding(_, _) => RemovalKeepsWhole(db, c);
  }

  /** No serial sequence of calls leaves a person without a profile, or a live session
      of a disabled binding. */
  lemma {:induction false} AlwaysWhole(db: Db, calls: seq<Call>)
    requires Whole(db)
    ensures Whole(Run(db, calls))
    decreases |calls|
  {
    if calls != [] {
      CallKeepsWhole(db, calls[0]);
      AlwaysWhole(Effect(db, calls[0]).1, calls[1..]);
    }
  }

  /** Disabling keeps the row and every other row of it; the sessions that change are
      exactly the live ones the binding issued, and nothing else does. */
  lemma DisabledMeans(db: Db, b: Id)
    requires b in db.bindings
    ensures var after := Disabled(db, b);
            && after.bindings.Keys == db.bindings.Keys && !after.bindings[b].active
            && after.bindings[b].(active := db.bindings[b].active) == db.bindings[b]
            && (forall c :: c in db.bindings && c != b ==> after.bindings[c] == db.bindings[c])
            && after.sessions.Keys == db.sessions.Keys
            && (forall s :: s in db.sessions ==>
                  && after.sessions[s].binding == db.sessions[s].binding
                  && (after.sessions[s] != db.sessions[s] <==> db.sessions[s].binding == b && !db.sessions[s].revoked))
            && (forall s :: s in db.sessions && db.sessions[s].binding == b ==> after.sessions[s].revoked)
            && after.parties == db.parties && after.profiles == db.profiles && after.roles == db.roles && after.grants == db.grants
  {
  }

  /** Tables that agree on a tenant's rows. */
  ghost predicate AgreeOn(db: Db, db': Db, t: Tenant) {
    && (forall p :: IsMember(db, t, p) <==> IsMember(db', t, p))
    && (forall p :: IsMember(db, t, p) ==> db'.parties[p] == db.parties[p])
    && (forall g: Grant :: g.tenant == t ==> (g in db.grants <==> g in db'.grants))
    && (forall g :: g in db.grants && g.tenant == t && g.role in db.roles ==> g.role in db'.roles && db'.roles[g.role] == db.roles[g.role])
    && (forall g :: g in db'.grants && g.tenant == t && g.role in db'.roles ==> g.role in db.roles && db'.roles[g.role] == db.roles[g.role])
    && (forall b :: b in db.bindings && db.bindings[b].tenant == t ==> b in db'.bindings && db'.bindings[b] == db.bindings[b])
    && (forall b :: b in db'.bindings && db'.bindings[b].tenant == t ==> b in db.bindings && db'.bindings[b] == db.bindings[b])
  }

  lemma AgreeingTenants(db: Db, db': Db, t: Tenant, p: Id)
    requires AgreeOn(db, db', t)
    ensures Able(db, t, p) <==> Able(db', t, p)
  {
    if HoldsSlug(db, t, p, ADMIN) {
      var g :| g in db.grants && g.tenant == t && g.party == p && g.role in db.roles && db.roles[g.role].slug == ADMIN;
      assert g in db'.grants && g.role in db'.roles;
    }
    if HoldsSlug(db', t, p, ADMIN) {
      var g :| g in db'.grants && g.tenant == t && g.party == p && g.role in db'.roles && db'.roles[g.role].slug == ADMIN;
      assert g in db.grants && g.role in db.roles;
    }
    if HasActiveBinding(db, t, p) {
      var b :| b in db.bindings && db.bindings[b].tenant == t && db.bindings[b].party == p && db.bindings[b].active;
      assert b in db'.bindings;
    }
  }

  lemma GrantingStays(db: Db, u: Tenant, holder: Id, slug: string, newRole: Id, t: Tenant)
    requires Wf(db) && u != t
    ensures AgreeOn(db, Granted(db, u, holder, slug, newRole).1, t)
  {
  }

  lemma WithPartyStays(db: Db, u: Tenant, p: Id, email: string, who: Person, t: Tenant)
    requires u != t && p !in db.parties
    ensures AgreeOn(db, WithParty(db, u, p, email, who), t)
  {
  }

  lemma AgreeChain(a: Db, b: Db, c: Db, t: Tenant)
    requires AgreeOn(a, b, t) && AgreeOn(b, c, t)
    ensures AgreeOn(a, c, t)
  {
  }

  lemma AddingStays(db: Db, c: Call, t: Tenant)
    requires Wf(db) && t != c.tenant && c.AddMember?
    ensures AgreeOn(db, Effect(db, c).1, t)
  {
    match MemberOf(db, c.tenant, c.email)
    case Some(holder) => GrantingStays(db, c.tenant, holder, c.slug, c.newRole, t);
    case None =>
      if c.newParty !in db.parties && forall p :: !Emailed(db, c.tenant, c.email, p) {
        var made := WithParty(db, c.tenant, c.newParty, c.email, c.who);
        WithPartyStays(db, c.tenant, c.newParty, c.email, c.who, t);
        NewPartyFits(db, c.tenant, c.newParty, c.email, c.who);
        GrantingStays(made, c.tenant, c.newParty, c.slug, c.newRole, t);
        AgreeChain(db, made, Granted(made, c.tenant, c.newParty, c.slug, c.newRole).1, t);
      }
  }

  lemma BindingRowStays(db: Db, b: Id, row: Binding, t: Tenant)
    requires row.tenant != t && (b in db.bindings ==> db.bindings[b].tenant != t)
    ensures AgreeOn(db, db.(bindings := db.bindings[b := row]), t)
  {
  }

  lemma BindingStays(db: Db, c: Call, t: Tenant)
    requires t != c.tenant && c.BindMember?
    ensures AgreeOn(db, Effect(db, c).1, t)
  {
    var member, row := MemberOf(db, c.tenant, c.email), SubjectBinding(db, c.tenant, c.provider, c.issuer, c.subject);
    if member.Some? {
      if row.Some? {
        BindingRowStays(db, row.value, db.bindings[row.value].(active := true), t);
      } else if c.newBinding !in db.bindings {
        BindingRowStays(db, c.newBinding, Binding(c.tenant, member.value, c.provider, c.issuer, c.subject, true), t);
      }
    }
  }

  lemma RevokingStays(db: Db, c: Call, t: Tenant)
    requires t != c.tenant && c.RevokeRole?
    ensures AgreeOn(db, Effect(db, c).1, t)
  {
  }

  lemma DisablingStays(db: Db, c: Call, t: Tenant)
    requires t != c.tenant && c.DisableBinding?
    ensures AgreeOn(db, Effect(db, c).1, t)
  {
  }

  lemma CallsStayInTheirTenant(db: Db, c: Call, t: Tenant)
    requires Wf(db) && t != c.tenant
    ensures AgreeOn(db, Effect(db, c).1, t)
  {
    match c
    case AddMember(_, _, _, _, _, _) => AddingStays(db, c, t);
    case BindMember(_, _, _, _, _, _) => BindingStays(db, c, t);
    case RevokeRole(_, _, _) => RevokingStays(db, c, t);
    case DisableBinding(_, _) => DisablingStays(db, c, t);
  }

  /** No call changes another tenant's set of able members. */
  lemma OtherTenantsUntouched(db: Db, c: Call, t: Tenant, p: Id)
    requires Wf(db) && t != c.tenant
    ensures Able(db, t, p) <==> Able(Effect(db, c).1, t, p)
  {
    CallsStayInTheirTenant(db, c, t);
    AgreeingTenants(db, Effect(db, c).1, t, p);
  }

  // ---- how exact the refusals are ----

  /** Revoking the administrator's role is refused exactly when the tenant would be
      left without an able member. */
  lemma RevocationRefusalIsExact(db: Db, t: Tenant, p: Id, r: Id)
    requires Wf(db) && p in db.parties && db.parties[p].tenant == t && RoleNamed(db, t, ADMIN, r)
    ensures RoleRevoked(db, t, p, ADMIN).0 == Conflict <==> !HasAble(WithoutGrant(db, t, p, r), t)
  {
    OneRole(db, t, ADMIN, r);
    var after := WithoutGrant(db, t, p, r);
    RevocationTakes(db, t, p, r);
    forall q | q != p ensures Able(db, t, q) <==> Able(after, t, q) { RevocationSpares(db, t, p, r, q); }
  }

  lemma RevocationSpares(db: Db, t: Tenant, p: Id, r: Id, q: Id)
    requires q != p
    ensures Able(db, t, q) <==> Able(WithoutGrant(db, t, p, r), t, q)
  {
    var after := WithoutGrant(db, t, p, r);
    if Able(db, t, q) { AbleGrows(db, after, t, q); }
    if Able(after, t, q) { AbleGrows(after, db, t, q); }
  }

  /** The party has an active binding besides this one. */
  predicate OtherActive(db: Db, t: Tenant, p: Id, b: Id) {
    exists c :: c in db.bindings && c != b && db.bindings[c].tenant == t && db.bindings[c].party == p && db.bindings[c].active
  }

  /** What disabling one binding does to everyone's ability. */
  lemma DisableCosts(db: Db, t: Tenant, b: Id, x: Id)
    requires Wf(db) && b in db.bindings && db.bindings[b].tenant == t
    ensures var p := db.bindings[b].party;
            Able(Disabled(db, b), t, x)
            <==> Able(db, t, x) && (x != p || !db.bindings[b].active || OtherActive(db, t, p, b))
  {
    SameRoles(db, Disabled(db, b), t, x);
    DisableBindings(db, t, b, x);
  }

  lemma DisableBindings(db: Db, t: Tenant, b: Id, x: Id)
    requires b in db.bindings && db.bindings[b].tenant == t
    ensures var p := db.bindings[b].party;
            HasActiveBinding(Disabled(db, b), t, x)
            <==> HasActiveBinding(db, t, x) && (x != p || !db.bindings[b].active || OtherActive(db, t, p, b))
  {
    var after := Disabled(db, b);
    assert forall c :: c in db.bindings && c != b ==> after.bindings[c] == db.bindings[c];
    if c :| c in db.bindings && c != b && db.bindings[c].tenant == t && db.bindings[c].party == x && db.bindings[c].active {
      assert after.bindings[c].active;
    }
  }

  lemma SameRoles(db: Db, after: Db, t: Tenant, x: Id)
    requires after.parties == db.parties && after.grants == db.grants && after.roles == db.roles
    ensures IsMember(db, t, x) <==> IsMember(after, t, x)
    ensures HoldsSlug(db, t, x, ADMIN) <==> HoldsSlug(after, t, x, ADMIN)
  {
  }

  /** Disabling a binding is refused whenever it would strand the tenant, and beyond
      that exactly when the one able member has another active binding: the check asks
      whether the member counts, not whether this binding does. */
  lemma DisableRefusal(db: Db, t: Tenant, b: Id)
    requires Wf(db) && b in db.bindings && db.bindings[b].tenant == t && db.bindings[b].active
    ensures !HasAble(Disabled(db, b), t) ==> BindingDisabled(db, t, b).0 == Conflict
    ensures var p := db.bindings[b].party;
            BindingDisabled(db, t, b).0 == Conflict && HasAble(Disabled(db, b), t)
            <==> Strands(db, t, p) && Able(db, t, p) && OtherActive(db, t, p, b)
  {
    forall x ensures Able(Disabled(db, b), t, x)
                     <==> Able(db, t, x) && (x != db.bindings[b].party || OtherActive(db, t, db.bindings[b].party, b))
    {
      DisableCosts(db, t, b, x);
    }
  }

  /** One administrator, bound at two providers. */
  function BoundTwice(t: Tenant, p: Id, r: Id, b: Id, c: Id): Db {
    Db(map[p := Party(t, true, true, None, "")], map[p := Profile("", "")], map[r := Role(t, ADMIN)], {Grant(t, p, r)},
       map[b := Binding(t, p, "primary", "issuer", "subject", true), c := Binding(t, p, "second", "issuer", "subject", true)], map[])
  }

  /** There are such refusals: an administrator bound at two providers may disable
      neither binding, though either would be enough. */
  lemma NeedlessRefusal(t: Tenant, p: Id, r: Id, b: Id, c: Id)
    requires b != c
    ensures var db := BoundTwice(t, p, r, b, c);
            && Wf(db) && Able(db, t, p)
            && BindingDisabled(db, t, b).0 == Conflict && HasAble(Disabled(db, b), t)
            && BindingDisabled(db, t, c).0 == Conflict && HasAble(Disabled(db, c), t)
  {
    var db := BoundTwice(t, p, r, b, c);
    assert |"primary"| == 7 && |"second"| == 6;
    assert Grant(t, p, r) in db.grants && db.bindings[b].active && db.bindings[c].active;
    assert OtherActive(db, t, p, b) && OtherActive(db, t, p, c);
    DisableRefusal(db, t, b);
    DisableRefusal(db, t, c);
  }

  // ---- two calls that interleave ----

  predicate Removes(c: Call) { c.RevokeRole? || c.DisableBinding? }

  /** The call passes every check on the tables it reads. */
  ghost predicate Accepted(db: Db, c: Call) { Removes(c) && Effect(db, c).0 == Done }

  /** Whom an accepted removal takes something from. */
  function Loser(db: Db, c: Call): Id
    requires Removes(c) && (c.DisableBinding? ==> c.binding in db.bindings)
  {
    if c.RevokeRole? then c.party else db.bindings[c.binding].party
  }

  /** Whether it costs that member their ability: it removes the administrator's role
      or the only active binding. */
  predicate Costs(db: Db, c: Call)
    requires Removes(c) && (c.DisableBinding? ==> c.binding in db.bindings)
  {
    if c.RevokeRole? then c.slug == ADMIN
    else db.bindings[c.binding].active && !OtherActive(db, c.tenant, db.bindings[c.binding].party, c.binding)
  }

  /** The write of a call whose checks read `read`, made to tables that have moved on. */
  ghost function Write(read: Db, c: Call, current: Db): Db
    requires Accepted(read, c) && current.bindings.Keys == read.bindings.Keys
  {
    if c.RevokeRole? then WithoutGrant(current, c.tenant, c.party, RoleOf(read, c.tenant, c.slug).value)
    else Disabled(current, c.binding)
  }

  /** Tables that one accepted removal may have changed since they were read. */
  ghost predicate Since(read: Db, current: Db) {
    && current.parties == read.parties && current.roles == read.roles && current.grants <= read.grants
    && current.bindings.Keys == read.bindings.Keys
    && forall b :: b in read.bindings ==>
         current.bindings[b] == read.bindings[b].(active := current.bindings[b].active)
  }

  lemma SinceFits(read: Db, current: Db)
    requires Wf(read) && Since(read, current)
    ensures Wf(current)
  {
    forall b, c | b in current.bindings && c in current.bindings && b != c
      ensures !SameSubject(current.bindings[b], current.bindings[c]) && !SamePartyProvider(current.bindings[b], current.bindings[c])
    {
      assert !SameSubject(read.bindings[b], read.bindings[c]) && !SamePartyProvider(read.bindings[b], read.bindings[c]);
    }
  }

  /** What a removal's write does to everyone's ability, in the tables it is made to. */
  lemma WriteCosts(read: Db, c: Call, current: Db, x: Id)
    requires Wf(read) && Accepted(read, c) && Since(read, current)
    ensures Able(Write(read, c, current), c.tenant, x)
      <==> Able(current, c.tenant, x) && !(x == Loser(current, c) && Costs(current, c))
  {
    SinceFits(read, current);
    if c.DisableBinding? {
      DisableCosts(current, c.tenant, c.binding, x);
    } else {
      var r := RoleOf(read, c.tenant, c.slug).value;
      RevokeCosts(current, c.tenant, c.party, c.slug, r, x);
    }
  }

  lemma RevokeCosts(db: Db, t: Tenant, p: Id, slug: string, r: Id, x: Id)
    requires Wf(db) && RoleNamed(db, t, slug, r)
    ensures Able(WithoutGrant(db, t, p, r), t, x) <==> Able(db, t, x) && !(x == p && slug == ADMIN)
  {
    if x != p {
      RevocationSpares(db, t, p, r, x);
    } else if slug == ADMIN {
      RevocationTakes(db, t, p, r);
    } else {
      OtherGrantStays(db, t, p, slug, r);
    }
  }

  lemma OtherGrantStays(db: Db, t: Tenant, p: Id, slug: string, r: Id)
    requires RoleNamed(db, t, slug, r) && slug != ADMIN
    ensures Able(WithoutGrant(db, t, p, r), t, p) <==> Able(db, t, p)
  {
    var after := WithoutGrant(db, t, p, r);
    if Able(after, t, p) { AbleGrows(after, db, t, p); }
    if HoldsSlug(db, t, p, ADMIN) {
      var g :| g in db.grants && g.tenant == t && g.party == p && g.role in db.roles && db.roles[g.role].slug == ADMIN;
      assert g in after.grants;
    }
  }

  /** The claim is for serial calls only. The check takes no lock: when two removals are
      each accepted on the tables both of them read, the tenant ends with nobody exactly
      when every able member is one of the two they cost their ability. */
  lemma InterleavedRemovalsStrand(db: Db, c: Call, d: Call)
    requires Wf(db) && Accepted(db, c) && Accepted(db, d) && c.tenant == d.tenant
    ensures Write(db, c, db) == Effect(db, c).1 && Write(db, d, db) == Effect(db, d).1
    ensures !HasAble(Write(db, d, Write(db, c, db)), c.tenant)
      <==> forall x :: Able(db, c.tenant, x) ==>
             (x == Loser(db, c) && Costs(db, c)) || (x == Loser(db, d) && Costs(db, d))
  {
    forall x ensures Able(Write(db, d, Write(db, c, db)), c.tenant, x) <==> Able(db, c.tenant, x) && !LosesByBoth(db, c, d, x) {
      BothWrites(db, c, d, x);
    }
    if Loser(db, c) != Loser(db, d) {
      CostsApart(db, c, d);
    } else {
      SameLoserIsSafe(db, c, d);
    }
  }

  /** The second write's cost is judged in the tables the first one left. */
  ghost predicate LosesByBoth(db: Db, c: Call, d: Call, x: Id)
    requires Accepted(db, c) && Accepted(db, d)
  {
    (x == Loser(db, c) && Costs(db, c)) || (x == Loser(db, d) && Costs(Write(db, c, db), d))
  }

  lemma BothWrites(db: Db, c: Call, d: Call, x: Id)
    requires Wf(db) && Accepted(db, c) && Accepted(db, d) && c.tenant == d.tenant
    ensures Able(Write(db, d, Write(db, c, db)), c.tenant, x) <==> Able(db, c.tenant, x) && !LosesByBoth(db, c, d, x)
  {
    WriteCosts(db, c, db, x);
    WriteCosts(db, d, Write(db, c, db), x);
  }

  /** Removals from different members do not change each other's cost. */
  lemma CostsApart(db: Db, c: Call, d: Call)
    requires Wf(db) && Accepted(db, c) && Accepted(db, d) && Loser(db, c) != Loser(db, d)
    ensures Costs(Write(db, c, db), d) <==> Costs(db, d)
  {
    if c.DisableBinding? && d.DisableBinding? {
      ActiveApart(db, c.binding, d.tenant, db.bindings[d.binding].party, d.binding);
    }
  }

  lemma ActiveApart(db: Db, b: Id, t: Tenant, p: Id, e: Id)
    requires b in db.bindings && db.bindings[b].party != p
    ensures OtherActive(Disabled(db, b), t, p, e) <==> OtherActive(db, t, p, e)
  {
    var after := Disabled(db, b);
    forall k | k in db.bindings && k != b ensures after.bindings[k] == db.bindings[k] {}
    if OtherActive(db, t, p, e) {
      var k :| k in db.bindings && k != e && db.bindings[k].tenant == t && db.bindings[k].party == p && db.bindings[k].active;
      assert k in after.bindings && after.bindings[k].active;
    }
  }

  /** Two accepted removals from one member leave another able member or touch no
      ability at all. */
  lemma SameLoserIsSafe(db: Db, c: Call, d: Call)
    requires Wf(db) && Accepted(db, c) && Accepted(db, d) && c.tenant == d.tenant && Loser(db, c) == Loser(db, d)
    ensures var one := Write(db, c, db);
            !Costs(db, c) && !Costs(db, d) && Costs(one, d) ==> exists y :: Able(db, c.tenant, y) && y != Loser(db, c)
  {
  }

  /** Two administrators, each bound. */
  function TwoAdministrators(t: Tenant, p: Id, q: Id, r: Id, b: Id, c: Id): Db {
    Db(map[p := Party(t, true, true, None, ""), q := Party(t, true, true, None, "")],
       map[p := Profile("", ""), q := Profile("", "")], map[r := Role(t, ADMIN)],
       {Grant(t, p, r), Grant(t, q, r)},
       map[b := Binding(t, p, "primary", "issuer", "one", true), c := Binding(t, q, "primary", "issuer", "other", true)], map[])
  }

  /** What taking an administrator's role or only binding amounts to. */
  predicate Takes(call: Call, t: Tenant, p: Id, b: Id) {
    call == RevokeRole(t, p, ADMIN) || call == DisableBinding(t, b)
  }

  lemma BothAble(t: Tenant, p: Id, q: Id, r: Id, b: Id, c: Id)
    requires p != q && b != c
    ensures var db := TwoAdministrators(t, p, q, r, b, c);
            Wf(db) && RoleNamed(db, t, ADMIN, r) && Able(db, t, p) && Able(db, t, q) && !OtherActive(db, t, p, b) && !OtherActive(db, t, q, c)
  {
    var db := TwoAdministrators(t, p, q, r, b, c);
    assert |"one"| == 3 && |"other"| == 5;
    assert Grant(t, p, r) in db.grants && Grant(t, q, r) in db.grants && db.bindings[b].active && db.bindings[c].active;
  }

  lemma TakingIsAccepted(db: Db, call: Call, t: Tenant, p: Id, q: Id, r: Id, b: Id)
    requires Wf(db) && RoleNamed(db, t, ADMIN, r) && p in db.parties && db.parties[p].tenant == t && Able(db, t, q) && p != q
    requires b in db.bindings && db.bindings[b].tenant == t && db.bindings[b].party == p && db.bindings[b].active
    requires !OtherActive(db, t, p, b) && Takes(call, t, p, b)
    ensures Accepted(db, call) && Loser(db, call) == p && Costs(db, call)
  {
    OneRole(db, t, ADMIN, r);
  }

  /** It happens: of two administrators one loses the role or the binding, the other
      the role or the binding, each call is accepted, and nobody is left. */
  lemma TwoRemovalsStrand(t: Tenant, p: Id, q: Id, r: Id, b: Id, c: Id, x: Call, y: Call)
    requires p != q && b != c && Takes(x, t, p, b) && Takes(y, t, q, c)
    ensures var db := TwoAdministrators(t, p, q, r, b, c);
            && Wf(db) && Able(db, t, p) && Able(db, t, q) && Accepted(db, x) && Accepted(db, y)
            && !HasAble(Write(db, y, Write(db, x, db)), t)
  {
    var db := TwoAdministrators(t, p, q, r, b, c);
    BothAble(t, p, q, r, b, c);
    TakingIsAccepted(db, x, t, p, q, r, b);
    TakingIsAccepted(db, y, t, q, p, r, c);
    InterleavedRemovalsStrand(db, x, y);
  }

  lemma RevocationTakes(db: Db, t: Tenant, p: Id, r: Id)
    requires Wf(db) && RoleNamed(db, t, ADMIN, r)
    ensures !Able(WithoutGrant(db, t, p, r), t, p)
  {
    forall q | RoleNamed(db, t, ADMIN, q) ensures q == r {
      OneRole(db, t, ADMIN, q);
      OneRole(db, t, ADMIN, r);
    }
    assert forall g :: g in db.grants && g.tenant == t && db.roles[g.role].slug == ADMIN ==> RoleNamed(db, t, ADMIN, g.role);
  }
}
