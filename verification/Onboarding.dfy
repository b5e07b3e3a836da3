/** What the operator writes amount to: when each succeeds, when each is refused, and
    exactly which rows it leaves. */
module Onboarding {
  import opened Text
  import opened Members
  import opened Operators
  import opened Stranding

  /** The grants a call adds are this party's, in this tenant, of this slug. */
  ghost predicate GrantsOnly(db: Db, after: Db, t: Tenant, p: Id, slug: string) {
    && db.grants <= after.grants
    && (forall g :: g in after.grants - db.grants ==> g.tenant == t && g.party == p && SlugOf(after, g) == slug)
  }

  lemma GrantedMeans(db: Db, t: Tenant, p: Id, slug: string, newRole: Id)
    requires Wf(db) && Granted(db, t, p, slug, newRole).0 == Done
    ensures var after := Granted(db, t, p, slug, newRole).1;
            HoldsSlug(after, t, p, slug) && GrantsOnly(db, after, t, p, slug)
            && after == db.(roles := after.roles, grants := after.grants)
  {
    var after := Granted(db, t, p, slug, newRole).1;
    var r := RoleOf(db, t, slug).GetOr(newRole);
    assert Grant(t, p, r) in after.grants;
  }

  /** A completed `add_member` leaves exactly one member with the address, the one
      there was or a new active person, holding the role; it adds no grant but that
      one and touches no other party and no binding. */
  lemma AddedMeans(db: Db, t: Tenant, email: string, who: Person, slug: string, newParty: Id, newRole: Id)
    requires Wf(db) && Added(db, t, email, who, slug, newParty, newRole).0 == Done
    ensures var after := Added(db, t, email, who, slug, newParty, newRole).1;
            var p := MemberOf(db, t, email).GetOr(newParty);
            && MemberOf(after, t, email) == Some(p) && HoldsSlug(after, t, p, slug)
            && GrantsOnly(db, after, t, p, slug) && after.bindings == db.bindings
            && after.sessions == db.sessions
            && after.parties == (if MemberOf(db, t, email).Some? then db.parties
                                 else db.parties[newParty := Party(t, true, true, Some(email), who.display)])
            && after.profiles == (if MemberOf(db, t, email).Some? then db.profiles
                                  else db.profiles[newParty := Profile(who.first, who.last)])
  {
    var after := Added(db, t, email, who, slug, newParty, newRole).1;
    var made := if MemberOf(db, t, email).Some? then db else WithParty(db, t, newParty, email, who);
    var p := MemberOf(db, t, email).GetOr(newParty);
    if MemberOf(db, t, email).None? { NewPartyFits(db, t, newParty, email, who); }
    GrantedMeans(made, t, p, slug, newRole);
    GrantedFits(made, t, p, slug, newRole);
    OneMember(after, t, email, p);
  }

  /** A completed `bind_member` leaves the subject bound to the member, actively, and
      every other binding as it was; it is refused exactly when there is no such
      member, when the subject is another party's, or when the member is already bound
      to another subject of the provider; and a refusal changes nothing. */
  lemma BoundMeans(db: Db, t: Tenant, email: string, provider: string, issuer: string, subject: string, newBinding: Id)
    requires Wf(db)
    ensures var (result, after) := Bound(db, t, email, provider, issuer, subject, newBinding);
            && (result == NotFound <==> MemberOf(db, t, email).None?)
            && (result == Conflict <==>
                  && MemberOf(db, t, email).Some?
                  && (|| (exists b :: BindsSubject(db, t, provider, issuer, subject, b)
                                      && db.bindings[b].party != MemberOf(db, t, email).value)
                      || (exists b :: BindsParty(db, t, provider, MemberOf(db, t, email).value, b)
                                      && !BindsSubject(db, t, provider, issuer, subject, b))))
            && (result != Done ==> after == db)
            && (result == Done ==>
                  && MemberOf(db, t, email).Some?
                  && after == db.(bindings := after.bindings)
                  && exists b ::
                       && BindsSubject(after, t, provider, issuer, subject, b)
                       && after.bindings[b].party == MemberOf(db, t, email).value && after.bindings[b].active
                       && after.bindings - {b} == db.bindings - {b})
  {
    if MemberOf(db, t, email).Some? {
      var (result, after) := Bound(db, t, email, provider, issuer, subject, newBinding);
      var p := MemberOf(db, t, email).value;
      var row := SubjectBinding(db, t, provider, issuer, subject);
      if row.Some? {
        BoundSubject(db, t, provider, issuer, subject, row.value, p);
      }
      if result == Done {
        var b := row.GetOr(newBinding);
        assert BindsSubject(after, t, provider, issuer, subject, b);
        assert after.bindings - {b} == db.bindings - {b};
      }
    }
  }

  /** The schema leaves one row to a subject and one to a party at a provider. */
  lemma BoundSubject(db: Db, t: Tenant, provider: string, issuer: string, subject: string, b: Id, p: Id)
    requires Wf(db) && BindsSubject(db, t, provider, issuer, subject, b)
    ensures forall c :: BindsSubject(db, t, provider, issuer, subject, c) ==> c == b
    ensures db.bindings[b].party == p ==> forall c :: BindsParty(db, t, provider, p, c) ==> c == b
  {
    forall c | BindsSubject(db, t, provider, issuer, subject, c) ensures c == b {
      assert c != b ==> !SameSubject(db.bindings[b], db.bindings[c]);
    }
    if db.bindings[b].party == p {
      forall c | BindsParty(db, t, provider, p, c) ensures c == b {
        assert c != b ==> !SamePartyProvider(db.bindings[b], db.bindings[c]);
      }
    }
  }

  /** Adding an administrator and binding a subject to that address is all it takes:
      once both have completed the member is able, unless the address belonged to a
      member who had been deactivated. */
  lemma OnboardingMakesAble(db: Db, t: Tenant, email: string, who: Person, newParty: Id, newRole: Id,
                            provider: string, issuer: string, subject: string, newBinding: Id)
    requires Wf(db) && Added(db, t, email, who, ADMIN, newParty, newRole).0 == Done
    requires Bound(Added(db, t, email, who, ADMIN, newParty, newRole).1, t, email, provider, issuer, subject, newBinding).0 == Done
    ensures var p := MemberOf(db, t, email).GetOr(newParty);
            var after := Bound(Added(db, t, email, who, ADMIN, newParty, newRole).1, t, email, provider, issuer, subject, newBinding).1;
            Able(after, t, p) <==> (MemberOf(db, t, email).Some? ==> db.parties[p].isActive)
  {
    var p := MemberOf(db, t, email).GetOr(newParty);
    var added := Added(db, t, email, who, ADMIN, newParty, newRole).1;
    var after := Bound(added, t, email, provider, issuer, subject, newBinding).1;
    AddedMeans(db, t, email, who, ADMIN, newParty, newRole);
    CallsFit(db, AddMember(t, email, who, ADMIN, newParty, newRole));
    BoundMeans(added, t, email, provider, issuer, subject, newBinding);
    BoundLeavesActive(added, after, t, email, provider, issuer, subject, p);
  }

  lemma BoundLeavesActive(added: Db, after: Db, t: Tenant, email: string, provider: string, issuer: string, subject: string, p: Id)
    requires after == added.(bindings := after.bindings) && HoldsSlug(added, t, p, ADMIN)
    requires exists b :: BindsSubject(after, t, provider, issuer, subject, b) && after.bindings[b].party == p && after.bindings[b].active
    ensures HoldsSlug(after, t, p, ADMIN) && HasActiveBinding(after, t, p)
  {
    var g :| g in added.grants && g.tenant == t && g.party == p && g.role in added.roles && added.roles[g.role].slug == ADMIN;
    assert g in after.grants;
  }

  // ---- how each call ends, on the tables before it ----

  /** Granting succeeds when the tenant has the role or the new role's id is free, and
      adds that grant, and the role if it was missing. */
  lemma GrantedExactly(db: Db, t: Tenant, p: Id, slug: string, newRole: Id)
    requires Wf(db)
    ensures var (result, after) := Granted(db, t, p, slug, newRole);
            && (result == Done <==> (exists r :: RoleNamed(db, t, slug, r)) || newRole !in db.roles)
            && (result != Done ==> result == Violation && after == db)
            && (forall r :: RoleNamed(db, t, slug, r) ==> after == db.(grants := db.grants + {Grant(t, p, r)}))
            && ((forall r :: !RoleNamed(db, t, slug, r)) && newRole !in db.roles ==>
                  after == db.(roles := db.roles[newRole := Role(t, slug)], grants := db.grants + {Grant(t, p, newRole)}))
  {
    forall r: Id | RoleNamed(db, t, slug, r) ensures RoleOf(db, t, slug) == Some(r) { OneRole(db, t, slug, r); }
  }

  /** Adding succeeds exactly when the address is a member's, or nobody's in the tenant
      with the new party's id free, and the role is there or its new id is free. Anything
      else is a key's violation and changes nothing. */
  lemma AddedExactly(db: Db, t: Tenant, email: string, who: Person, slug: string, newParty: Id, newRole: Id)
    requires Wf(db)
    ensures var (result, after) := Added(db, t, email, who, slug, newParty, newRole);
            && (result == Done <==>
                  && ((exists p :: MemberEmailed(db, t, email, p)) || (newParty !in db.parties && forall p :: !Emailed(db, t, email, p)))
                  && ((exists r :: RoleNamed(db, t, slug, r)) || newRole !in db.roles))
            && (result != Done ==> result == Violation && after == db)
  {
    var made := WithParty(db, t, newParty, email, who);
    forall p: Id | MemberEmailed(db, t, email, p) ensures MemberOf(db, t, email) == Some(p) { OneMember(db, t, email, p); }
    if MemberOf(db, t, email).Some? {
      GrantedExactly(db, t, MemberOf(db, t, email).value, slug, newRole);
    } else if newParty !in db.parties && forall p :: !Emailed(db, t, email, p) {
      NewPartyFits(db, t, newParty, email, who);
      GrantedExactly(made, t, newParty, slug, newRole);
      assert forall r :: RoleNamed(made, t, slug, r) <==> RoleNamed(db, t, slug, r);
    }
  }

  /** Which row a completed bind leaves, and when it completes: for a member, the
      subject's own row reactivated if it is theirs, or a new row if the subject is bound
      to nobody, the member has no row at the provider, and the new id is free. */
  lemma BoundExactly(db: Db, t: Tenant, email: string, provider: string, issuer: string, subject: string, newBinding: Id, p: Id)
    requires Wf(db) && MemberEmailed(db, t, email, p)
    ensures var (result, after) := Bound(db, t, email, provider, issuer, subject, newBinding);
            && (forall b :: BindsSubject(db, t, provider, issuer, subject, b) ==>
                  if db.bindings[b].party == p
                  then result == Done && after == db.(bindings := db.bindings[b := db.bindings[b].(active := true)])
                  else result == Conflict && after == db)
            && ((forall b :: !BindsSubject(db, t, provider, issuer, subject, b)) ==>
                  if exists b :: BindsParty(db, t, provider, p, b) then result == Conflict && after == db
                  else if newBinding in db.bindings then result == Violation && after == db
                  else result == Done
                       && after == db.(bindings := db.bindings[newBinding := Binding(t, p, provider, issuer, subject, true)]))
  {
    OneMember(db, t, email, p);
    forall b: Id | BindsSubject(db, t, provider, issuer, subject, b) ensures SubjectBinding(db, t, provider, issuer, subject) == Some(b) {
      OneSubject(db, t, provider, issuer, subject, b);
    }
  }

  /** Revoking is not found without the member or the role; it conflicts for the
      administrator's role when nobody else is able; otherwise it takes exactly that
      grant. */
  lemma RevokedExactly(db: Db, t: Tenant, p: Id, slug: string)
    requires Wf(db)
    ensures var (result, after) := RoleRevoked(db, t, p, slug);
            var found := p in db.parties && db.parties[p].tenant == t && exists r :: RoleNamed(db, t, slug, r);
            && (result == NotFound <==> !found)
            && (result == Conflict <==> found && slug == "admin" && forall x :: Able(db, t, x) ==> x == p)
            && (result != Done ==> after == db)
            && (result == Done <==> found && (slug != "admin" || exists x :: Able(db, t, x) && x != p))
            && (result == Done ==> forall r :: RoleNamed(db, t, slug, r) ==> after == db.(grants := db.grants - {Grant(t, p, r)}))
  {
    forall r: Id | RoleNamed(db, t, slug, r) ensures RoleOf(db, t, slug) == Some(r) { OneRole(db, t, slug, r); }
  }

  /** Disabling is not found for another tenant's binding; it conflicts for an active one
      when nobody but its party is able; otherwise it does what `DisabledMeans` says. */
  lemma DisabledExactly(db: Db, t: Tenant, b: Id)
    ensures var (result, after) := BindingDisabled(db, t, b);
            var found := b in db.bindings && db.bindings[b].tenant == t;
            && (result == NotFound <==> !found)
            && (result == Conflict <==>
                  found && db.bindings[b].active && forall x :: Able(db, t, x) ==> x == db.bindings[b].party)
            && (result == Done <==>
                  found && (!db.bindings[b].active || exists x :: Able(db, t, x) && x != db.bindings[b].party))
            && after == if result == Done then Disabled(db, b) else db
  {
  }
}
