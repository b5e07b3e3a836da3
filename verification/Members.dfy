/** A tenant's parties, roles, grants and bindings, and `list_members` over them:
    three queries and the hash joins that follow. */
module Members {
  import opened Text

  type Id = nat
  type Tenant = nat

  const ADMIN := "admin"

  datatype Party = Party(tenant: Tenant, isPerson: bool, isActive: bool, email: Option<string>, name: string)

  datatype Role = Role(tenant: Tenant, slug: string)

  datatype Grant = Grant(tenant: Tenant, party: Id, role: Id)

  datatype Binding = Binding(tenant: Tenant, party: Id, provider: string, issuer: string, subject: string, active: bool)

  /** A person party's own row. */
  datatype Profile = Profile(first: string, last: string)

  /** What a session row says of the binding that issued it. */
  datatype Stamp = Stamp(binding: Id, revoked: bool)

  datatype Db = Db(parties: map<Id, Party>, profiles: map<Id, Profile>, roles: map<Id, Role>, grants: set<Grant>,
                   bindings: map<Id, Binding>, sessions: map<Id, Stamp>)

  /** What the schema's keys guarantee: references stay inside one tenant, and emails,
      role slugs, bound subjects and a party's binding per provider are unique. */
  ghost predicate Wf(db: Db) {
    && (forall g :: g in db.grants ==> g.party in db.parties && g.role in db.roles
                                       && db.parties[g.party].tenant == g.tenant && db.roles[g.role].tenant == g.tenant)
    && (forall b :: b in db.bindings ==> db.bindings[b].party in db.parties
                                         && db.parties[db.bindings[b].party].tenant == db.bindings[b].tenant)
    && (forall p, q :: p in db.parties && q in db.parties && p != q ==> !SameEmail(db.parties[p], db.parties[q]))
    && (forall r, q :: r in db.roles && q in db.roles && r != q ==> db.roles[r] != db.roles[q])
    && (forall b, c :: b in db.bindings && c in db.bindings && b != c ==>
                       !SameSubject(db.bindings[b], db.bindings[c]) && !SamePartyProvider(db.bindings[b], db.bindings[c]))
  }

  predicate SameEmail(p: Party, q: Party) {
    p.tenant == q.tenant && p.email.Some? && p.email == q.email
  }

  predicate SameSubject(b: Binding, c: Binding) {
    b.tenant == c.tenant && b.provider == c.provider && b.issuer == c.issuer && b.subject == c.subject
  }

  predicate SamePartyProvider(b: Binding, c: Binding) {
    b.tenant == c.tenant && b.provider == c.provider && b.party == c.party
  }

  predicate IsMember(db: Db, t: Tenant, p: Id) {
    p in db.parties && db.parties[p].tenant == t && db.parties[p].isPerson
  }

  predicate HoldsSlug(db: Db, t: Tenant, p: Id, slug: string) {
    exists g :: g in db.grants && g.tenant == t && g.party == p && g.role in db.roles && db.roles[g.role].slug == slug
  }

  predicate HasActiveBinding(db: Db, t: Tenant, p: Id) {
    exists b :: b in db.bindings && db.bindings[b].tenant == t && db.bindings[b].party == p && db.bindings[b].active
  }

  /** Can sign in and administer, stated over the tables. */
  predicate Able(db: Db, t: Tenant, p: Id) {
    IsMember(db, t, p) && db.parties[p].isActive && HoldsSlug(db, t, p, ADMIN) && HasActiveBinding(db, t, p)
  }

  // ---- the three queries, whose answers the database may give in any order their
  // ORDER BY allows ----

  /** Text order, by code point. */
  predicate Before(a: string, b: string) {
    if a == "" then true
    else if b == "" then false
    else if a[0] != b[0] then a[0] < b[0]
    else Before(a[1..], b[1..])
  }

  ghost predicate Lists<T(!new)>(rows: seq<T>, wanted: T -> bool) {
    && (forall x :: x in rows <==> wanted(x))
    && (forall i, j :: 0 <= i < j < |rows| ==> rows[i] != rows[j])
  }

  function NameOf(db: Db, p: Id): string { if p in db.parties then db.parties[p].name else "" }

  function SlugOf(db: Db, g: Grant): string { if g.role in db.roles then db.roles[g.role].slug else "" }

  predicate IsActive(db: Db, b: Id) { b in db.bindings && db.bindings[b].active }

  datatype Answers = Answers(parties: seq<Id>, grants: seq<Grant>, bindings: seq<Id>)

  ghost predicate PartiesAnswer(db: Db, t: Tenant, parties: seq<Id>) {
    && Lists(parties, p => IsMember(db, t, p))
    && (forall i, j :: 0 <= i < j < |parties| ==> Before(NameOf(db, parties[i]), NameOf(db, parties[j])))
  }

  predicate Joined(db: Db, t: Tenant, parties: seq<Id>, g: Grant) {
    g in db.grants && g.tenant == t && g.party in parties && g.role in db.roles
  }

  ghost predicate GrantsAnswer(db: Db, t: Tenant, parties: seq<Id>, grants: seq<Grant>) {
    && Lists(grants, g => Joined(db, t, parties, g))
    && (forall i, j :: 0 <= i < j < |grants| ==> Before(SlugOf(db, grants[i]), SlugOf(db, grants[j])))
  }

  predicate BoundHere(db: Db, t: Tenant, parties: seq<Id>, b: Id) {
    b in db.bindings && db.bindings[b].tenant == t && db.bindings[b].party in parties
  }

  ghost predicate BindingsAnswer(db: Db, t: Tenant, parties: seq<Id>, bindings: seq<Id>) {
    && Lists(bindings, b => BoundHere(db, t, parties, b))
    && (forall i, j :: 0 <= i < j < |bindings| ==> (IsActive(db, bindings[j]) ==> IsActive(db, bindings[i])))
  }

  ghost predicate Answering(db: Db, t: Tenant, a: Answers) {
    PartiesAnswer(db, t, a.parties) && GrantsAnswer(db, t, a.parties, a.grants)
    && BindingsAnswer(db, t, a.parties, a.bindings)
  }

  // ---- list_members ----

  datatype MemberRow = MemberRow(id: Id, party: Party, roleSlugs: seq<string>, binding: Option<Binding>) {
    predicate CanSignIn() {
      party.isActive && ADMIN in roleSlugs && binding.Some? && binding.value.active
    }
  }

  /** One party's slugs, in the order the rows come. */
  function SlugsOf(db: Db, grants: seq<Grant>, p: Id): seq<string> {
    if grants == [] then []
    else
      var g := grants[|grants| - 1];
      var rest := SlugsOf(db, grants[..|grants| - 1], p);
      if g.party == p && g.role in db.roles then rest + [db.roles[g.role].slug] else rest
  }

  /** One party's first binding row. */
  function FirstOf(db: Db, bindings: seq<Id>, p: Id): Option<Id> {
    if bindings == [] then None
    else
      var rest := FirstOf(db, bindings[..|bindings| - 1], p);
      var b := bindings[|bindings| - 1];
      if rest.None? && b in db.bindings && db.bindings[b].party == p then Some(b) else rest
  }

  lemma {:induction false} SlugsMean(db: Db, grants: seq<Grant>, p: Id, slug: string)
    ensures slug in SlugsOf(db, grants, p)
      <==> exists i :: 0 <= i < |grants| && grants[i].party == p && grants[i].role in db.roles
                       && db.roles[grants[i].role].slug == slug
  {
    if grants != [] {
      var k := |grants| - 1;
      SlugsMean(db, grants[..k], p, slug);
      assert forall i :: 0 <= i < k ==> grants[..k][i] == grants[i];
      assert slug in SlugsOf(db, grants, p)
        <==> slug in SlugsOf(db, grants[..k], p)
             || (grants[k].party == p && grants[k].role in db.roles && db.roles[grants[k].role].slug == slug);
    }
  }

  lemma {:induction false} SlugsSorted(db: Db, grants: seq<Grant>, p: Id)
    requires forall i :: 0 <= i < |grants| ==> grants[i].role in db.roles
    requires forall i, j :: 0 <= i < j < |grants| ==> Before(SlugOf(db, grants[i]), SlugOf(db, grants[j]))
    ensures forall i, j :: 0 <= i < j < |SlugsOf(db, grants, p)| ==> Before(SlugsOf(db, grants, p)[i], SlugsOf(db, grants, p)[j])
  {
    if grants != [] {
      var k := |grants| - 1;
      SlugsSorted(db, grants[..k], p);
      var rest := SlugsOf(db, grants[..k], p);
      forall slug | slug in rest ensures Before(slug, db.roles[grants[k].role].slug) {
        SlugsMean(db, grants[..k], p, slug);
      }
    }
  }

  /** A party's grants in one tenant name distinct roles, and roles distinct slugs. */
  lemma {:induction false} SlugsDistinct(db: Db, t: Tenant, grants: seq<Grant>, p: Id)
    requires Wf(db) && forall i :: 0 <= i < |grants| ==> grants[i] in db.grants && grants[i].tenant == t
    requires forall i, j :: 0 <= i < j < |grants| ==> grants[i] != grants[j]
    ensures forall i, j :: 0 <= i < j < |SlugsOf(db, grants, p)| ==> SlugsOf(db, grants, p)[i] != SlugsOf(db, grants, p)[j]
  {
    if grants != [] {
      var k := |grants| - 1;
      SlugsDistinct(db, t, grants[..k], p);
      var g := grants[k];
      SlugsMean(db, grants[..k], p, db.roles[g.role].slug);
    }
  }

  lemma {:induction false} FirstMeans(db: Db, bindings: seq<Id>, p: Id)
    requires forall i :: 0 <= i < |bindings| ==> bindings[i] in db.bindings
    requires forall i, j :: 0 <= i < j < |bindings| ==> (IsActive(db, bindings[j]) ==> IsActive(db, bindings[i]))
    ensures var first := FirstOf(db, bindings, p);
            && (first.Some? ==> first.value in bindings && db.bindings[first.value].party == p)
            && (forall b :: b in bindings && db.bindings[b].party == p ==>
                  first.Some? && (db.bindings[b].active ==> db.bindings[first.value].active))
  {
    if bindings != [] {
      var k := |bindings| - 1;
      FirstMeans(db, bindings[..k], p);
      assert bindings == bindings[..k] + [bindings[k]];
    }
  }

  /** The row a member gets. */
  function RowOf(db: Db, a: Answers, p: Id): MemberRow
    requires p in db.parties
  {
    var first := FirstOf(db, a.bindings, p);
    MemberRow(p, db.parties[p], SlugsOf(db, a.grants, p),
              if first.Some? && first.value in db.bindings then Some(db.bindings[first.value]) else None)
  }

  /** Whatever order ties come in, a row says exactly what the tables say of its
      member: all the slugs held, each once, in slug order, and the ability to sign in. */
  lemma RowMeans(db: Db, t: Tenant, a: Answers, p: Id)
    requires Answering(db, t, a) && p in a.parties && p in db.parties
    ensures var row := RowOf(db, a, p);
            && (forall slug :: slug in row.roleSlugs <==> HoldsSlug(db, t, p, slug))
            && (forall i, j :: 0 <= i < j < |row.roleSlugs| ==> Before(row.roleSlugs[i], row.roleSlugs[j]))
            && (Wf(db) ==> forall i, j :: 0 <= i < j < |row.roleSlugs| ==> row.roleSlugs[i] != row.roleSlugs[j])
            && row.id == p && row.party == db.parties[p]
            && (row.binding.Some? ==> exists b :: BoundTo(db, t, p, b) && db.bindings[b] == row.binding.value)
            && (row.binding.None? <==> forall b :: !BoundTo(db, t, p, b))
            && (row.binding.Some? && row.binding.value.active <==> HasActiveBinding(db, t, p))
            && (row.CanSignIn() <==> Able(db, t, p))
  {
    var row := RowOf(db, a, p);
    AnswersResolve(db, t, a);
    SlugsSorted(db, a.grants, p);
    forall slug ensures slug in row.roleSlugs <==> HoldsSlug(db, t, p, slug) {
      RowSlug(db, t, a, p, slug);
    }
    if Wf(db) { SlugsDistinct(db, t, a.grants, p); }
    RowBinding(db, t, a, p);
    RowBindingIsTheirs(db, t, a, p);
  }

  predicate BoundTo(db: Db, t: Tenant, p: Id, b: Id) {
    b in db.bindings && db.bindings[b].tenant == t && db.bindings[b].party == p
  }

  lemma RowBindingIsTheirs(db: Db, t: Tenant, a: Answers, p: Id)
    requires Answering(db, t, a) && p in a.parties
    ensures var first := FirstOf(db, a.bindings, p);
            && (first.Some? ==> BoundTo(db, t, p, first.value))
            && (first.None? ==> forall b :: !BoundTo(db, t, p, b))
  {
    AnswersResolve(db, t, a);
    FirstMeans(db, a.bindings, p);
    var first := FirstOf(db, a.bindings, p);
    if first.Some? {
      assert first.value in a.bindings;
      assert BoundHere(db, t, a.parties, first.value);
    }
    forall b | BoundTo(db, t, p, b) ensures first.Some? {
      assert BoundHere(db, t, a.parties, b);
      assert b in a.bindings;
    }
  }

  lemma RowSlug(db: Db, t: Tenant, a: Answers, p: Id, slug: string)
    requires Answering(db, t, a) && p in a.parties
    ensures slug in SlugsOf(db, a.grants, p) <==> HoldsSlug(db, t, p, slug)
  {
    SlugsMean(db, a.grants, p, slug);
    if HoldsSlug(db, t, p, slug) {
      var g :| g in db.grants && g.tenant == t && g.party == p && g.role in db.roles && db.roles[g.role].slug == slug;
      assert Joined(db, t, a.parties, g);
      assert g in a.grants;
    }
    if slug in SlugsOf(db, a.grants, p) {
      var i :| 0 <= i < |a.grants| && a.grants[i].party == p && a.grants[i].role in db.roles
               && db.roles[a.grants[i].role].slug == slug;
      assert a.grants[i] in a.grants;
      assert Joined(db, t, a.parties, a.grants[i]);
    }
  }

  lemma RowBinding(db: Db, t: Tenant, a: Answers, p: Id)
    requires Answering(db, t, a) && p in a.parties
    ensures var first := FirstOf(db, a.bindings, p);
            first.Some? && first.value in db.bindings && db.bindings[first.value].active <==> HasActiveBinding(db, t, p)
  {
    assert forall i :: 0 <= i < |a.bindings| ==> a.bindings[i] in a.bindings;
    assert forall b :: b in a.bindings ==> BoundHere(db, t, a.parties, b);
    FirstMeans(db, a.bindings, p);
    if HasActiveBinding(db, t, p) {
      var b :| b in db.bindings && db.bindings[b].tenant == t && db.bindings[b].party == p && db.bindings[b].active;
      assert BoundHere(db, t, a.parties, b);
      assert b in a.bindings;
    }
  }

  /** `grants.setdefault(party_id, []).append(slug)` over the grant rows. */
  method JoinGrants(db: Db, rows: seq<Grant>) returns (grants: map<Id, seq<string>>)
    requires forall i :: 0 <= i < |rows| ==> rows[i].role in db.roles
    ensures forall p :: (if p in grants then grants[p] else []) == SlugsOf(db, rows, p)
  {
    grants := map[];
    for k := 0 to |rows|
      invariant forall p :: (if p in grants then grants[p] else []) == SlugsOf(db, rows[..k], p)
    {
      assert rows[..k + 1][..k] == rows[..k];
      var g := rows[k];
      grants := grants[g.party := (if g.party in grants then grants[g.party] else []) + [db.roles[g.role].slug]];
    }
    assert rows[..|rows|] == rows;
  }

  /** `bindings.setdefault(binding.party_id, binding)` over the binding rows. */
  method JoinBindings(db: Db, rows: seq<Id>) returns (bindings: map<Id, Id>)
    requires forall i :: 0 <= i < |rows| ==> rows[i] in db.bindings
    ensures forall p :: (if p in bindings then Some(bindings[p]) else None) == FirstOf(db, rows, p)
  {
    bindings := map[];
    for k := 0 to |rows|
      invariant forall p :: (if p in bindings then Some(bindings[p]) else None) == FirstOf(db, rows[..k], p)
    {
      assert rows[..k + 1][..k] == rows[..k];
      var b := rows[k];
      if db.bindings[b].party !in bindings { bindings := bindings[db.bindings[b].party := b]; }
    }
    assert rows[..|rows|] == rows;
  }

  lemma AnswersResolve(db: Db, t: Tenant, a: Answers)
    requires Answering(db, t, a)
    ensures forall i :: 0 <= i < |a.parties| ==> IsMember(db, t, a.parties[i])
    ensures forall i :: 0 <= i < |a.grants| ==>
              a.grants[i] in db.grants && a.grants[i].tenant == t && a.grants[i].role in db.roles
    ensures forall i :: 0 <= i < |a.bindings| ==> a.bindings[i] in db.bindings
  {
    forall i | 0 <= i < |a.parties| ensures IsMember(db, t, a.parties[i]) { assert a.parties[i] in a.parties; }
    forall i | 0 <= i < |a.grants| ensures a.grants[i] in db.grants && a.grants[i].tenant == t && a.grants[i].role in db.roles {
      assert a.grants[i] in a.grants;
      assert Joined(db, t, a.parties, a.grants[i]);
    }
    forall i | 0 <= i < |a.bindings| ensures a.bindings[i] in db.bindings {
      assert a.bindings[i] in a.bindings;
      assert BoundHere(db, t, a.parties, a.bindings[i]);
    }
  }

  /** `list_members`: one row per person of the tenant, in the parties query's order,
      each row what the tables say of its member. */
  method ListMembers(db: Db, t: Tenant, a: Answers) returns (rows: seq<MemberRow>)
    requires Answering(db, t, a)
    ensures |rows| == |a.parties|
    ensures forall i :: 0 <= i < |rows| ==>
              rows[i].id == a.parties[i] && IsMember(db, t, rows[i].id) && rows[i] == RowOf(db, a, rows[i].id)
  {
    rows := [];
    AnswersResolve(db, t, a);
    if |a.parties| == 0 { return; }
    var grants := JoinGrants(db, a.grants);
    var bindings := JoinBindings(db, a.bindings);
    for k := 0 to |a.parties|
      invariant |rows| == k
      invariant forall i :: 0 <= i < k ==>
                  rows[i].id == a.parties[i] && IsMember(db, t, rows[i].id) && rows[i] == RowOf(db, a, rows[i].id)
    {
      var p := a.parties[k];
      var slugs := if p in grants then grants[p] else [];
      var binding := if p in bindings && bindings[p] in db.bindings then Some(db.bindings[bindings[p]]) else None;
      rows := rows + [MemberRow(p, db.parties[p], slugs, binding)];
      assert rows[k] == RowOf(db, a, p);
    }
  }

  /** Would the tenant have nobody able if this member were not? */
  ghost predicate Strands(db: Db, t: Tenant, losing: Id) {
    forall p :: Able(db, t, p) ==> p == losing
  }

  /** `would_strand_tenant`: counts the other rows that can sign in. */
  method WouldStrand(db: Db, t: Tenant, losing: Id, a: Answers) returns (strands: bool)
    requires Answering(db, t, a)
    ensures strands == Strands(db, t, losing)
  {
    var rows := ListMembers(db, t, a);
    for k := 0 to |rows|
      invariant forall i :: 0 <= i < k && rows[i].CanSignIn() ==> rows[i].id == losing
    {
      RowMeans(db, t, a, rows[k].id);
      if rows[k].id != losing && rows[k].CanSignIn() {
        assert Able(db, t, rows[k].id);
        return false;
      }
    }
    forall p | Able(db, t, p) ensures p == losing {
      assert p in a.parties;
      var i :| 0 <= i < |a.parties| && a.parties[i] == p;
      assert rows[i].id == p;
      RowMeans(db, t, a, p);
    }
    return true;
  }
}
