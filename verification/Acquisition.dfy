/** The two loops that fill a wheelhouse: `acquire` on the producer's side and
    `warm` on the consumer's, and the agreement between what they leave and what
    `verify` accepts. */
module Acquisition {
  import opened Text
  import opened IndexUrl
  import opened LockRecords
  import opened WheelName
  import opened PlanAgreement
  import opened Wheelhouse
  import CredentialedUrl
  import opened Toml
  import Reviewed = ReviewedPlan
  import Locked = LockedPlan

  /** What one run of the downloader leaves: a failure, or files in its staging directory. */
  datatype Download = Failed | Staged(files: seq<(string, Bytes)>)

  datatype Call = Call(index: string, name: string, version: string)

  /** The downloader: an arbitrary answer to each call, and the calls it was given. */
  class Downloader {
    const answer: Call -> Download
    var calls: seq<Call>

    constructor (answer: Call -> Download)
      ensures this.answer == answer && calls == []
    {
      this.answer := answer;
      calls := [];
    }

    method Run(call: Call) returns (d: Download)
      modifies this
      ensures calls == old(calls) + [call] && d == answer(call)
    {
      calls := calls + [call];
      d := answer(call);
    }
  }

  /** One staged file under a locked name with the locked hash, or nothing usable. */
  function Accept(wheels: Wheels, sha: Bytes -> string, d: Download): Option<(string, Bytes)> {
    if d.Failed? || |d.files| != 1 then None
    else if d.files[0].0 !in wheels || sha(d.files[0].1) != wheels[d.files[0].0] then None
    else Some(d.files[0])
  }

  /** Exactly one staged file, of a locked name with the locked hash. */
  lemma AcceptMeans(wheels: Wheels, sha: Bytes -> string, d: Download, got: (string, Bytes))
    ensures Accept(wheels, sha, d) == Some(got)
      <==> d == Staged([got]) && got.0 in wheels && sha(got.1) == wheels[got.0]
  {
    if Accept(wheels, sha, d) == Some(got) { assert d.files == [got]; }
  }

  /** What the loop obtains for each package it gets past. */
  type Obtained = seq<(string, Bytes)>

  /** The entries after copying each obtained file in turn; a later copy of a name
      would overwrite an earlier one. */
  function Copied(obtained: Obtained): map<string, Entry> {
    if obtained == [] then map[]
    else Copied(obtained[..|obtained| - 1])[obtained[|obtained| - 1].0 := File(obtained[|obtained| - 1].1)]
  }

  lemma CopyOneMore(obtained: Obtained, got: (string, Bytes))
    ensures Copied(obtained + [got]) == Copied(obtained)[got.0 := File(got.1)]
  {
    assert (obtained + [got])[..|obtained|] == obtained;
  }

  /** Every package in `order` got one accepted file. */
  ghost predicate Accepted(tables: Tables, sha: Bytes -> string, order: seq<string>, obtained: Obtained) {
    && |obtained| == |order|
    && forall i :: 0 <= i < |order| ==>
         && order[i] in tables && obtained[i].0 in tables[order[i]]
         && sha(obtained[i].1) == tables[order[i]][obtained[i].0]
  }

  // ---- a completed loop leaves an exact wheelhouse ----

  lemma {:induction false} CopiedKeys(obtained: Obtained)
    ensures forall f :: f in Copied(obtained) <==> exists i :: 0 <= i < |obtained| && obtained[i].0 == f
  {
    if obtained != [] {
      var k := |obtained| - 1;
      CopiedKeys(obtained[..k]);
      assert forall i :: 0 <= i < k ==> obtained[..k][i] == obtained[i];
      assert obtained[k].0 in Copied(obtained);
    }
  }

  lemma {:induction false} CopiedUnmixed(obtained: Obtained, i: nat)
    requires i < |obtained|
    requires forall a, b :: 0 <= a < b < |obtained| ==> obtained[a].0 != obtained[b].0
    ensures obtained[i].0 in Copied(obtained) && Copied(obtained)[obtained[i].0] == File(obtained[i].1)
  {
    var k := |obtained| - 1;
    if i < k {
      assert obtained[..k][i] == obtained[i];
      CopiedUnmixed(obtained[..k], i);
    }
  }

  lemma NoOverwrite(tables: Tables, ownerOf: string -> string, sha: Bytes -> string, order: seq<string>, obtained: Obtained)
    requires LabelledBy(tables, ownerOf) && Enumerates(order, tables.Keys) && Accepted(tables, sha, order, obtained)
    ensures forall a, b :: 0 <= a < b < |obtained| ==> obtained[a].0 != obtained[b].0
  {
    assert forall i :: 0 <= i < |order| ==> ownerOf(obtained[i].0) == order[i];
  }

  lemma LabelledSuffix(filename: string, name: string)
    requires Belongs(filename, name)
    ensures PathSuffix(filename) == ".whl"
  {
    var parts := Parse(filename).value;
    PatternIsUnambiguous(filename, parts);
    WheelSuffix(filename, parts);
    WheelSuffixIs(filename);
  }

  /** Every locked filename has a wheel's suffix. */
  ghost predicate Suffixed(tables: Tables) {
    forall n, f :: n in tables && f in tables[n] ==> PathSuffix(f) == ".whl"
  }

  lemma WellLabelledSuffixed(tables: Tables)
    requires WellLabelled(tables)
    ensures Suffixed(tables)
  {
    forall n, f | n in tables && f in tables[n] ensures PathSuffix(f) == ".whl" {
      assert AllBelong(tables[n], n);
      LabelledSuffix(f, n);
    }
  }

  lemma SoleLabel(tables: Tables, ownerOf: string -> string, filename: string, name: string)
    requires LabelledBy(tables, ownerOf) && name in tables && filename in tables[name]
    ensures OwnedBy(tables, filename, name)
  {
    var owners := Owners(tables, filename);
    forall n | n in owners ensures n == name { assert ownerOf(filename) == n; }
    assert owners == {name};
  }

  /** What the verifier makes of one copied file. */
  lemma CopiedIsLocked(tables: Tables, ownerOf: string -> string, sha: Bytes -> string,
                       order: seq<string>, obtained: Obtained, i: nat)
    requires LabelledBy(tables, ownerOf) && Suffixed(tables)
    requires Enumerates(order, tables.Keys) && Accepted(tables, sha, order, obtained)
    requires i < |order|
    ensures var f := obtained[i].0;
            && f in Copied(obtained) && Copied(obtained)[f].File?
            && LockedFor(tables, sha, f, Copied(obtained)[f]) == Some(order[i])
  {
    NoOverwrite(tables, ownerOf, sha, order, obtained);
    CopiedUnmixed(obtained, i);
    var f := obtained[i].0;
    SoleLabel(tables, ownerOf, f, order[i]);
    LockedForOne(tables, sha, f, Copied(obtained)[f], order[i]);
  }

  lemma SelectionPairs(names: set<string>, locked: map<string, Option<string>>, order: seq<string>, obtained: Obtained)
    requires Enumerates(order, names) && |obtained| == |order|
    requires forall f :: f in locked ==> exists i :: 0 <= i < |obtained| && obtained[i].0 == f
    requires forall i :: 0 <= i < |order| ==> obtained[i].0 in locked && locked[obtained[i].0] == Some(order[i])
    ensures Pairs(locked, names, Selection(order, obtained))
  {
    var selected := Selection(order, obtained);
    forall f | f in locked
      ensures locked[f].Some? && locked[f].value in selected && selected[locked[f].value] == f
    {
      var i :| 0 <= i < |obtained| && obtained[i].0 == f;
      assert order[i] in selected;
    }
    forall n | n in selected ensures selected[n] in locked && locked[selected[n]] == Some(n) {
      var i :| 0 <= i < |order| && order[i] == n;
    }
    assert selected.Keys == names;
  }

  lemma CopiedLocked(tables: Tables, ownerOf: string -> string, sha: Bytes -> string,
                     order: seq<string>, obtained: Obtained, locked: map<string, Option<string>>)
    requires LabelledBy(tables, ownerOf) && Suffixed(tables)
    requires Enumerates(order, tables.Keys) && Accepted(tables, sha, order, obtained)
    requires locked == LockedEntries(tables, sha, Copied(obtained))
    ensures Pairs(locked, tables.Keys, Selection(order, obtained))
  {
    CopiedKeys(obtained);
    forall i | 0 <= i < |order|
      ensures obtained[i].0 in locked && locked[obtained[i].0] == Some(order[i])
    {
      CopiedIsLocked(tables, ownerOf, sha, order, obtained, i);
    }
    SelectionPairs(tables.Keys, locked, order, obtained);
  }

  lemma FilledPairs(tables: Tables, sha: Bytes -> string, order: seq<string>, obtained: Obtained)
    requires WellLabelled(tables) && Enumerates(order, tables.Keys) && Accepted(tables, sha, order, obtained)
    ensures Exact(tables, sha, Copied(obtained), Selection(order, obtained))
  {
    WellLabelledBy(tables);
    WellLabelledSuffixed(tables);
    CopiedLocked(tables, f => Label(f), sha, order, obtained, LockedEntries(tables, sha, Copied(obtained)));
  }

  lemma SameKeys<A, B>(a: map<string, A>, b: map<string, B>)
    requires a.Keys == b.Keys
    ensures |a| == |b| == |a.Keys|
  {
  }

  lemma ExactHasSize(tables: Tables, sha: Bytes -> string, entries: map<string, Entry>, selected: map<string, string>)
    requires Exact(tables, sha, entries, selected)
    ensures |entries| == |tables|
  {
    var locked := LockedEntries(tables, sha, entries);
    SameSize(locked, tables.Keys, selected);
    SameKeys(entries, locked);
    SameKeys(tables, tables);
  }

  /** A filled directory is exact: under a plan whose filenames each name their
      package, nothing was overwritten, every package kept its one wheel, and the
      verifier's bijection is the loop's own record of what it copied. */
  lemma FilledIsExact(tables: Tables, sha: Bytes -> string, order: seq<string>, obtained: Obtained)
    requires WellLabelled(tables) && Enumerates(order, tables.Keys) && Accepted(tables, sha, order, obtained)
    ensures Exact(tables, sha, Copied(obtained), Selection(order, obtained))
    ensures |Copied(obtained)| == |tables|
    ensures NoSurplus(Copied(obtained))
  {
    FilledPairs(tables, sha, order, obtained);
    ExactHasSize(tables, sha, Copied(obtained), Selection(order, obtained));
    ExactHasNoSurplus(tables, sha, Copied(obtained), Selection(order, obtained));
  }

  /** `acquire`'s closing sweep finds nothing: no link, no non-file, no other suffix. */
  predicate NoSurplus(entries: map<string, Entry>) {
    forall f :: f in entries ==> RegularWheel(f, entries[f])
  }

  lemma ExactHasNoSurplus(tables: Tables, sha: Bytes -> string, entries: map<string, Entry>, selected: map<string, string>)
    requires Exact(tables, sha, entries, selected)
    ensures NoSurplus(entries)
  {
    ExactMeans(tables, sha, entries, selected);
    forall f | f in entries ensures RegularWheel(f, entries[f]) {
      var n :| n in tables && selected[n] == f;
      assert Locks(tables, sha, selected[n], entries[selected[n]], n);
    }
  }

  ghost function Selection(order: seq<string>, obtained: Obtained): (selected: map<string, string>)
    requires |order| == |obtained|
    requires forall i, j :: 0 <= i < j < |order| ==> order[i] != order[j]
    ensures forall n :: n in selected <==> n in order
    ensures forall i :: 0 <= i < |order| ==> selected[order[i]] == obtained[i].0
  {
    if order == [] then map[]
    else
      var k := |order| - 1;
      var rest := Selection(order[..k], obtained[..k]);
      assert forall i :: 0 <= i < k ==> order[..k][i] == order[i];
      rest[order[k] := obtained[k].0]
  }

  /** A bijection preserves size. */
  lemma SameSize(locked: map<string, Option<string>>, names: set<string>, selected: map<string, string>)
    requires Pairs(locked, names, selected)
    ensures |locked| == |names|
    decreases names
  {
    if names != {} {
      var n :| n in names;
      var f := selected[n];
      assert locked[f] == Some(n);
      assert Pairs(locked - {f}, names - {n}, selected - {n}) by {
        forall g | g in locked - {f}
          ensures locked[g].Some? && locked[g].value in selected - {n} && (selected - {n})[locked[g].value] == g
        {
        }
      }
      SameSize(locked - {f}, names - {n}, selected - {n});
      assert (locked - {f}).Keys == locked.Keys - {f};
    } else {
      assert locked.Keys == {};
    }
  }

  // ---- the loop both scripts run ----

  /** The downloader call a script makes for each package, or `None` where it refuses. */
  type CallPlan = map<string, Option<Call>>

  /** What each package's call would obtain: one accepted file, or a refusal. */
  type Fetches = map<string, Option<(string, Bytes)>>

  function Fetched(wheels: Wheels, sha: Bytes -> string, answer: Call -> Download, call: Option<Call>): Option<(string, Bytes)> {
    if call.None? then None else Accept(wheels, sha, answer(call.value))
  }

  function FetchAll(tables: Tables, sha: Bytes -> string, answer: Call -> Download, calls: CallPlan): Fetches {
    map n | n in tables && n in calls :: Fetched(tables[n], sha, answer, calls[n])
  }

  /** The loop got past exactly the first `|obtained|` packages, and stopped at the
      next one because its call was refused or its download was not its wheel. */
  ghost predicate Stopped(fetches: Fetches, order: seq<string>, obtained: Obtained) {
    && |obtained| <= |order|
    && (forall i :: 0 <= i < |order| ==> order[i] in fetches)
    && (forall i :: 0 <= i < |obtained| ==> fetches[order[i]] == Some(obtained[i]))
    && (|obtained| < |order| ==> fetches[order[|obtained|]].None?)
  }

  /** Each call made is the one planned for the package the loop had reached. */
  ghost predicate Made(made: seq<Call>, order: seq<string>, calls: CallPlan) {
    && |made| <= |order|
    && forall i :: 0 <= i < |made| ==> order[i] in calls && calls[order[i]] == Some(made[i])
  }

  /** One call for each package got past, and one more where the loop stopped at a
      download rather than before it. */
  ghost predicate CallsMade(made: seq<Call>, order: seq<string>, calls: CallPlan, reached: nat) {
    && Made(made, order, calls) && reached <= |order|
    && |made| == reached + (if reached < |order| && order[reached] in calls && calls[order[reached]].Some? then 1 else 0)
  }

  lemma CompletedIsAccepted(tables: Tables, sha: Bytes -> string, answer: Call -> Download, order: seq<string>,
                            calls: CallPlan, obtained: Obtained)
    requires Stopped(FetchAll(tables, sha, answer, calls), order, obtained) && |obtained| == |order|
    ensures Accepted(tables, sha, order, obtained)
  {
    var fetches := FetchAll(tables, sha, answer, calls);
    forall i | 0 <= i < |order|
      ensures order[i] in tables && obtained[i].0 in tables[order[i]]
      ensures sha(obtained[i].1) == tables[order[i]][obtained[i].0]
    {
      assert fetches[order[i]] == Fetched(tables[order[i]], sha, answer, calls[order[i]]);
    }
  }

  /** A completed loop over a well-labelled plan leaves an exact wheelhouse. */
  lemma CompletedIsExact(tables: Tables, sha: Bytes -> string, answer: Call -> Download, order: seq<string>,
                         calls: CallPlan, obtained: Obtained)
    requires WellLabelled(tables) && Enumerates(order, tables.Keys)
    requires Stopped(FetchAll(tables, sha, answer, calls), order, obtained) && |obtained| == |order|
    ensures Exact(tables, sha, Copied(obtained), Selection(order, obtained))
    ensures NoSurplus(Copied(obtained)) && |Copied(obtained)| == |tables|
  {
    CompletedIsAccepted(tables, sha, answer, order, calls, obtained);
    FilledIsExact(tables, sha, order, obtained);
  }

  lemma MadeOneMore(made: seq<Call>, order: seq<string>, calls: CallPlan, call: Option<Call>)
    requires Made(made, order, calls) && |made| < |order|
    requires order[|made|] in calls && calls[order[|made|]] == call
    ensures Made(made + CallMade(call), order, calls)
  {
  }

  function CallMade(call: Option<Call>): seq<Call> {
    if call.Some? then [call.value] else []
  }

  /** One package: its call, if the script makes one, and the file it accepts. */
  method FetchOne(wheels: Wheels, sha: Bytes -> string, call: Option<Call>, downloader: Downloader,
                  ghost fetched: Option<(string, Bytes)>)
    returns (got: Option<(string, Bytes)>)
    requires fetched == Fetched(wheels, sha, downloader.answer, call)
    modifies downloader
    ensures got == fetched && (got.Some? ==> call.Some?)
    ensures downloader.calls == old(downloader.calls) + CallMade(call)
  {
    if call.None? { return None; }
    var d := downloader.Run(call.value);
    got := Accept(wheels, sha, d);
  }

  /** One package after another, each accepted wheel copied into the directory,
      until the first refusal. */
  method Fill(tables: Tables, order: seq<string>, calls: CallPlan, directory: Directory,
              sha: Bytes -> string, downloader: Downloader, ghost fetches: Fetches)
    returns (completed: bool, ghost obtained: Obtained, ghost made: seq<Call>)
    requires forall i :: 0 <= i < |order| ==> order[i] in tables && order[i] in calls
    requires forall i :: 0 <= i < |order| ==>
               && order[i] in fetches
               && fetches[order[i]] == Fetched(tables[order[i]], sha, downloader.answer, calls[order[i]])
    requires directory.entries == map[]
    modifies directory`entries, downloader
    ensures directory.entries == Copied(obtained)
    ensures Stopped(fetches, order, obtained)
    ensures downloader.calls == old(downloader.calls) + made && CallsMade(made, order, calls, |obtained|)
    ensures completed <==> |obtained| == |order|
  {
    obtained, made, completed := [], [], false;
    var k := 0;
    while k < |order|
      invariant 0 <= k == |obtained| == |made| <= |order|
      invariant directory.entries == Copied(obtained)
      invariant forall i :: 0 <= i < k ==> fetches[order[i]] == Some(obtained[i])
      invariant downloader.calls == old(downloader.calls) + made && Made(made, order, calls)
    {
      var name := order[k];
      var got := FetchOne(tables[name], sha, calls[name], downloader, fetches[name]);
      MadeOneMore(made, order, calls, calls[name]);
      made := made + CallMade(calls[name]);
      if got.None? { return; }
      directory.entries := directory.entries[got.value.0 := File(got.value.1)];
      CopyOneMore(obtained, got.value);
      obtained := obtained + [got.value];
      k := k + 1;
    }
    completed := true;
  }

  // ---- `acquire` ----

  /** The URL `acquire` gives the downloader for one index, or `None` where it refuses. */
  function AcquireUrl(credential: string, index: string): Option<string> {
    match Host(index)
    case None => None
    case Some(host) =>
      if PrivateHost(host) then
        var url := Credentialed(credential, host, index);
        if ReparsesTo(url, host) then Some(url) else None
      else if PublicHost(host) then Some(index)
      else None
  }

  /** The credentialed form of a private index: its own path, query and fragment under
      an authority that carries the credential to the registry. */
  ghost function PrivateUrl(credential: string, index: string): string
    requires Https(index) && Urlsplit(index).Split?
  {
    var s := Urlsplit(index);
    Urlunsplit(Authority(credential, PRIVATE_HOST), s.path, s.query, s.fragment)
  }

  /** What a credential must be for its URL to pass the reparse check. */
  ghost predicate Passes(credential: string) {
    var seen := CredentialedUrl.Seen(credential);
    && !Bracketed(seen)
    && (CredentialedUrl.SeenWhole(credential) || ('@' in seen && Hostname(seen) == PRIVATE_HOST))
  }

  /** The URL handed to the downloader, exactly: for the registry the credentialed one,
      when the credential passes; for a public host the index untouched; none elsewhere. */
  lemma AcquireUrlExactly(credential: string, index: string, url: string)
    ensures AcquireUrl(credential, index) == Some(url)
      <==> && Host(index).Some?
           && if Host(index).value == PRIVATE_HOST then Passes(credential) && url == PrivateUrl(credential, index)
              else (Host(index).value == PUBLIC_HOST || Host(index).value == "files.pythonhosted.org") && url == index
  {
    if Host(index) == Some(PRIVATE_HOST) {
      CredentialedUrl.PrivateHostIsPlain();
      CredentialedUrl.ReparseVerdict(credential, PRIVATE_HOST, index);
    }
  }

  /** Any credential without a slash, question mark, hash, bracket, tab or line break passes. */
  lemma CleanPasses(credential: string)
    requires CredentialedUrl.CleanAuthority(credential)
    ensures Passes(credential)
  {
    CredentialedUrl.PrivateHostIsPlain();
    CredentialedUrl.PrivateIndexSplits();
    CredentialedUrl.RoundTrip(credential, PRIVATE_HOST, PRIVATE_INDEX);
    CredentialedUrl.ReparseVerdict(credential, PRIVATE_HOST, PRIVATE_INDEX);
  }

  /** Such a URL names the registry. */
  lemma PrivateUrlNamesTheRegistry(credential: string, index: string)
    requires Https(index) && Urlsplit(index).Split? && Passes(credential)
    ensures Https(PrivateUrl(credential, index)) && ReparsesTo(PrivateUrl(credential, index), PRIVATE_HOST)
  {
    CredentialedUrl.PrivateHostIsPlain();
    CredentialedUrl.ReparseVerdict(credential, PRIVATE_HOST, index);
  }

  function AcquireCall(credential: string, name: string, item: Reviewed.Item): Option<Call> {
    match AcquireUrl(credential, item.index)
    case None => None
    case Some(url) => Some(Call(url, name, item.version))
  }

  function AcquireCalls(credential: string, plan: Reviewed.Plan): CallPlan {
    map n | n in plan :: AcquireCall(credential, n, plan[n])
  }

  ghost predicate Screened(plan: Reviewed.Plan) {
    forall n :: n in plan ==> AllowedIndex(plan[n].index)
  }

  /** A check over the whole plan, package after package. */
  method CheckAll(indexes: map<string, string>, order: seq<string>, allows: string -> bool) returns (ok: bool)
    requires Enumerates(order, indexes.Keys)
    ensures ok <==> forall n :: n in indexes ==> allows(indexes[n])
  {
    assert forall i :: 0 <= i < |order| ==> order[i] in order;
    for k := 0 to |order|
      invariant forall i :: 0 <= i < k ==> allows(indexes[order[i]])
    {
      if !allows(indexes[order[k]]) { return false; }
    }
    return true;
  }

  function Indexes(plan: Reviewed.Plan): map<string, string> {
    map n | n in plan :: plan[n].index
  }

  /** The host screen over the whole plan, before any effect. */
  method Screen(plan: Reviewed.Plan, order: seq<string>) returns (ok: bool)
    requires Enumerates(order, plan.Keys)
    ensures ok <==> Screened(plan)
  {
    assert Indexes(plan).Keys == plan.Keys;
    ok := CheckAll(Indexes(plan), order, AllowedIndex);
    assert forall n :: n in plan ==> Indexes(plan)[n] == plan[n].index;
  }

  /** `acquire` once its checks have passed: the loop, then the surplus sweep. */
  method FillAndSweep(tables: Tables, order: seq<string>, calls: CallPlan, directory: Directory,
                      sha: Bytes -> string, downloader: Downloader)
    returns (ok: bool, ghost obtained: Obtained, ghost made: seq<Call>)
    requires Enumerates(order, tables.Keys) && calls.Keys == tables.Keys
    requires directory.status == Missing
    modifies directory, downloader
    ensures directory.status == Present && directory.entries == Copied(obtained)
    ensures Stopped(FetchAll(tables, sha, downloader.answer, calls), order, obtained)
    ensures downloader.calls == old(downloader.calls) + made && CallsMade(made, order, calls, |obtained|)
    ensures ok <==> |obtained| == |order| && NoSurplus(directory.entries)
  {
    directory.status, directory.entries := Present, map[];
    assert forall i :: 0 <= i < |order| ==> order[i] in order;
    ok, obtained, made := Fill(tables, order, calls, directory, sha, downloader, FetchAll(tables, sha, downloader.answer, calls));
    if ok { ok := forall f | f in directory.entries :: RegularWheel(f, directory.entries[f]); }
  }

  /** `acquire`. `order` is the plan's packages as the loop takes them. Nothing is
      touched or downloaded without a credential, an allowed host for every package
      and a destination that does not exist yet. */
  method Acquire(plan: Reviewed.Plan, order: seq<string>, directory: Directory, credential: string,
                 sha: Bytes -> string, downloader: Downloader)
    returns (ok: bool, ghost obtained: Obtained, ghost made: seq<Call>)
    requires Enumerates(order, plan.Keys)
    modifies directory, downloader
    ensures downloader.calls == old(downloader.calls) + made
    ensures credential == "" || !Screened(plan) || old(directory.status) != Missing ==>
              && !ok && made == []
              && directory.status == old(directory.status) && directory.entries == old(directory.entries)
    ensures !(credential == "" || !Screened(plan) || old(directory.status) != Missing) ==>
              && directory.status == Present && directory.entries == Copied(obtained)
              && Stopped(FetchAll(ReviewedWheels(plan), sha, downloader.answer, AcquireCalls(credential, plan)), order, obtained)
              && CallsMade(made, order, AcquireCalls(credential, plan), |obtained|)
              && (ok <==> |obtained| == |order| && NoSurplus(directory.entries))
  {
    ok, obtained, made := false, [], [];
    if credential == "" { return; }
    var allowed := Screen(plan, order);
    if !allowed || directory.status != Missing { return; }
    var tables, calls := ReviewedWheels(plan), AcquireCalls(credential, plan);
    assert tables.Keys == plan.Keys && calls.Keys == plan.Keys;
    ok, obtained, made := FillAndSweep(tables, order, calls, directory, sha, downloader);
  }

  // ---- `warm` ----

  function WarmUrl(credential: seq<Byte>, item: Locked.Item): string {
    if item.registry.PrivateRegistry?
    then Credentialed(CredentialedUrl.Quote(credential), PRIVATE_HOST, PRIVATE_INDEX)
    else PUBLIC_INDEX
  }

  function WarmCalls(credential: seq<Byte>, plan: Locked.Plan): CallPlan {
    map n | n in plan :: Some(Call(WarmUrl(credential, plan[n]), n, plan[n].version))
  }

  /** `warm`. The destination is made before the credential is looked at; the reparse
      of the quoted URL is not a branch here because it never refuses. */
  method Warm(plan: Locked.Plan, order: seq<string>, directory: Directory, credential: seq<Byte>,
              sha: Bytes -> string, downloader: Downloader)
    returns (ok: bool, ghost obtained: Obtained, ghost made: seq<Call>)
    requires Enumerates(order, plan.Keys)
    modifies directory, downloader
    ensures downloader.calls == old(downloader.calls) + made
    ensures old(directory.status) != Missing ==>
              && !ok && made == []
              && directory.status == old(directory.status) && directory.entries == old(directory.entries)
    ensures old(directory.status) == Missing && credential == [] ==>
              !ok && made == [] && directory.status == Present && directory.entries == map[]
    ensures old(directory.status) == Missing && credential != [] ==>
              && directory.status == Present && directory.entries == Copied(obtained)
              && Stopped(FetchAll(LockedWheels(plan), sha, downloader.answer, WarmCalls(credential, plan)), order, obtained)
              && CallsMade(made, order, WarmCalls(credential, plan), |obtained|)
              && (ok <==> |obtained| == |order|
                          && exists s :: Exact(LockedWheels(plan), sha, directory.entries, s))
  {
    ok, obtained, made := false, [], [];
    if directory.status != Missing { return; }
    directory.status, directory.entries := Present, map[];
    if credential == [] { return; }
    assert ReparsesTo(WarmUrl(credential, Locked.Item("", Locked.PrivateRegistry, map[])), PRIVATE_HOST) by {
      CredentialedUrl.QuotedNeverRefused(credential);
    }
    assert forall i :: 0 <= i < |order| ==> order[i] in order;
    var completed;
    completed, obtained, made := Fill(LockedWheels(plan), order, WarmCalls(credential, plan), directory, sha, downloader,
                                      FetchAll(LockedWheels(plan), sha, downloader.answer, WarmCalls(credential, plan)));
    if !completed { return; }
    var selected := Verify(LockedWheels(plan), sha, directory);
    ok := selected.Some?;
  }

  // ---- what a completed run leaves ----

  /** Under a plan `build_plan` accepts, `acquire`'s surplus sweep never refuses a
      completed loop, and the directory it leaves is one `verify` accepts under every
      plan `load_plan` accepts for the same manifest and lock. */
  lemma AcquiredIsVerified(manifest: Document, lock: Document, reviewed: Reviewed.Plan, locked: Locked.Plan,
                           order: seq<string>, calls: CallPlan, sha: Bytes -> string, answer: Call -> Download,
                           obtained: Obtained)
    requires Reviewed.Plans(manifest, lock, reviewed) && Locked.Plans(manifest, lock, locked)
    requires Enumerates(order, reviewed.Keys)
    requires Stopped(FetchAll(ReviewedWheels(reviewed), sha, answer, calls), order, obtained) && |obtained| == |order|
    ensures NoSurplus(Copied(obtained)) && |Copied(obtained)| == |locked|
    ensures Exact(LockedWheels(locked), sha, Copied(obtained), Selection(order, obtained))
  {
    var tables := LockedWheels(locked);
    assert tables.Keys == locked.Keys;
    assert |tables| == |locked|;
    assert tables == ReviewedWheels(reviewed) by { PlannersAgree(manifest, lock, reviewed, locked); }
    assert WellLabelled(tables) by { ReviewedPlanIsLabelled(manifest, lock, reviewed); }
    CompletedIsExact(tables, sha, answer, order, calls, obtained);
  }

  /** Under a plan `load_plan` accepts, `warm`'s closing `verify` never refuses a
      completed loop, and the directory ends with one wheel per package. */
  lemma WarmedIsVerified(manifest: Document, lock: Document, plan: Locked.Plan, order: seq<string>,
                         calls: CallPlan, sha: Bytes -> string, answer: Call -> Download, obtained: Obtained)
    requires Locked.Plans(manifest, lock, plan) && Enumerates(order, plan.Keys)
    requires Stopped(FetchAll(LockedWheels(plan), sha, answer, calls), order, obtained) && |obtained| == |order|
    ensures |Copied(obtained)| == |plan|
    ensures Exact(LockedWheels(plan), sha, Copied(obtained), Selection(order, obtained))
  {
    var tables := LockedWheels(plan);
    assert tables.Keys == plan.Keys;
    assert |tables| == |plan|;
    assert WellLabelled(tables) by { LockedPlanIsLabelled(manifest, lock, plan); }
    CompletedIsExact(tables, sha, answer, order, calls, obtained);
  }

  /** The producer fills, the consumer judges: whenever both planners accept the same
      manifest and lock, what `acquire` reports complete under the one plan `verify`
      accepts under the other. */
  method AcquireThenVerify(manifest: Document, lock: Document, reviewed: Reviewed.Plan, locked: Locked.Plan, order: seq<string>,
                           directory: Directory, credential: string, sha: Bytes -> string, downloader: Downloader)
    returns (ok: bool, r: Option<map<string, string>>)
    requires Reviewed.Plans(manifest, lock, reviewed) && Locked.Plans(manifest, lock, locked)
    requires Enumerates(order, reviewed.Keys)
    modifies directory, downloader
    ensures ok ==> r.Some? && Exact(LockedWheels(locked), sha, directory.entries, r.value)
  {
    ghost var obtained, made;
    ok, obtained, made := Acquire(reviewed, order, directory, credential, sha, downloader);
    if ok {
      AcquiredIsVerified(manifest, lock, reviewed, locked, order, AcquireCalls(credential, reviewed), sha, downloader.answer, obtained);
    }
    r := Verify(LockedWheels(locked), sha, directory);
  }

  /** Each planned package's index, under an accepted plan: the registry's for a private
      one, the public index for any other. */
  lemma PlannedIndex(manifest: Document, lock: Document, plan: Reviewed.Plan, n: string)
    requires Reviewed.Plans(manifest, lock, plan) && n in plan
    ensures AllowedIndex(plan[n].index) && (FetchedPrivately(plan[n]) || plan[n].index == PUBLIC_INDEX)
  {
    PrivateResolution(manifest, lock, plan);
    var packages := Packages(lock).value;
    var row := PlannedRow(plan, Reviewed.Rows(Reviewed.Private(Dependencies(manifest).value), packages), n);
    assert ReadPackage(packages[row]).value.name == n;
  }

  /** `acquire`'s host screen never refuses a plan `build_plan` made. */
  lemma AcceptedIsScreened(manifest: Document, lock: Document, plan: Reviewed.Plan)
    requires Reviewed.Plans(manifest, lock, plan)
    ensures Screened(plan)
  {
    forall n | n in plan ensures AllowedIndex(plan[n].index) { PlannedIndex(manifest, lock, plan, n); }
  }

  /** The call `acquire` makes for each package of an accepted plan. */
  lemma AcquireCallMeans(manifest: Document, lock: Document, plan: Reviewed.Plan, credential: string, n: string)
    requires Reviewed.Plans(manifest, lock, plan) && n in plan
    ensures AcquireCalls(credential, plan)[n]
      == if !FetchedPrivately(plan[n]) then Some(Call(PUBLIC_INDEX, n, plan[n].version))
         else if Passes(credential) then Some(Call(PrivateUrl(credential, plan[n].index), n, plan[n].version))
         else None
  {
    PlannedIndex(manifest, lock, plan, n);
    CredentialedUrl.PublicIndexHost();
    HostsDiffer();
    if AcquireUrl(credential, plan[n].index).Some? {
      AcquireUrlExactly(credential, plan[n].index, AcquireUrl(credential, plan[n].index).value);
    }
    AcquireUrlExactly(credential, plan[n].index, PUBLIC_INDEX);
    if FetchedPrivately(plan[n]) { AcquireUrlExactly(credential, plan[n].index, PrivateUrl(credential, plan[n].index)); }
  }

  /** Every call `acquire` makes under an accepted plan: a package planned from the
      registry is asked of it, by its index's own path and with the credential; any
      other is asked of the bare public index, so the credential is never sent to a
      public host. */
  lemma CredentialGoesOnlyPrivately(manifest: Document, lock: Document, plan: Reviewed.Plan, credential: string,
                                    order: seq<string>, made: seq<Call>, i: nat)
    requires Reviewed.Plans(manifest, lock, plan)
    requires Made(made, order, AcquireCalls(credential, plan)) && i < |made|
    ensures order[i] in plan && made[i].name == order[i] && made[i].version == plan[order[i]].version
    ensures if FetchedPrivately(plan[order[i]])
            then made[i].index == PrivateUrl(credential, plan[order[i]].index)
                 && Https(made[i].index) && ReparsesTo(made[i].index, PRIVATE_HOST)
            else made[i].index == PUBLIC_INDEX
  {
    var n := order[i];
    assert n in AcquireCalls(credential, plan);
    AcquireCallMeans(manifest, lock, plan, credential, n);
    if FetchedPrivately(plan[n]) { PrivateUrlNamesTheRegistry(credential, plan[n].index); }
  }

  /** Every call `warm` makes: a private package is asked of the registry, with the
      quoted credential and the registry's own path; a public one of the bare public
      index. */
  lemma WarmAsksTheRightIndex(plan: Locked.Plan, credential: seq<Byte>, order: seq<string>, made: seq<Call>, i: nat)
    requires Made(made, order, WarmCalls(credential, plan)) && i < |made|
    ensures order[i] in plan && made[i].name == order[i] && made[i].version == plan[order[i]].version
    ensures if plan[order[i]].registry.PublicRegistry? then made[i].index == PUBLIC_INDEX
            else Https(made[i].index)
                 && Urlsplit(made[i].index)
                    == Split.Split(Authority(CredentialedUrl.Quote(credential), PRIVATE_HOST), REGISTRY_PATH, "", "")
  {
    assert order[i] in WarmCalls(credential, plan);
    CredentialedUrl.QuotedNeverRefused(credential);
  }

  // ---- a downloader that serves what is locked ----

  /** The downloader serves one locked wheel of the package with the locked bytes. */
  ghost predicate Serves(answer: Call -> Download, call: Call, wheels: Wheels, sha: Bytes -> string) {
    exists got :: answer(call) == Staged([got]) && got.0 in wheels && sha(got.1) == wheels[got.0]
  }

  lemma ServedIsFetched(answer: Call -> Download, call: Call, wheels: Wheels, sha: Bytes -> string)
    requires Serves(answer, call, wheels, sha)
    ensures Fetched(wheels, sha, answer, Some(call)).Some?
  {
    var got :| answer(call) == Staged([got]) && got.0 in wheels && sha(got.1) == wheels[got.0];
    AcceptMeans(wheels, sha, answer(call), got);
  }

  /** With a credential that passes and a downloader that serves the locked wheels,
      `acquire`'s loop over an accepted plan gets past every package. */
  lemma AcquireCompletes(manifest: Document, lock: Document, plan: Reviewed.Plan, credential: string, order: seq<string>,
                         sha: Bytes -> string, answer: Call -> Download, obtained: Obtained)
    requires Reviewed.Plans(manifest, lock, plan) && Passes(credential) && Enumerates(order, plan.Keys)
    requires forall n :: n in plan ==>
               Serves(answer, Call(if FetchedPrivately(plan[n]) then PrivateUrl(credential, plan[n].index) else PUBLIC_INDEX, n, plan[n].version),
                      plan[n].wheels, sha)
    requires Stopped(FetchAll(ReviewedWheels(plan), sha, answer, AcquireCalls(credential, plan)), order, obtained)
    ensures |obtained| == |order|
  {
    if |obtained| < |order| {
      var n := order[|obtained|];
      assert n in order && n in plan;
      AcquireCallMeans(manifest, lock, plan, credential, n);
      ServedIsFetched(answer, AcquireCalls(credential, plan)[n].value, plan[n].wheels, sha);
      assert false;
    }
  }

  /** So does `warm`'s, with any credential. */
  lemma WarmCompletes(plan: Locked.Plan, credential: seq<Byte>, order: seq<string>, sha: Bytes -> string,
                      answer: Call -> Download, obtained: Obtained)
    requires Enumerates(order, plan.Keys)
    requires forall n :: n in plan ==> Serves(answer, Call(WarmUrl(credential, plan[n]), n, plan[n].version), plan[n].wheels, sha)
    requires Stopped(FetchAll(LockedWheels(plan), sha, answer, WarmCalls(credential, plan)), order, obtained)
    ensures |obtained| == |order|
  {
    if |obtained| < |order| {
      var n := order[|obtained|];
      assert n in order && n in plan;
      ServedIsFetched(answer, Call(WarmUrl(credential, plan[n]), n, plan[n].version), plan[n].wheels, sha);
      assert false;
    }
  }

  // ---- the two checks, told by their data ----

  /** The screen passes exactly the plans whose every index names one of the three hosts. */
  lemma ScreenedExactly(plan: Reviewed.Plan)
    ensures Screened(plan)
      <==> forall n :: n in plan ==>
             Host(plan[n].index) in {Some("registry.dotmac.io"), Some("pypi.org"), Some("files.pythonhosted.org")}
  {
  }

  /** The sweep passes exactly the directories of regular files with a wheel's suffix. */
  lemma NoSurplusExactly(entries: map<string, Entry>)
    ensures NoSurplus(entries) <==> forall f :: f in entries ==> entries[f].File? && EndsWith(f, ".whl") && |f| > 4
  {
    forall f | f in entries ensures RegularWheel(f, entries[f]) <==> entries[f].File? && EndsWith(f, ".whl") && |f| > 4 {
      WheelSuffixIs(f);
    }
  }
}
