/** Which manifests and locks each planner accepts, told from the documents alone, and
    what one lock entry's row is. */
module PlanAcceptance {
  import opened Text
  import opened Names
  import opened WheelName
  import opened Toml
  import opened IndexUrl
  import opened LockRecords
  import opened PlanAgreement
  import Reviewed = ReviewedPlan
  import Locked = LockedPlan

  predicate TextAt(v: Value, key: string, text: string) {
    v.Table? && Get(v.entries, key) == Some(Str(text))
  }

  /** A lock entry with its own spelling of the name. */
  predicate Entry(v: Value, raw: string, version: string, files: seq<Value>) {
    TextAt(v, "name", raw) && TextAt(v, "version", version) && Get(v.entries, "files") == Some(Arr(files))
  }

  predicate FileEntry(v: Value, f: string, h: string) { TextAt(v, "file", f) && TextAt(v, "hash", h) }

  predicate Basename(f: string) { '/' !in f && f != "." }

  /** A file record lists a wheel. */
  predicate WheelEntry(v: Value) {
    ReadFile(v).Some? && EndsWith(ReadFile(v).value.name, ".whl")
  }

  /** The pattern matches the filename with the package's name, however it is spelled. */
  ghost predicate WheelOf(f: string, name: string) {
    exists parts :: Matches(f, parts) && Normalise(parts.name) == name
  }

  ghost predicate WheelAt(f: string, name: string, version: string) {
    exists parts :: Matches(f, parts) && Normalise(parts.name) == name && parts.version == version
  }

  lemma BelongsMeans(f: string, name: string)
    ensures Belongs(f, name) <==> WheelOf(f, name)
  {
    if Belongs(f, name) { PatternIsUnambiguous(f, Parse(f).value); }
    forall parts | Matches(f, parts) && Normalise(parts.name) == name ensures Belongs(f, name) { PatternIsUnambiguous(f, parts); }
  }

  lemma BelongsAt(f: string, name: string, version: string)
    ensures Belongs(f, name) && Parse(f).value.version == version <==> WheelAt(f, name, version)
  {
    if Belongs(f, name) { PatternIsUnambiguous(f, Parse(f).value); }
    forall parts | Matches(f, parts) && Normalise(parts.name) == name && parts.version == version
      ensures Belongs(f, name) && Parse(f).value.version == version
    {
      PatternIsUnambiguous(f, parts);
    }
  }

  lemma ReadFileMeans(v: Value)
    ensures ReadFile(v).Some? <==> exists f, h :: FileEntry(v, f, h)
    ensures forall f, h :: FileEntry(v, f, h) <==> ReadFile(v) == Some(FileRecord(f, h))
  {
    if ReadFile(v).Some? { assert FileEntry(v, ReadFile(v).value.name, ReadFile(v).value.hash); }
  }

  lemma ReadPackageMeans(v: Value)
    ensures forall raw, version, files :: Entry(v, raw, version, files) ==>
              ReadPackage(v) == Some(Package(Normalise(raw), version, files, Get(v.entries, "source")))
    ensures ReadPackage(v).Some? ==>
              exists raw :: Entry(v, raw, ReadPackage(v).value.version, ReadPackage(v).value.files)
  {
    if ReadPackage(v).Some? {
      assert Entry(v, Get(v.entries, "name").value.text, ReadPackage(v).value.version, ReadPackage(v).value.files);
    }
  }

  /** A wheel table is not empty when some record lists a wheel under a hash. */
  lemma SomeWheel(files: seq<Value>)
    requires forall i :: 0 <= i < |files| && WheelEntry(files[i]) ==> IsHash(ReadFile(files[i]).value.hash)
    ensures WheelTable(files) != map[] <==> exists i :: 0 <= i < |files| && WheelEntry(files[i])
  {
    if f :| f in WheelTable(files) {
      TableMeans(files, f);
      var i: nat :| ListsWheel(files, i, f);
      assert WheelEntry(files[i]);
    }
    forall i | 0 <= i < |files| && WheelEntry(files[i]) ensures WheelTable(files) != map[] {
      var f := ReadFile(files[i]).value.name;
      assert ListsWheel(files, i, f);
      TableMeans(files, f);
    }
  }

  // ---- `build_plan` ----

  /** A file record `build_plan` lets pass: both texts, and of a wheel a hash, a
      basename and the package's own name. */
  ghost predicate ReviewedFile(name: string, v: Value) {
    exists f, h :: FileEntry(v, f, h) && (EndsWith(f, ".whl") ==> IsHash(h) && Basename(f) && WheelOf(f, name))
  }

  ghost predicate ReviewedFiles(name: string, files: seq<Value>) {
    && (forall i :: 0 <= i < |files| ==> ReviewedFile(name, files[i]))
    && (exists i :: 0 <= i < |files| && WheelEntry(files[i]))
  }

  lemma ReviewedFileMeans(name: string, v: Value)
    ensures Reviewed.FileOk(name, v) <==> ReviewedFile(name, v)
    ensures ReviewedFile(name, v) && WheelEntry(v) ==> IsHash(ReadFile(v).value.hash)
  {
    ReadFileMeans(v);
    if ReadFile(v).Some? {
      PathNameIsWhole(ReadFile(v).value.name);
      BelongsMeans(ReadFile(v).value.name, name);
    }
  }

  lemma ReviewedFilesMean(name: string, files: seq<Value>)
    ensures Reviewed.PackageWheels(name, files) == if ReviewedFiles(name, files) then Some(WheelTable(files)) else None
  {
    forall i | 0 <= i < |files| ensures Reviewed.FileOk(name, files[i]) <==> ReviewedFile(name, files[i]) {
      ReviewedFileMeans(name, files[i]);
    }
    if Reviewed.FilesOk(name, files) {
      forall i | 0 <= i < |files| && WheelEntry(files[i]) ensures IsHash(ReadFile(files[i]).value.hash) {
        ReviewedFileMeans(name, files[i]);
      }
      SomeWheel(files);
    }
  }

  /** A URL on the registry is its own index when the name is declared and nothing
      decorates it; one on a public host stands for the public index. */
  predicate UrlAt(declared: bool, url: string, index: string) {
    && Host(url).Some?
    && if Host(url).value == PRIVATE_HOST then declared && !Decorated(url) && index == url
       else (Host(url).value == PUBLIC_HOST || Host(url).value == "files.pythonhosted.org") && index == PUBLIC_INDEX
  }

  /** The index a package's source stands for: no source is the public index, and only
      for a name nobody declares private. */
  ghost predicate SourcedAt(declared: bool, source: Option<Value>, index: string) {
    match source
    case None => !declared && index == PUBLIC_INDEX
    case Some(v) => exists url :: TextAt(v, "url", url) && UrlAt(declared, url, index)
  }

  lemma UrlMeans(declared: bool, url: string, index: string)
    ensures Reviewed.SourceIndex(declared, url) == Some(index) <==> UrlAt(declared, url, index)
  {
  }

  lemma SourceUrlMeans(v: Value)
    requires v.Table?
    ensures forall url :: TextAt(v, "url", url) ==> Reviewed.SourceUrl(v.entries) == url
    ensures TextAt(v, "url", Reviewed.SourceUrl(v.entries)) || Host(Reviewed.SourceUrl(v.entries)).None?
  {
    assert Host("") == None;
  }

  lemma IndexMeans(private: set<string>, p: Package, index: string)
    ensures Reviewed.Index(private, p) == Some(index) <==> SourcedAt(p.name in private, p.source, index)
  {
    if p.source.Some? && p.source.value.Table? {
      SourceUrlMeans(p.source.value);
      UrlMeans(p.name in private, Reviewed.SourceUrl(p.source.value.entries), index);
    }
  }

  /** One lock entry's row in the producer's plan, exactly. */
  ghost predicate ReviewedEntry(private: set<string>, v: Value, name: string, item: Reviewed.Item) {
    exists raw, files ::
      && Entry(v, raw, item.version, files) && name == Normalise(raw) && IsName(name) && IsVersion(item.version)
      && SourcedAt(name in private, Get(v.entries, "source"), item.index)
      && ReviewedFiles(name, files) && item.wheels == WheelTable(files)
  }

  lemma ReviewedRowExactly(private: set<string>, v: Value, name: string, item: Reviewed.Item)
    ensures Reviewed.Row(private, v) == Some((name, item)) <==> ReviewedEntry(private, v, name, item)
  {
    ReadPackageMeans(v);
    if ReadPackage(v).Some? {
      var p := ReadPackage(v).value;
      IndexMeans(private, p, item.index);
      ReviewedFilesMean(p.name, p.files);
      if Reviewed.Row(private, v) == Some((name, item)) {
        var raw :| Entry(v, raw, p.version, p.files);
        assert ReviewedEntry(private, v, name, item);
      }
    }
  }

  // ---- `load_plan` ----

  /** A file record `load_plan` lets pass: a hash and a basename on every one, and of a
      wheel the package's own name and version. */
  ghost predicate LockedFile(name: string, version: string, v: Value) {
    exists f, h :: FileEntry(v, f, h) && IsHash(h) && Basename(f) && (EndsWith(f, ".whl") ==> WheelAt(f, name, version))
  }

  ghost predicate LockedFiles(name: string, version: string, files: seq<Value>) {
    && (forall i :: 0 <= i < |files| ==> LockedFile(name, version, files[i]))
    && (forall i, j :: 0 <= i < j < |files| && WheelEntry(files[i]) && WheelEntry(files[j]) ==>
          ReadFile(files[i]).value.name != ReadFile(files[j]).value.name)
    && (exists i :: 0 <= i < |files| && WheelEntry(files[i]))
  }

  lemma LockedFileMeans(name: string, version: string, v: Value)
    ensures Locked.FileOk(name, version, v) <==> LockedFile(name, version, v)
    ensures LockedFile(name, version, v) ==> ReadFile(v).Some? && IsHash(ReadFile(v).value.hash)
  {
    ReadFileMeans(v);
    if ReadFile(v).Some? {
      PathNameIsWhole(ReadFile(v).value.name);
      BelongsAt(ReadFile(v).value.name, name, version);
    }
  }

  lemma FirstMeans(files: seq<Value>, k: nat)
    requires k < |files| && WheelEntry(files[k])
    requires forall i :: 0 <= i < |files| && WheelEntry(files[i]) ==> IsHash(ReadFile(files[i]).value.hash)
    ensures Locked.FirstOf(files, k)
      <==> forall i :: 0 <= i < k && WheelEntry(files[i]) ==> ReadFile(files[i]).value.name != ReadFile(files[k]).value.name
  {
    var f := ReadFile(files[k]).value.name;
    TableMeans(files[..k], f);
    if i: nat :| ListsWheel(files[..k], i, f) {
      assert files[..k][i] == files[i] && WheelEntry(files[i]);
    }
    forall i | 0 <= i < k && WheelEntry(files[i]) && ReadFile(files[i]).value.name == f ensures ListsWheel(files[..k], i, f) {
      assert files[..k][i] == files[i];
    }
  }

  lemma NoRepeatMeans(files: seq<Value>)
    requires forall i :: 0 <= i < |files| && WheelEntry(files[i]) ==> IsHash(ReadFile(files[i]).value.hash)
    ensures Locked.NoRepeatedWheel(files)
      <==> forall i, j :: 0 <= i < j < |files| && WheelEntry(files[i]) && WheelEntry(files[j]) ==>
             ReadFile(files[i]).value.name != ReadFile(files[j]).value.name
  {
    forall k | 0 <= k < |files| && WheelEntry(files[k])
      ensures Locked.FirstOf(files, k)
        <==> forall i :: 0 <= i < k && WheelEntry(files[i]) ==> ReadFile(files[i]).value.name != ReadFile(files[k]).value.name
    {
      FirstMeans(files, k);
    }
  }

  lemma LockedFilesMean(name: string, version: string, files: seq<Value>)
    ensures Locked.PackageWheels(name, version, files)
      == if LockedFiles(name, version, files) then Some(WheelTable(files)) else None
  {
    forall i | 0 <= i < |files|
      ensures Locked.FileOk(name, version, files[i]) <==> LockedFile(name, version, files[i])
      ensures LockedFile(name, version, files[i]) ==> ReadFile(files[i]).Some? && IsHash(ReadFile(files[i]).value.hash)
    {
      LockedFileMeans(name, version, files[i]);
    }
    if Locked.FilesOk(name, version, files) {
      NoRepeatMeans(files);
      SomeWheel(files);
    }
  }

  /** The registry's own source record: these three texts and no other key. */
  ghost predicate RegistryRecord(v: Value) {
    && TextAt(v, "type", "legacy") && TextAt(v, "url", PRIVATE_INDEX) && TextAt(v, "reference", "forgejo")
    && forall key :: Get(v.entries, key).Some? ==> key == "type" || key == "url" || key == "reference"
  }

  lemma {:induction false} KeysMean(entries: seq<(string, Value)>, i: nat)
    requires i < |entries|
    ensures Get(entries, entries[i].0).Some?
  {
    if entries[0].0 != entries[i].0 { KeysMean(entries[1..], i - 1); }
  }

  lemma {:induction false} GetMeans(entries: seq<(string, Value)>, key: string)
    ensures Get(entries, key).Some? <==> exists i :: 0 <= i < |entries| && entries[i].0 == key
  {
    if entries != [] {
      GetMeans(entries[1..], key);
      assert forall i :: 0 <= i < |entries| - 1 ==> entries[1..][i] == entries[i + 1];
      if i :| 0 <= i < |entries| && entries[i].0 == key && i > 0 { assert entries[1..][i - 1].0 == key; }
    }
  }

  lemma RegistryRecordMeans(v: Value)
    ensures Locked.IsRegistrySource(v) <==> RegistryRecord(v)
  {
    if v.Table? {
      forall key ensures Get(v.entries, key).Some? <==> exists i :: 0 <= i < |v.entries| && v.entries[i].0 == key { GetMeans(v.entries, key); }
      forall i | 0 <= i < |v.entries| ensures Get(v.entries, v.entries[i].0).Some? { KeysMean(v.entries, i); }
    }
  }

  /** A pinned package is at its pin, from the registry's own record; any other has no source. */
  ghost predicate PinnedAt(pins: Locked.Pins, name: string, version: string, source: Option<Value>, registry: Locked.Registry) {
    if name in pins then version == pins[name] && source.Some? && RegistryRecord(source.value) && registry.PrivateRegistry?
    else source.None? && registry.PublicRegistry?
  }

  lemma RegistryMeans(pins: Locked.Pins, p: Package)
    ensures forall registry :: Locked.RegistryOf(pins, p) == Some(registry) <==> PinnedAt(pins, p.name, p.version, p.source, registry)
  {
    if p.source.Some? { RegistryRecordMeans(p.source.value); }
  }

  /** One lock entry's row in the consumer's plan, exactly. */
  ghost predicate LockedEntry(pins: Locked.Pins, v: Value, name: string, item: Locked.Item) {
    exists raw, files ::
      && Entry(v, raw, item.version, files) && name == Normalise(raw) && IsName(name)
      && PinnedAt(pins, name, item.version, Get(v.entries, "source"), item.registry)
      && LockedFiles(name, item.version, files) && item.wheels == WheelTable(files)
  }

  lemma LockedRowExactly(pins: Locked.Pins, v: Value, name: string, item: Locked.Item)
    ensures Locked.Row(pins, v) == Some((name, item)) <==> LockedEntry(pins, v, name, item)
  {
    ReadPackageMeans(v);
    if ReadPackage(v).Some? {
      var p := ReadPackage(v).value;
      LockedFilesMean(p.name, p.version, p.files);
      RegistryMeans(pins, p);
      if Locked.Row(pins, v) == Some((name, item)) {
        var raw :| Entry(v, raw, p.version, p.files);
        assert LockedEntry(pins, v, name, item);
      }
    }
  }

  // ---- whole documents ----

  /** No two entries carry names that PEP 503 calls the same. */
  predicate NamesDistinct(packages: seq<Value>) {
    forall i, j :: 0 <= i < j < |packages| && ReadPackage(packages[i]).Some? && ReadPackage(packages[j]).Some? ==>
      ReadPackage(packages[i]).value.name != ReadPackage(packages[j]).value.name
  }

  predicate Locks(packages: seq<Value>, name: string) {
    exists i :: 0 <= i < |packages| && ReadPackage(packages[i]).Some? && ReadPackage(packages[i]).value.name == name
  }

  lemma {:induction false} TableExists<T>(rows: seq<(string, T)>) returns (plan: map<string, T>)
    requires forall i, j :: 0 <= i < j < |rows| ==> rows[i].0 != rows[j].0
    ensures Tabulates(plan, rows)
  {
    if rows == [] {
      plan := map[];
    } else {
      var k := |rows| - 1;
      plan := TableExists(rows[..k]);
      assert rows == rows[..k] + [rows[k]];
      TabulatesOneMore(plan, rows[..k], rows[k]);
      plan := plan[rows[k].0 := rows[k].1];
    }
  }

  /** Records mean a plan exactly when each reads and no two read to one name. */
  /** A reader keeps the name its record has. */
  ghost predicate KeepsNames<T(!new)>(read: Value -> Option<(string, T)>) {
    forall v :: read(v).Some? ==> ReadPackage(v).Some? && read(v).value.0 == ReadPackage(v).value.name
  }

  /** Records mean a plan that has these names exactly when each reads, no two read to
      one name, and each name is locked. */
  ghost predicate MeansWith<T(!new)>(read: Value -> Option<(string, T)>, packages: seq<Value>, names: set<string>) {
    exists plan :: Means(read, packages, plan) && names <= plan.Keys
  }

  lemma MeansDistinct<T(!new)>(read: Value -> Option<(string, T)>, packages: seq<Value>, plan: map<string, T>)
    requires KeepsNames(read) && Means(read, packages, plan)
    ensures AllRead(read, packages) && NamesDistinct(packages)
  {
    var rows := ReadRows(read, packages);
    assert forall i :: 0 <= i < |rows| ==> rows[i].0 == ReadPackage(packages[i]).value.name;
  }

  lemma DistinctMeans<T(!new)>(read: Value -> Option<(string, T)>, packages: seq<Value>) returns (plan: map<string, T>)
    requires KeepsNames(read) && AllRead(read, packages) && NamesDistinct(packages)
    ensures Means(read, packages, plan)
  {
    var rows := ReadRows(read, packages);
    assert forall i :: 0 <= i < |rows| ==> rows[i].0 == ReadPackage(packages[i]).value.name;
    plan := TableExists(rows);
  }

  lemma PlannedNames<T(!new)>(read: Value -> Option<(string, T)>, packages: seq<Value>, plan: map<string, T>, name: string)
    requires KeepsNames(read) && Means(read, packages, plan)
    ensures name in plan <==> Locks(packages, name)
  {
    var rows := ReadRows(read, packages);
    if name in plan { var i := PlannedRow(plan, rows, name); }
    if i :| 0 <= i < |packages| && ReadPackage(packages[i]).Some? && ReadPackage(packages[i]).value.name == name {
      assert rows[i].0 in plan;
    }
  }

  lemma PlansExactly<T(!new)>(read: Value -> Option<(string, T)>, packages: seq<Value>, names: set<string>)
    requires KeepsNames(read)
    ensures MeansWith(read, packages, names)
      <==> AllRead(read, packages) && NamesDistinct(packages) && forall n :: n in names ==> Locks(packages, n)
  {
    if plan :| Means(read, packages, plan) && names <= plan.Keys {
      MeansDistinct(read, packages, plan);
      forall n | n in names ensures Locks(packages, n) { PlannedNames(read, packages, plan, n); }
    }
    if AllRead(read, packages) && NamesDistinct(packages) && forall n :: n in names ==> Locks(packages, n) {
      var plan := DistinctMeans(read, packages);
      forall n | n in names ensures n in plan { PlannedNames(read, packages, plan, n); }
    }
  }

  ghost predicate ReviewedReads(private: set<string>, v: Value) { exists name, item :: ReviewedEntry(private, v, name, item) }

  ghost predicate LockedReads(pins: Locked.Pins, v: Value) { exists name, item :: LockedEntry(pins, v, name, item) }

  lemma ReviewedReadsMeans(private: set<string>, v: Value)
    ensures Reviewed.Row(private, v).Some? <==> ReviewedReads(private, v)
  {
    if Reviewed.Row(private, v).Some? {
      var row := Reviewed.Row(private, v).value;
      ReviewedRowExactly(private, v, row.0, row.1);
    }
    forall name, item | ReviewedEntry(private, v, name, item) ensures Reviewed.Row(private, v).Some? {
      ReviewedRowExactly(private, v, name, item);
    }
  }

  lemma LockedReadsMeans(pins: Locked.Pins, v: Value)
    ensures Locked.Row(pins, v).Some? <==> LockedReads(pins, v)
  {
    if Locked.Row(pins, v).Some? {
      var row := Locked.Row(pins, v).value;
      LockedRowExactly(pins, v, row.0, row.1);
    }
    forall name, item | LockedEntry(pins, v, name, item) ensures Locked.Row(pins, v).Some? {
      LockedRowExactly(pins, v, name, item);
    }
  }

  lemma ReviewedReader(private: set<string>, packages: seq<Value>)
    ensures KeepsNames(Reviewed.Reader(private))
    ensures AllRead(Reviewed.Reader(private), packages) <==> forall i :: 0 <= i < |packages| ==> ReviewedReads(private, packages[i])
  {
    forall i | 0 <= i < |packages| ensures Reviewed.Row(private, packages[i]).Some? <==> ReviewedReads(private, packages[i]) {
      ReviewedReadsMeans(private, packages[i]);
    }
  }

  lemma LockedReader(pins: Locked.Pins, packages: seq<Value>)
    ensures KeepsNames(Locked.Reader(pins))
    ensures AllRead(Locked.Reader(pins), packages) <==> forall i :: 0 <= i < |packages| ==> LockedReads(pins, packages[i])
  {
    forall i | 0 <= i < |packages| ensures Locked.Row(pins, packages[i]).Some? <==> LockedReads(pins, packages[i]) {
      LockedReadsMeans(pins, packages[i]);
    }
  }

  /** A declaration with a source that is not empty. */
  ghost predicate NamesSource(e: (string, Value)) {
    e.1.Table? && exists source :: Get(e.1.entries, "source") == Some(source) && Truthy(source)
  }

  /** A declaration pinned to the registry, at a version that is one plain text. */
  ghost predicate PinnedDeclaration(e: (string, Value)) {
    TextAt(e.1, "source", "forgejo") && exists version :: TextAt(e.1, "version", version) && IsVersion(version)
  }

  lemma DeclarationsMean(e: (string, Value))
    ensures Reviewed.DeclaresSource(e) <==> NamesSource(e)
    ensures Locked.FromForgejo(e) <==> TextAt(e.1, "source", "forgejo")
    ensures Locked.FromForgejo(e) ==> (Locked.Pinned(e) <==> PinnedDeclaration(e))
  {
    if e.1.Table? && Get(e.1.entries, "version").Some? && Get(e.1.entries, "version").value.Str? {
      assert TextAt(e.1, "version", Get(e.1.entries, "version").value.text);
    }
  }

  /** What `build_plan` asks of a manifest and lock. */
  ghost predicate ReviewedAcceptable(declared: seq<(string, Value)>, packages: seq<Value>) {
    && (forall i :: 0 <= i < |declared| && NamesSource(declared[i]) ==>
          InPrivateScope(Normalise(declared[i].0)) && Locks(packages, Normalise(declared[i].0)))
    && (forall i :: 0 <= i < |packages| ==> ReviewedReads(Reviewed.Private(declared), packages[i]))
    && NamesDistinct(packages)
  }

  ghost predicate ReviewedPlanned(manifest: Document, lock: Document) { exists plan :: Reviewed.Plans(manifest, lock, plan) }

  lemma PrivateMeans(declared: seq<(string, Value)>, packages: seq<Value>)
    ensures Reviewed.InScope(Reviewed.Private(declared)) && (forall n :: n in Reviewed.Private(declared) ==> Locks(packages, n))
      <==> forall i :: 0 <= i < |declared| && Reviewed.DeclaresSource(declared[i]) ==>
             InPrivateScope(Normalise(declared[i].0)) && Locks(packages, Normalise(declared[i].0))
  {
    forall i | 0 <= i < |declared| && Reviewed.DeclaresSource(declared[i])
      ensures Normalise(declared[i].0) in Reviewed.Private(declared)
    {
    }
  }

  lemma ReviewedFillsExactly(declared: seq<(string, Value)>, packages: seq<Value>)
    ensures Reviewed.InScope(Reviewed.Private(declared))
            && MeansWith(Reviewed.Reader(Reviewed.Private(declared)), packages, Reviewed.Private(declared))
      <==> ReviewedAcceptable(declared, packages)
  {
    var private := Reviewed.Private(declared);
    ReviewedReader(private, packages);
    PlansExactly(Reviewed.Reader(private), packages, private);
    PrivateMeans(declared, packages);
    forall i | 0 <= i < |declared| ensures Reviewed.DeclaresSource(declared[i]) <==> NamesSource(declared[i]) { DeclarationsMean(declared[i]); }
  }

  /** `build_plan` accepts exactly the manifests whose sourced dependencies are in the
      private scope and locked, with a lock of at least one entry, each one readable,
      no two of the same name. */
  lemma ReviewedAcceptsExactly(manifest: Document, lock: Document)
    ensures ReviewedPlanned(manifest, lock)
      <==> && Dependencies(manifest).Ok? && Packages(lock).Some?
           && ReviewedAcceptable(Dependencies(manifest).value, Packages(lock).value)
  {
    if Dependencies(manifest).Ok? && Packages(lock).Some? {
      var declared, packages := Dependencies(manifest).value, Packages(lock).value;
      var private := Reviewed.Private(declared);
      ReviewedFillsExactly(declared, packages);
      if plan :| Reviewed.Plans(manifest, lock, plan) {
        assert Means(Reviewed.Reader(private), packages, plan) && private <= plan.Keys;
      }
      if Reviewed.InScope(private) && MeansWith(Reviewed.Reader(private), packages, private) {
        var plan :| Means(Reviewed.Reader(private), packages, plan) && private <= plan.Keys;
        assert Reviewed.Plans(manifest, lock, plan);
      }
    }
  }

  /** What `load_plan` asks of them. */
  ghost predicate LockedAcceptable(declared: seq<(string, Value)>, packages: seq<Value>) {
    && (forall i :: 0 <= i < |declared| && TextAt(declared[i].1, "source", "forgejo") ==>
          PinnedDeclaration(declared[i]) && Locks(packages, Normalise(declared[i].0)))
    && (exists i :: 0 <= i < |declared| && TextAt(declared[i].1, "source", "forgejo"))
    && (forall i :: 0 <= i < |packages| ==> LockedReads(Locked.PinTable(declared), packages[i]))
    && NamesDistinct(packages)
  }

  ghost predicate LockedPlanned(manifest: Document, lock: Document) { exists plan :: Locked.Plans(manifest, lock, plan) }

  lemma PinnedNames(declared: seq<(string, Value)>)
    ensures forall n :: n in Locked.PinTable(declared)
              <==> exists i :: 0 <= i < |declared| && Locked.FromForgejo(declared[i]) && Normalise(declared[i].0) == n
  {
    forall n ensures n in Locked.PinTable(declared)
      <==> exists i :: 0 <= i < |declared| && Locked.FromForgejo(declared[i]) && Normalise(declared[i].0) == n
    {
      Locked.PinsMean(declared, n);
    }
  }

  lemma PinsLocked(declared: seq<(string, Value)>, packages: seq<Value>)
    ensures Locked.PinTable(declared) != map[] <==> exists i :: 0 <= i < |declared| && Locked.FromForgejo(declared[i])
    ensures (forall n :: n in Locked.PinTable(declared).Keys ==> Locks(packages, n))
      <==> forall i :: 0 <= i < |declared| && Locked.FromForgejo(declared[i]) ==> Locks(packages, Normalise(declared[i].0))
  {
    PinnedNames(declared);
    if n :| n in Locked.PinTable(declared) {
      var i :| 0 <= i < |declared| && Locked.FromForgejo(declared[i]) && Normalise(declared[i].0) == n;
    }
    forall i | 0 <= i < |declared| && Locked.FromForgejo(declared[i]) ensures Normalise(declared[i].0) in Locked.PinTable(declared) {}
  }

  lemma LockedFillsExactly(declared: seq<(string, Value)>, packages: seq<Value>)
    ensures Locked.PinsOk(declared)
            && MeansWith(Locked.Reader(Locked.PinTable(declared)), packages, Locked.PinTable(declared).Keys)
      <==> LockedAcceptable(declared, packages)
  {
    var pins := Locked.PinTable(declared);
    LockedReader(pins, packages);
    PlansExactly(Locked.Reader(pins), packages, pins.Keys);
    PinsLocked(declared, packages);
    forall i | 0 <= i < |declared|
      ensures Locked.FromForgejo(declared[i]) <==> TextAt(declared[i].1, "source", "forgejo")
      ensures Locked.FromForgejo(declared[i]) ==> (Locked.Pinned(declared[i]) <==> PinnedDeclaration(declared[i]))
    {
      DeclarationsMean(declared[i]);
    }
  }

  /** `load_plan` accepts exactly the manifests with a registry dependency, each of them
      exactly pinned and locked, with a lock of at least one entry, each one readable,
      no two of the same name. */
  lemma LockedAcceptsExactly(manifest: Document, lock: Document)
    ensures LockedPlanned(manifest, lock)
      <==> && Dependencies(manifest).Ok? && Packages(lock).Some?
           && LockedAcceptable(Dependencies(manifest).value, Packages(lock).value)
  {
    if Dependencies(manifest).Ok? && Packages(lock).Some? {
      var declared, packages := Dependencies(manifest).value, Packages(lock).value;
      var pins := Locked.PinTable(declared);
      LockedFillsExactly(declared, packages);
      if plan :| Locked.Plans(manifest, lock, plan) {
        assert Means(Locked.Reader(pins), packages, plan) && pins.Keys <= plan.Keys;
      }
      if Locked.PinsOk(declared) && MeansWith(Locked.Reader(pins), packages, pins.Keys) {
        var plan :| Means(Locked.Reader(pins), packages, plan) && pins.Keys <= plan.Keys;
        assert Locked.Plans(manifest, lock, plan);
      }
    }
  }
}
