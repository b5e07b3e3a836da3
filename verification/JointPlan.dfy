/** Manifests and locks both planners accept: one package of the private registry,
    pinned, with one wheel, whatever its name, version and digest. */
module JointPlan {
  import opened Text
  import opened Names
  import opened WheelName
  import opened Toml
  import opened IndexUrl
  import opened LockRecords
  import CredentialedUrl
  import opened PlanAgreement
  import PlanAcceptance
  import Reviewed = ReviewedPlan
  import Locked = LockedPlan

  function PackageName(word: string): string { "dotmac-" + word }

  /** The wheel's own spelling of the name uses an underscore. */
  function WheelParts(word: string, version: string): Parts {
    Parts("dotmac_" + word, version, None, "py3", "none", "any")
  }

  function Filename(word: string, version: string): string { Print(WheelParts(word, version)) }

  /** The registry's source record, with any URL. */
  function SourceAt(url: string): Value {
    Table([("type", Str("legacy")), ("url", Str(url)), ("reference", Str("forgejo"))])
  }

  function Source(): Value { SourceAt(PRIVATE_INDEX) }

  function FileEntry(word: string, version: string, digest: string): Value {
    Table([("file", Str(Filename(word, version))), ("hash", Str("sha256:" + digest))])
  }

  function PackageEntry(word: string, version: string, digest: string, source: Value): Value {
    Table([("name", Str(PackageName(word))), ("version", Str(version)),
           ("files", Arr([FileEntry(word, version, digest)])), ("source", source)])
  }

  function Declaration(version: string): Value {
    Table([("version", Str(version)), ("source", Str("forgejo"))])
  }

  function Declared(word: string, version: string): seq<(string, Value)> {
    [(PackageName(word), Declaration(version))]
  }

  function Manifest(word: string, version: string): Document {
    [("tool", Table([("poetry", Table([("dependencies", Table(Declared(word, version)))]))]))]
  }

  function Lock(word: string, version: string, digest: string, source: Value): Document {
    [("package", Arr([PackageEntry(word, version, digest, source)]))]
  }

  predicate Usable(word: string, version: string, digest: string) {
    LowerWord(word) && IsVersion(version) && HyphenFree(version) && IsHexDigest(digest)
  }

  lemma WordIsName(word: string)
    requires LowerWord(word)
    ensures HyphenFree(word) && NoSeparator(word) && IsName(word)
  {
    assert Join([word]) == word;
    SplitJoin([word]);
  }

  lemma LowerWordIsFixed(word: string)
    requires LowerWord(word)
    ensures Lower(word) == word
  {
  }

  lemma WheelNameNormalises(prefix: string, word: string)
    requires LowerWord(prefix) && LowerWord(word)
    ensures Normalise(prefix + ("_" + word)) == prefix + ("-" + word)
  {
    WordIsName(prefix);
    WordIsName(word);
    NormaliseByRuns(prefix, "_", word);
    NormaliseBetweenRuns(prefix);
    NormaliseBetweenRuns(word);
    LowerWordIsFixed(prefix);
    LowerWordIsFixed(word);
  }

  lemma Prefixes(word: string)
    ensures LowerWord("dotmac")
    ensures "dotmac" + ("_" + word) == "dotmac_" + word && "dotmac" + ("-" + word) == PackageName(word)
    ensures StartsWith(PackageName(word), "dotmac-") && PackageName(word)[7..] == word
  {
  }

  /** The package's name is in the private scope and is how its wheel's name normalises. */
  lemma NameFits(word: string)
    requires LowerWord(word)
    ensures InPrivateScope(PackageName(word)) && IsName(PackageName(word))
    ensures Normalise(PackageName(word)) == PackageName(word)
    ensures Normalise("dotmac_" + word) == PackageName(word)
  {
    Prefixes(word);
    WordIsName(word);
    ScopedIsName(word);
    NamesAreNormal(PackageName(word));
    WheelNameNormalises("dotmac", word);
  }

  lemma ScopedIsName(word: string)
    requires LowerWord(word)
    ensures IsName(PackageName(word))
  {
    var words := ["dotmac", word];
    assert LowerWord("dotmac");
    assert Join(words) == PackageName(word) by {
      assert words[1..] == [word];
    }
    assert LowerWords(words);
    NamePattern(PackageName(word));
  }

  lemma VersionFits(version: string)
    requires IsVersion(version) && HyphenFree(version)
    ensures Field(version) && '/' !in version
  {
  }

  lemma PartsFit(word: string, version: string)
    requires LowerWord(word) && IsVersion(version) && HyphenFree(version)
    ensures Drawn(Filename(word, version), WheelParts(word, version))
  {
    VersionFits(version);
    assert NameField(WheelParts(word, version).name);
  }

  lemma DrawnReads(f: string, p: Parts)
    requires Drawn(f, p)
    ensures Parse(f) == Some(p) && EndsWith(f, ".whl")
  {
    MatchesIsDrawn(f, p);
    PatternIsUnambiguous(f, p);
    WheelSuffix(f, p);
  }

  lemma WheelFits(word: string, version: string)
    requires LowerWord(word) && IsVersion(version) && HyphenFree(version)
    ensures Parse(Filename(word, version)) == Some(WheelParts(word, version))
    ensures Belongs(Filename(word, version), PackageName(word))
    ensures EndsWith(Filename(word, version), ".whl") && PathName(Filename(word, version)) == Filename(word, version)
  {
    var f := Filename(word, version);
    PartsFit(word, version);
    DrawnReads(f, WheelParts(word, version));
    NameFits(word);
    VersionFits(version);
    NoSlash(word, version);
    PathNameIsWhole(f);
  }

  lemma NoSlash(word: string, version: string)
    requires LowerWord(word) && '/' !in version
    ensures '/' !in Filename(word, version)
  {
    assert '/' !in "dotmac_" + word;
    assert '/' !in Tags(WheelParts(word, version));
  }

  lemma {:induction false} GetAt(entries: seq<(string, Value)>, i: nat, key: string)
    requires i < |entries| && entries[i].0 == key && forall j :: 0 <= j < i ==> entries[j].0 != key
    ensures Get(entries, key) == Some(entries[i].1)
  {
    if i > 0 {
      assert forall j :: 0 <= j < i - 1 ==> entries[1..][j] == entries[j + 1];
      GetAt(entries[1..], i - 1, key);
    }
  }

  lemma FileReads(word: string, version: string, digest: string)
    ensures ReadFile(FileEntry(word, version, digest)) == Some(FileRecord(Filename(word, version), "sha256:" + digest))
  {
    var entries := FileEntry(word, version, digest).entries;
    assert "file"[0] != "hash"[0];
    GetAt(entries, 0, "file");
    GetAt(entries, 1, "hash");
  }

  lemma HashFits(digest: string)
    requires IsHexDigest(digest)
    ensures IsHash("sha256:" + digest) && ("sha256:" + digest)[7..] == digest
  {
  }

  /** The file records under either planner, and the table they make. */
  lemma FilesFit(word: string, version: string, digest: string, f: Value)
    requires Usable(word, version, digest) && f == FileEntry(word, version, digest)
    ensures Reviewed.FileOk(PackageName(word), f) && Locked.FileOk(PackageName(word), version, f)
    ensures WheelTable([f]) == map[Filename(word, version) := digest]
  {
    FileReads(word, version, digest);
    HashFits(digest);
    WheelFits(word, version);
    TableStep([f], 0);
    assert [f][..1] == [f] && [f][..0] == [];
  }

  lemma OnlyFile(name: string, version: string, f: Value, wheels: Wheels)
    requires Reviewed.FileOk(name, f) && Locked.FileOk(name, version, f) && WheelTable([f]) == wheels && wheels != map[]
    ensures Reviewed.PackageWheels(name, [f]) == Some(wheels)
    ensures Locked.PackageWheels(name, version, [f]) == Some(wheels)
  {
    assert [f][..0] == [];
    assert Locked.FirstOf([f], 0);
  }

  lemma OneFileFits(word: string, version: string, digest: string)
    requires Usable(word, version, digest)
    ensures var wheels, files := map[Filename(word, version) := digest], [FileEntry(word, version, digest)];
            && Reviewed.PackageWheels(PackageName(word), files) == Some(wheels)
            && Locked.PackageWheels(PackageName(word), version, files) == Some(wheels)
  {
    var f, wheels := FileEntry(word, version, digest), map[Filename(word, version) := digest];
    FilesFit(word, version, digest, f);
    assert Filename(word, version) in wheels;
    OnlyFile(PackageName(word), version, f, wheels);
  }

  lemma PackageReads(word: string, version: string, digest: string, source: Value)
    requires LowerWord(word)
    ensures ReadPackage(PackageEntry(word, version, digest, source))
      == Some(Package(PackageName(word), version, [FileEntry(word, version, digest)], Some(source)))
  {
    var entries := PackageEntry(word, version, digest, source).entries;
    assert |"name"| == 4 && |"version"| == 7 && |"files"| == 5 && |"source"| == 6;
    GetAt(entries, 0, "name");
    GetAt(entries, 1, "version");
    GetAt(entries, 2, "files");
    GetAt(entries, 3, "source");
    NameFits(word);
  }

  lemma SourceAtReads(url: string)
    ensures Reviewed.SourceUrl(SourceAt(url).entries) == url
    ensures Locked.IsRegistrySource(SourceAt(url)) <==> url == PRIVATE_INDEX
  {
    var entries := SourceAt(url).entries;
    assert |"type"| == 4 && |"url"| == 3 && |"reference"| == 9;
    GetAt(entries, 0, "type");
    GetAt(entries, 1, "url");
    GetAt(entries, 2, "reference");
  }

  lemma RegistryIsBare()
    ensures Https(PRIVATE_INDEX) && Host(PRIVATE_INDEX) == Some(PRIVATE_HOST) && !Decorated(PRIVATE_INDEX)
  {
    CredentialedUrl.PrivateIndexSplits();
    CredentialedUrl.PrivateHostIsPlain();
    BareHost(PRIVATE_HOST);
  }

  lemma BareHost(host: string)
    requires CredentialedUrl.PlainHost(host)
    ensures CredentialedUrl.Undecorated(host)
  {
    CredentialedUrl.BareUser("", host);
    CredentialedUrl.BareName(host, "");
    assert "" + host == host && host + "" == host;
  }

  lemma IndexOf(private: set<string>, p: Package, url: string)
    requires p.source.Some? && p.source.value.Table? && Reviewed.SourceUrl(p.source.value.entries) == url
    requires Https(url) && Host(url).Some? && PrivateHost(Host(url).value) && !Decorated(url) && p.name in private
    ensures Reviewed.Index(private, p) == Some(url)
  {
  }

  lemma IndexFits(private: set<string>, p: Package)
    requires p.source == Some(Source()) && p.name in private
    ensures Reviewed.Index(private, p) == Some(PRIVATE_INDEX)
  {
    SourceAtReads(PRIVATE_INDEX);
    RegistryIsBare();
    IndexOf(private, p, PRIVATE_INDEX);
  }

  lemma ReviewedRowOf(private: set<string>, v: Value, p: Package, index: string, wheels: Wheels)
    requires ReadPackage(v) == Some(p) && IsName(p.name) && IsVersion(p.version)
    requires Reviewed.Index(private, p) == Some(index) && Reviewed.PackageWheels(p.name, p.files) == Some(wheels)
    ensures Reviewed.Row(private, v) == Some((p.name, Reviewed.Item(p.version, index, wheels)))
  {
  }

  lemma LockedRowOf(pins: Locked.Pins, v: Value, p: Package, wheels: Wheels)
    requires ReadPackage(v) == Some(p) && IsName(p.name) && p.name in pins && pins[p.name] == p.version
    requires p.source.Some? && Locked.IsRegistrySource(p.source.value)
    requires Locked.PackageWheels(p.name, p.version, p.files) == Some(wheels)
    ensures Locked.Row(pins, v) == Some((p.name, Locked.Item(p.version, Locked.PrivateRegistry, wheels)))
  {
  }

  lemma ReviewedRowFits(word: string, version: string, digest: string, source: Value, index: string)
    requires Usable(word, version, digest)
    requires forall p: Package :: p.name == PackageName(word) && p.source == Some(source) ==> Reviewed.Index({p.name}, p) == Some(index)
    ensures Reviewed.Row({PackageName(word)}, PackageEntry(word, version, digest, source))
      == Some((PackageName(word), Reviewed.Item(version, index, map[Filename(word, version) := digest])))
  {
    var name, v := PackageName(word), PackageEntry(word, version, digest, source);
    var p := Package(name, version, [FileEntry(word, version, digest)], Some(source));
    NameFits(word);
    OneFileFits(word, version, digest);
    PackageReads(word, version, digest, source);
    ReviewedRowOf({name}, v, p, index, map[Filename(word, version) := digest]);
  }

  lemma LockedRowFits(word: string, version: string, digest: string)
    requires Usable(word, version, digest)
    ensures Locked.Row(map[PackageName(word) := version], PackageEntry(word, version, digest, Source()))
      == Some((PackageName(word), Locked.Item(version, Locked.PrivateRegistry, map[Filename(word, version) := digest])))
  {
    var name, v := PackageName(word), PackageEntry(word, version, digest, Source());
    var p := Package(name, version, [FileEntry(word, version, digest)], Some(Source()));
    NameFits(word);
    OneFileFits(word, version, digest);
    PackageReads(word, version, digest, Source());
    SourceAtReads(PRIVATE_INDEX);
    LockedRowOf(map[name := version], v, p, map[Filename(word, version) := digest]);
  }

  lemma DeclarationReads(version: string)
    ensures Get(Declaration(version).entries, "version") == Some(Str(version))
    ensures Get(Declaration(version).entries, "source") == Some(Str("forgejo"))
  {
    assert |"version"| == 7 && |"source"| == 6;
    GetAt(Declaration(version).entries, 0, "version");
    GetAt(Declaration(version).entries, 1, "source");
  }

  lemma OneDeclaration(e: (string, Value), name: string, version: string)
    requires Reviewed.DeclaresSource(e) && Locked.FromForgejo(e) && Locked.Pinned(e)
    requires Normalise(e.0) == name && Locked.PinnedVersion(e) == version
    ensures Reviewed.Private([e]) == {name}
    ensures Locked.PinsOk([e]) && Locked.PinTable([e]) == map[name := version]
  {
    assert [e][0] == e && [e][..0] == [];
    assert name in Locked.PinTable([e]);
  }

  lemma DeclarationsFit(word: string, version: string)
    requires LowerWord(word) && IsVersion(version)
    ensures Dependencies(Manifest(word, version)) == Ok(Declared(word, version))
    ensures Reviewed.Private(Declared(word, version)) == {PackageName(word)}
    ensures Locked.PinsOk(Declared(word, version))
    ensures Locked.PinTable(Declared(word, version)) == map[PackageName(word) := version]
  {
    NameFits(word);
    DeclarationReads(version);
    OneDeclaration(Declared(word, version)[0], PackageName(word), version);
  }

  lemma OneRow<T>(read: Value -> Option<(string, T)>, v: Value, name: string, item: T)
    requires read(v) == Some((name, item))
    ensures Means(read, [v], map[name := item])
  {
    assert ReadRows(read, [v])[0].0 == name;
  }

  /** `build_plan` on such a project, whatever source record its lock carries. */
  lemma ReviewedAccepts(word: string, version: string, digest: string, source: Value, index: string)
    requires Usable(word, version, digest)
    requires forall p: Package :: p.name == PackageName(word) && p.source == Some(source) ==> Reviewed.Index({p.name}, p) == Some(index)
    ensures Reviewed.Plans(Manifest(word, version), Lock(word, version, digest, source),
                           map[PackageName(word) := Reviewed.Item(version, index, map[Filename(word, version) := digest])])
  {
    var name, v := PackageName(word), PackageEntry(word, version, digest, source);
    NameFits(word);
    DeclarationsFit(word, version);
    ReviewedRowFits(word, version, digest, source, index);
    OneRow(Reviewed.Reader({name}), v, name, Reviewed.Item(version, index, map[Filename(word, version) := digest]));
  }

  /** Every one-package project of the private registry is accepted by both planners,
      with the same wheel, privately in both: what the planners are proved to agree on
      is not empty. */
  lemma BothPlannersAccept(word: string, version: string, digest: string)
    requires Usable(word, version, digest)
    ensures var manifest, lock := Manifest(word, version), Lock(word, version, digest, Source());
            var wheels := map[Filename(word, version) := digest];
            && Reviewed.Plans(manifest, lock, map[PackageName(word) := Reviewed.Item(version, PRIVATE_INDEX, wheels)])
            && Locked.Plans(manifest, lock, map[PackageName(word) := Locked.Item(version, Locked.PrivateRegistry, wheels)])
  {
    var name, v := PackageName(word), PackageEntry(word, version, digest, Source());
    forall p: Package | p.name == name && p.source == Some(Source()) ensures Reviewed.Index({p.name}, p) == Some(PRIVATE_INDEX) {
      IndexFits({p.name}, p);
    }
    ReviewedAccepts(word, version, digest, Source(), PRIVATE_INDEX);
    DeclarationsFit(word, version);
    LockedRowFits(word, version, digest);
    OneRow(Locked.Reader(map[name := version]), v, name,
           Locked.Item(version, Locked.PrivateRegistry, map[Filename(word, version) := digest]));
  }

  /** A lock's source record that names a public host. */
  ghost predicate NamesPublicHost(source: Value) {
    && source.Table? && Host(Reviewed.SourceUrl(source.entries)).Some?
    && PublicHost(Host(Reviewed.SourceUrl(source.entries)).value)
  }

  lemma PrivateHostIsNotPublic()
    ensures !PublicHost(PRIVATE_HOST)
  {
    assert PRIVATE_HOST[0] == 'r' && PUBLIC_HOST[0] == 'p' && "files.pythonhosted.org"[0] == 'f';
  }

  lemma PublicSourceMeans(source: Value, p: Package)
    requires NamesPublicHost(source) && p.source == Some(source)
    ensures Reviewed.Index({p.name}, p) == Some(PUBLIC_INDEX)
  {
    PrivateHostIsNotPublic();
  }

  lemma NotTheRegistry(source: Value)
    requires NamesPublicHost(source)
    ensures !Locked.IsRegistrySource(source)
  {
    PrivateHostIsNotPublic();
    CredentialedUrl.PrivateIndexSplits();
  }

  lemma NoRowWithoutRegistry(pins: Locked.Pins, v: Value, p: Package)
    requires ReadPackage(v) == Some(p) && Locked.RegistryOf(pins, p).None?
    ensures Locked.Row(pins, v).None?
  {
  }

  /** The dependency-confusion control is one-way. A package the manifest declares
      private, pins and takes from the registry is planned by `build_plan` from the
      public index as soon as its lock entry's source record names any public host,
      whatever the package and the rest of the record; `load_plan` refuses that lock. */
  lemma DeclaredPrivateYetPublic(word: string, version: string, digest: string, source: Value)
    requires Usable(word, version, digest) && NamesPublicHost(source)
    ensures var manifest, lock := Manifest(word, version), Lock(word, version, digest, source);
            && Dependencies(manifest) == Ok(Declared(word, version))
            && PackageName(word) in Reviewed.Private(Declared(word, version))
            && Reviewed.Plans(manifest, lock,
                              map[PackageName(word) := Reviewed.Item(version, PUBLIC_INDEX, map[Filename(word, version) := digest])])
            && forall plan :: !Locked.Plans(manifest, lock, plan)
  {
    forall p: Package | p.name == PackageName(word) && p.source == Some(source) ensures Reviewed.Index({p.name}, p) == Some(PUBLIC_INDEX) {
      PublicSourceMeans(source, p);
    }
    ReviewedAccepts(word, version, digest, source, PUBLIC_INDEX);
    DeclarationsFit(word, version);
    NotTheRegistry(source);
    OtherSourceRefused(word, version, digest, source);
  }

  /** There is such a record: the public index's own URL. */
  lemma PublicIndexIsSuchASource()
    ensures NamesPublicHost(Table([("url", Str(PUBLIC_INDEX))]))
  {
    CredentialedUrl.PublicIndexHost();
    GetAt([("url", Str(PUBLIC_INDEX))], 0, "url");
  }

  /** Every private index URL the host and decoration checks admit is planned as it is
      written, while `load_plan` compares the URL's whole text and takes only the
      registry's own. */
  lemma AdmittedIsPlanned(word: string, version: string, digest: string, url: string)
    requires Usable(word, version, digest)
    requires Https(url) && Host(url) == Some(PRIVATE_HOST) && !Decorated(url)
    ensures var manifest, lock := Manifest(word, version), Lock(word, version, digest, SourceAt(url));
            && Reviewed.Plans(manifest, lock,
                              map[PackageName(word) := Reviewed.Item(version, url, map[Filename(word, version) := digest])])
            && (url != PRIVATE_INDEX ==> forall plan :: !Locked.Plans(manifest, lock, plan))
  {
    var name, source := PackageName(word), SourceAt(url);
    SourceAtReads(url);
    forall p: Package | p.name == name && p.source == Some(source) ensures Reviewed.Index({p.name}, p) == Some(url) {
      IndexOf({p.name}, p, url);
    }
    ReviewedAccepts(word, version, digest, source, url);
    if url != PRIVATE_INDEX { OtherSourceRefused(word, version, digest, source); }
  }

  lemma OtherSourceRefused(word: string, version: string, digest: string, source: Value)
    requires Usable(word, version, digest) && !Locked.IsRegistrySource(source)
    ensures forall plan :: !Locked.Plans(Manifest(word, version), Lock(word, version, digest, source), plan)
  {
    var v, pins := PackageEntry(word, version, digest, source), map[PackageName(word) := version];
    DeclarationsFit(word, version);
    PackageReads(word, version, digest, source);
    NoRowWithoutRegistry(pins, v, ReadPackage(v).value);
    UnreadMeansNothing(Locked.Reader(pins), [v], 0);
  }

  /** What is asked for is a bare origin and path; `build_plan` accepts a manifest and lock
      whose private index carries an empty userinfo, an empty port, a query or a
      fragment, any of them with any path, and plans the package from that URL.
      `load_plan` refuses the lock. */
  lemma DecoratedIndexIsPlanned(word: string, version: string, digest: string,
                                u: string, p: string, path: string, query: string, fragment: string)
    requires Usable(word, version, digest)
    requires CredentialedUrl.BareUserInfo(u) && CredentialedUrl.BarePort(p) && CredentialedUrl.Components(path, query, fragment)
    requires u != "" || p != "" || query != "" || fragment != ""
    ensures var url := Urlunsplit(u + PRIVATE_HOST + p, path, query, fragment);
            var manifest, lock := Manifest(word, version), Lock(word, version, digest, SourceAt(url));
            && Reviewed.Plans(manifest, lock,
                              map[PackageName(word) := Reviewed.Item(version, url, map[Filename(word, version) := digest])])
            && forall plan :: !Locked.Plans(manifest, lock, plan)
  {
    CredentialedUrl.DecoratedIsAdmitted(u, p, path, query, fragment);
    CredentialedUrl.PrivateIndexSplits();
    assert u + PRIVATE_HOST + p == PRIVATE_HOST ==> |u| + |p| == 0;
    AdmittedIsPlanned(word, version, digest, Urlunsplit(u + PRIVATE_HOST + p, path, query, fragment));
  }

  // ---- packages without a source ----

  /** A lock entry with one wheel and no source. */
  function SourcelessEntry(name: string, version: string, f: string, digest: string): Value {
    Table([("name", Str(name)), ("version", Str(version)),
           ("files", Arr([Table([("file", Str(f)), ("hash", Str("sha256:" + digest))])]))])
  }

  /** A usable name and version, and a wheel of that name and version. */
  ghost predicate UsableWheel(name: string, version: string, f: string, digest: string) {
    && IsName(name) && IsVersion(version) && IsHexDigest(digest)
    && PlanAcceptance.Basename(f) && PlanAcceptance.WheelAt(f, name, version)
  }

  lemma SourcelessReads(name: string, version: string, f: string, digest: string)
    ensures var v, file := SourcelessEntry(name, version, f, digest), Table([("file", Str(f)), ("hash", Str("sha256:" + digest))]);
            && PlanAcceptance.Entry(v, name, version, [file]) && Get(v.entries, "source") == None
            && PlanAcceptance.FileEntry(file, f, "sha256:" + digest) && ReadFile(file) == Some(FileRecord(f, "sha256:" + digest))
  {
    var entries := SourcelessEntry(name, version, f, digest).entries;
    var file := [("file", Str(f)), ("hash", Str("sha256:" + digest))];
    assert |"name"| == 4 && |"version"| == 7 && |"files"| == 5 && |"source"| == 6;
    assert "file"[0] != "hash"[0];
    GetAt(entries, 0, "name");
    GetAt(entries, 1, "version");
    GetAt(entries, 2, "files");
    GetNone(entries, "source");
    GetAt(file, 0, "file");
    GetAt(file, 1, "hash");
  }

  lemma {:induction false} GetNone(entries: seq<(string, Value)>, key: string)
    requires forall j :: 0 <= j < |entries| ==> entries[j].0 != key
    ensures Get(entries, key) == None
  {
    if entries != [] { GetNone(entries[1..], key); }
  }

  lemma SourcelessFiles(name: string, version: string, f: string, digest: string, file: Value)
    requires UsableWheel(name, version, f, digest) && PlanAcceptance.FileEntry(file, f, "sha256:" + digest)
    requires ReadFile(file) == Some(FileRecord(f, "sha256:" + digest))
    ensures PlanAcceptance.ReviewedFiles(name, [file]) && PlanAcceptance.LockedFiles(name, version, [file])
    ensures WheelTable([file]) == map[f := digest]
  {
    var parts :| Matches(f, parts) && Normalise(parts.name) == name && parts.version == version;
    WheelSuffix(f, parts);
    HashFits(digest);
    assert PlanAcceptance.WheelEntry([file][0]);
    TableStep([file], 0);
    assert [file][..1] == [file] && [file][..0] == [];
  }

  /** The rows of an entry without a source whose name nobody declares: the public index
      for one planner, the public registry for the other. */
  lemma SourcelessRows(private: set<string>, pins: Locked.Pins, name: string, version: string, f: string, digest: string)
    requires UsableWheel(name, version, f, digest)
    ensures name !in private ==>
              Reviewed.Row(private, SourcelessEntry(name, version, f, digest))
              == Some((name, Reviewed.Item(version, PUBLIC_INDEX, map[f := digest])))
    ensures name !in pins ==>
              Locked.Row(pins, SourcelessEntry(name, version, f, digest))
              == Some((name, Locked.Item(version, Locked.PublicRegistry, map[f := digest])))
  {
    var v, file := SourcelessEntry(name, version, f, digest), Table([("file", Str(f)), ("hash", Str("sha256:" + digest))]);
    var reviewed, locked := Reviewed.Item(version, PUBLIC_INDEX, map[f := digest]), Locked.Item(version, Locked.PublicRegistry, map[f := digest]);
    SourcelessReads(name, version, f, digest);
    SourcelessFiles(name, version, f, digest, file);
    NamesAreNormal(name);
    PlanAcceptance.ReviewedRowExactly(private, v, name, reviewed);
    PlanAcceptance.LockedRowExactly(pins, v, name, locked);
    assert name !in private ==> PlanAcceptance.SourcedAt(name in private, None, PUBLIC_INDEX);
  }

  lemma OneMoreRow<T>(read: Value -> Option<(string, T)>, packages: seq<Value>, plan: map<string, T>, v: Value, name: string, item: T)
    requires Means(read, packages, plan) && read(v) == Some((name, item)) && name !in plan
    ensures Means(read, packages + [v], plan[name := item])
  {
    assert (packages + [v])[..|packages|] == packages && (packages + [v])[..|packages| + 1] == packages + [v];
    MeansOneMore(read, packages + [v], |packages|, plan, name, item);
  }

  /** A lock `build_plan` accepts stays accepted with one more ordinary package: an entry
      without a source, of a new name, is planned from the public index. */
  lemma SourcelessIsPlanned(manifest: Document, lock: Document, longer: Document, plan: Reviewed.Plan,
                            name: string, version: string, f: string, digest: string)
    requires Reviewed.Plans(manifest, lock, plan) && name !in plan && UsableWheel(name, version, f, digest)
    requires Packages(longer) == Some(Packages(lock).value + [SourcelessEntry(name, version, f, digest)])
    ensures Reviewed.Plans(manifest, longer, plan[name := Reviewed.Item(version, PUBLIC_INDEX, map[f := digest])])
  {
    var private := Reviewed.Private(Dependencies(manifest).value);
    SourcelessRows(private, map[], name, version, f, digest);
    OneMoreRow(Reviewed.Reader(private), Packages(lock).value, plan, SourcelessEntry(name, version, f, digest), name,
               Reviewed.Item(version, PUBLIC_INDEX, map[f := digest]));
  }

  /** So does a lock `load_plan` accepts, with the package on the public registry. */
  lemma SourcelessIsLoaded(manifest: Document, lock: Document, longer: Document, plan: Locked.Plan,
                           name: string, version: string, f: string, digest: string)
    requires Locked.Plans(manifest, lock, plan) && name !in plan && UsableWheel(name, version, f, digest)
    requires Packages(longer) == Some(Packages(lock).value + [SourcelessEntry(name, version, f, digest)])
    ensures Locked.Plans(manifest, longer, plan[name := Locked.Item(version, Locked.PublicRegistry, map[f := digest])])
  {
    var pins := Locked.PinTable(Dependencies(manifest).value);
    SourcelessRows({}, pins, name, version, f, digest);
    OneMoreRow(Locked.Reader(pins), Packages(lock).value, plan, SourcelessEntry(name, version, f, digest), name,
               Locked.Item(version, Locked.PublicRegistry, map[f := digest]));
  }

  /** A manifest that declares nothing private, and a lock of one ordinary package. */
  lemma PublicAloneIsPlanned(manifest: Document, name: string, version: string, f: string, digest: string)
    requires Dependencies(manifest).Ok? && Reviewed.Private(Dependencies(manifest).value) == {}
    requires UsableWheel(name, version, f, digest)
    ensures Reviewed.Plans(manifest, [("package", Arr([SourcelessEntry(name, version, f, digest)]))],
                           map[name := Reviewed.Item(version, PUBLIC_INDEX, map[f := digest])])
  {
    SourcelessRows({}, map[], name, version, f, digest);
    OneRow(Reviewed.Reader({}), SourcelessEntry(name, version, f, digest), name, Reviewed.Item(version, PUBLIC_INDEX, map[f := digest]));
  }

  /** A pinned private package beside an ordinary public one: both planners accept, one
      privately and one publicly in both. */
  lemma PrivateBesidePublic(word: string, version: string, digest: string, name: string, version': string, f: string, digest': string)
    requires Usable(word, version, digest) && UsableWheel(name, version', f, digest') && name != PackageName(word)
    ensures var manifest := Manifest(word, version);
            var lock := [("package", Arr([PackageEntry(word, version, digest, Source()), SourcelessEntry(name, version', f, digest')]))];
            var wheels := map[Filename(word, version) := digest];
            && Reviewed.Plans(manifest, lock, map[PackageName(word) := Reviewed.Item(version, PRIVATE_INDEX, wheels)]
                                                 [name := Reviewed.Item(version', PUBLIC_INDEX, map[f := digest'])])
            && Locked.Plans(manifest, lock, map[PackageName(word) := Locked.Item(version, Locked.PrivateRegistry, wheels)]
                                               [name := Locked.Item(version', Locked.PublicRegistry, map[f := digest'])])
  {
    var manifest, one := Manifest(word, version), Lock(word, version, digest, Source());
    var wheels := map[Filename(word, version) := digest];
    var both := [("package", Arr([PackageEntry(word, version, digest, Source()), SourcelessEntry(name, version', f, digest')]))];
    BothPlannersAccept(word, version, digest);
    OneMorePackage(PackageEntry(word, version, digest, Source()), SourcelessEntry(name, version', f, digest'));
    SourcelessIsPlanned(manifest, one, both, map[PackageName(word) := Reviewed.Item(version, PRIVATE_INDEX, wheels)],
                        name, version', f, digest');
    SourcelessIsLoaded(manifest, one, both, map[PackageName(word) := Locked.Item(version, Locked.PrivateRegistry, wheels)],
                       name, version', f, digest');
  }

  lemma OneMorePackage(v: Value, w: Value)
    ensures Packages([("package", Arr([v]))]) == Some([v]) && Packages([("package", Arr([v, w]))]) == Some([v] + [w])
  {
    assert [v] + [w] == [v, w];
  }
}
