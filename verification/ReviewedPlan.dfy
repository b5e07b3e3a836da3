/** The producer's planner: `build_plan` of scripts/warm_reviewed_wheelhouse.py. */
module ReviewedPlan {
  import opened Text
  import opened Names
  import opened Toml
  import opened IndexUrl
  import opened LockRecords

  datatype Item = Item(version: string, index: string, wheels: Wheels)

  type Plan = map<string, Item>

  predicate DeclaresSource(e: (string, Value)) {
    e.1.Table? && Get(e.1.entries, "source").Some? && Truthy(Get(e.1.entries, "source").value)
  }

  /** The names a manifest declares private. */
  function Private(declared: seq<(string, Value)>): set<string> {
    set i | 0 <= i < |declared| && DeclaresSource(declared[i]) :: Normalise(declared[i].0)
  }

  predicate InScope(names: set<string>) {
    forall n :: n in names ==> InPrivateScope(n)
  }

  /** `str(source.get("url", ""))`: only text can begin with a scheme, so any other
      value reads as the empty string, which `_host` refuses like it. */
  function SourceUrl(source: seq<(string, Value)>): string {
    match Get(source, "url")
    case Some(Str(url)) => url
    case _ => ""
  }

  /** The index a source URL stands for: its own text on the private host, the
      public index on a public one, and a refusal anywhere else. */
  function SourceIndex(declaredPrivate: bool, url: string): Option<string> {
    var host := Host(url);
    if host.None? then None
    else if PrivateHost(host.value) then
      if !declaredPrivate || Decorated(url) then None else Some(url)
    else if PublicHost(host.value) then Some(PUBLIC_INDEX)
    else None
  }

  /** The index a package is fetched from, or `None` where the planner refuses. */
  function Index(private: set<string>, p: Package): Option<string> {
    match p.source
    case None => if p.name in private then None else Some(PUBLIC_INDEX)
    case Some(Table(source)) => SourceIndex(p.name in private, SourceUrl(source))
    case Some(_) => None
  }

  predicate FileOk(name: string, v: Value) {
    && ReadFile(v).Some?
    && (var f := ReadFile(v).value;
        IsWheel(f) ==> IsHash(f.hash) && PathName(f.name) == f.name && Belongs(f.name, name))
  }

  predicate FilesOk(name: string, files: seq<Value>) {
    forall i :: 0 <= i < |files| ==> FileOk(name, files[i])
  }

  /** A package's wheels when every file record is acceptable and one is a wheel. */
  function PackageWheels(name: string, files: seq<Value>): Option<Wheels> {
    if FilesOk(name, files) && WheelTable(files) != map[]
    then Some(WheelTable(files)) else None
  }

  /** One lock entry's row in the plan, the names already planned left aside. */
  function Row(private: set<string>, v: Value): Option<(string, Item)> {
    match ReadPackage(v)
    case None => None
    case Some(p) =>
      if !IsName(p.name) || !IsVersion(p.version) then None
      else match (Index(private, p), PackageWheels(p.name, p.files))
        case (Some(index), Some(wheels)) => Some((p.name, Item(p.version, index, wheels)))
        case _ => None
  }

  function Reader(private: set<string>): Value -> Option<(string, Item)> { v => Row(private, v) }

  predicate RowsOk(private: set<string>, packages: seq<Value>) { AllRead(Reader(private), packages) }

  function Rows(private: set<string>, packages: seq<Value>): seq<(string, Item)>
    requires RowsOk(private, packages)
  {
    ReadRows(Reader(private), packages)
  }

  /** The plan a lock's packages mean beside these names. */
  ghost predicate Fills(private: set<string>, packages: seq<Value>, plan: Plan) {
    Means(Reader(private), packages, plan) && private <= plan.Keys
  }

  /** What makes a manifest and lock acceptable, and the plan they then mean. */
  ghost predicate Plans(manifest: seq<(string, Value)>, lock: seq<(string, Value)>, plan: Plan) {
    && Dependencies(manifest).Ok? && InScope(Private(Dependencies(manifest).value))
    && Packages(lock).Some?
    && Fills(Private(Dependencies(manifest).value), Packages(lock).value, plan)
  }

  lemma PrivateStep(declared: seq<(string, Value)>, k: nat)
    requires k < |declared|
    ensures Private(declared[..k + 1])
      == Private(declared[..k]) + (if DeclaresSource(declared[k]) then {Normalise(declared[k].0)} else {})
  {
    var fewer, more := declared[..k], declared[..k + 1];
    forall n | n in Private(more)
      ensures n in Private(fewer) || (DeclaresSource(declared[k]) && n == Normalise(declared[k].0))
    {
      var i :| 0 <= i < |more| && DeclaresSource(more[i]) && n == Normalise(more[i].0);
      if i < k { assert fewer[i] == more[i]; }
    }
    forall n | n in Private(fewer) ensures n in Private(more) {
      var i :| 0 <= i < |fewer| && DeclaresSource(fewer[i]) && n == Normalise(fewer[i].0);
      assert fewer[i] == more[i];
    }
    assert more[k] == declared[k];
  }

  lemma OutOfScope(declared: seq<(string, Value)>, k: nat)
    requires k < |declared| && DeclaresSource(declared[k]) && !InPrivateScope(Normalise(declared[k].0))
    ensures !InScope(Private(declared))
  {
    assert Normalise(declared[k].0) in Private(declared);
  }

  method ReadPrivate(declared: seq<(string, Value)>) returns (r: Option<set<string>>)
    ensures r == if InScope(Private(declared)) then Some(Private(declared)) else None
  {
    var private: set<string> := {};
    for k := 0 to |declared|
      invariant private == Private(declared[..k])
      invariant InScope(private)
    {
      PrivateStep(declared, k);
      if DeclaresSource(declared[k]) {
        var name := Normalise(declared[k].0);
        if !InPrivateScope(name) {
          OutOfScope(declared, k);
          return None;
        }
        private := private + {name};
      }
    }
    assert declared[..|declared|] == declared;
    return Some(private);
  }

  lemma ReadOneMore(name: string, files: seq<Value>, k: nat)
    requires k < |files| && FilesOk(name, files[..k]) && FileOk(name, files[k])
    ensures FilesOk(name, files[..k + 1])
    ensures var f := ReadFile(files[k]).value;
            && (IsWheel(f) ==> |f.hash| >= 7)
            && WheelTable(files[..k + 1])
               == if IsWheel(f) then WheelTable(files[..k])[f.name := f.hash[7..]] else WheelTable(files[..k])
  {
    TableStep(files, k);
  }

  lemma RefusedFile(name: string, files: seq<Value>, k: nat)
    requires k < |files| && !FileOk(name, files[k])
    ensures PackageWheels(name, files) == None
  {
  }

  method ReadWheels(name: string, files: seq<Value>) returns (r: Option<Wheels>)
    ensures r == PackageWheels(name, files)
  {
    var wheels: Wheels := map[];
    for k := 0 to |files|
      invariant wheels == WheelTable(files[..k]) && FilesOk(name, files[..k])
    {
      var record := ReadFile(files[k]);
      if record.None? {
        RefusedFile(name, files, k);
        return None;
      }
      var f := record.value;
      if IsWheel(f) && (!IsHash(f.hash) || PathName(f.name) != f.name || !Belongs(f.name, name)) {
        RefusedFile(name, files, k);
        return None;
      }
      ReadOneMore(name, files, k);
      if IsWheel(f) { wheels := wheels[f.name := f.hash[7..]]; }
    }
    assert files[..|files|] == files;
    if wheels == map[] { return None; }
    return Some(wheels);
  }

  /** The planning loop over the lock's packages. */
  method FillPlan(private: set<string>, packages: seq<Value>) returns (r: Option<Plan>)
    ensures r.Some? ==> Fills(private, packages, r.value)
    ensures r.None? ==> forall plan :: !Fills(private, packages, plan)
  {
    var plan: Plan := map[];
    for k := 0 to |packages|
      invariant Means(Reader(private), packages[..k], plan)
    {
      assert Reader(private)(packages[k]) == Row(private, packages[k]);
      var read := ReadPackage(packages[k]);
      if read.None? {
        UnreadMeansNothing(Reader(private), packages, k);
        return None;
      }
      var p := read.value;
      if !IsName(p.name) || !IsVersion(p.version) {
        UnreadMeansNothing(Reader(private), packages, k);
        return None;
      }
      if p.name in plan {
        RepeatMeansNothing(Reader(private), packages, k, plan, p.name);
        return None;
      }
      var index := Index(private, p);
      if index.None? {
        UnreadMeansNothing(Reader(private), packages, k);
        return None;
      }
      var wheels := ReadWheels(p.name, p.files);
      if wheels.None? {
        UnreadMeansNothing(Reader(private), packages, k);
        return None;
      }
      var item := Item(p.version, index.value, wheels.value);
      MeansOneMore(Reader(private), packages, k, plan, p.name, item);
      plan := plan[p.name := item];
    }
    assert packages[..|packages|] == packages;
    if !(private <= plan.Keys) {
      MeansOnce(Reader(private), packages, plan);
      return None;
    }
    return Some(plan);
  }

  /** `build_plan` on parsed documents. */
  method BuildPlan(manifest: seq<(string, Value)>, lock: seq<(string, Value)>) returns (r: Outcome<Plan>)
    ensures r.Crashed? <==> Dependencies(manifest).Crashed?
    ensures r.Ok? ==> Plans(manifest, lock, r.value)
    ensures r.Refused? ==> forall plan :: !Plans(manifest, lock, plan)
  {
    var dependencies := Dependencies(manifest);
    if !dependencies.Ok? {
      return if dependencies.Crashed? then Crashed else Refused;
    }
    var scoped := ReadPrivate(dependencies.value);
    if scoped.None? { return Refused; }
    var private := scoped.value;
    var listed := Packages(lock);
    if listed.None? { return Refused; }
    var filled := FillPlan(private, listed.value);
    if filled.None? { return Refused; }
    return Ok(filled.value);
  }
}
