/** The consumer's planner: `_private_names` and `load_plan` of
    scripts/workspace_wheelhouse.py. */
module LockedPlan {
  import opened Text
  import opened Names
  import opened WheelName
  import opened Toml
  import opened IndexUrl
  import opened LockRecords

  datatype Registry = PrivateRegistry | PublicRegistry

  datatype Item = Item(version: string, registry: Registry, wheels: Wheels)

  type Plan = map<string, Item>

  /** The names a manifest pins to the private registry, with their versions. */
  type Pins = map<string, string>

  predicate FromForgejo(e: (string, Value)) {
    e.1.Table? && Get(e.1.entries, "source") == Some(Str("forgejo"))
  }

  predicate Pinned(e: (string, Value)) {
    && e.1.Table?
    && match Get(e.1.entries, "version")
       case Some(Str(version)) => IsVersion(version)
       case _ => false
  }

  function PinnedVersion(e: (string, Value)): string {
    if !e.1.Table? then ""
    else match Get(e.1.entries, "version")
      case Some(Str(version)) => version
      case _ => ""
  }

  /** A later declaration of the same normalised name replaces an earlier one. */
  function PinTable(declared: seq<(string, Value)>): Pins {
    if declared == [] then map[]
    else
      var pins := PinTable(declared[..|declared| - 1]);
      var e := declared[|declared| - 1];
      if FromForgejo(e) then pins[Normalise(e.0) := PinnedVersion(e)] else pins
  }

  /** The pins are exactly the registry's declarations, each at its last version. */
  lemma {:induction false} PinsMean(declared: seq<(string, Value)>, name: string)
    ensures name in PinTable(declared)
      <==> exists i :: 0 <= i < |declared| && FromForgejo(declared[i]) && Normalise(declared[i].0) == name
    ensures name in PinTable(declared) ==>
              exists i :: && 0 <= i < |declared| && FromForgejo(declared[i]) && Normalise(declared[i].0) == name
                          && PinTable(declared)[name] == PinnedVersion(declared[i])
                          && forall j :: i < j < |declared| && FromForgejo(declared[j]) ==> Normalise(declared[j].0) != name
  {
    if declared != [] {
      var k := |declared| - 1;
      PinsMean(declared[..k], name);
      assert forall i :: 0 <= i < k ==> declared[..k][i] == declared[i];
      if FromForgejo(declared[k]) && Normalise(declared[k].0) == name {
        assert PinTable(declared)[name] == PinnedVersion(declared[k]);
      }
    }
  }

  predicate PinsOk(declared: seq<(string, Value)>) {
    && (forall i :: 0 <= i < |declared| && FromForgejo(declared[i]) ==> Pinned(declared[i]))
    && PinTable(declared) != map[]
  }

  /** `source == {"type": "legacy", "url": PRIVATE_INDEX, "reference": "forgejo"}`:
      exactly these three keys, in any order. */
  predicate IsRegistrySource(v: Value) {
    && v.Table?
    && (forall i :: 0 <= i < |v.entries| ==> v.entries[i].0 in ["type", "url", "reference"])
    && Get(v.entries, "type") == Some(Str("legacy"))
    && Get(v.entries, "url") == Some(Str(PRIVATE_INDEX))
    && Get(v.entries, "reference") == Some(Str("forgejo"))
  }

  function RegistryOf(pins: Pins, p: Package): Option<Registry> {
    if p.name in pins then
      if p.version == pins[p.name] && p.source.Some? && IsRegistrySource(p.source.value)
      then Some(PrivateRegistry) else None
    else if p.source.None? then Some(PublicRegistry)
    else None
  }

  predicate FileOk(name: string, version: string, v: Value) {
    && ReadFile(v).Some?
    && (var f := ReadFile(v).value;
        && IsHash(f.hash) && PathName(f.name) == f.name
        && (IsWheel(f) ==> Belongs(f.name, name) && Parse(f.name).value.version == version))
  }

  predicate FirstOf(files: seq<Value>, k: nat)
    requires k < |files|
  {
    ReadFile(files[k]).Some? && IsWheel(ReadFile(files[k]).value)
    ==> ReadFile(files[k]).value.name !in WheelTable(files[..k])
  }

  predicate NoRepeatedWheel(files: seq<Value>) {
    forall k :: 0 <= k < |files| ==> FirstOf(files, k)
  }

  predicate FilesOk(name: string, version: string, files: seq<Value>) {
    forall i :: 0 <= i < |files| ==> FileOk(name, version, files[i])
  }

  function PackageWheels(name: string, version: string, files: seq<Value>): Option<Wheels> {
    if FilesOk(name, version, files) && NoRepeatedWheel(files) && WheelTable(files) != map[]
    then Some(WheelTable(files)) else None
  }

  function Row(pins: Pins, v: Value): Option<(string, Item)> {
    match ReadPackage(v)
    case None => None
    case Some(p) =>
      if !IsName(p.name) then None
      else match (RegistryOf(pins, p), PackageWheels(p.name, p.version, p.files))
        case (Some(registry), Some(wheels)) => Some((p.name, Item(p.version, registry, wheels)))
        case _ => None
  }

  function Reader(pins: Pins): Value -> Option<(string, Item)> { v => Row(pins, v) }

  predicate RowsOk(pins: Pins, packages: seq<Value>) { AllRead(Reader(pins), packages) }

  function Rows(pins: Pins, packages: seq<Value>): seq<(string, Item)>
    requires RowsOk(pins, packages)
  {
    ReadRows(Reader(pins), packages)
  }

  /** The plan a lock's packages mean beside these names. */
  ghost predicate Fills(pins: Pins, packages: seq<Value>, plan: Plan) {
    Means(Reader(pins), packages, plan) && pins.Keys <= plan.Keys
  }

  /** What makes a manifest and lock acceptable, and the plan they then mean. */
  ghost predicate Plans(manifest: seq<(string, Value)>, lock: seq<(string, Value)>, plan: Plan) {
    && Dependencies(manifest).Ok? && PinsOk(Dependencies(manifest).value)
    && Packages(lock).Some?
    && Fills(PinTable(Dependencies(manifest).value), Packages(lock).value, plan)
  }

  /** `_private_names` on the dependency table. */
  method ReadPins(declared: seq<(string, Value)>) returns (r: Option<Pins>)
    ensures r == if PinsOk(declared) then Some(PinTable(declared)) else None
  {
    var pins: Pins := map[];
    for k := 0 to |declared|
      invariant pins == PinTable(declared[..k])
      invariant forall i :: 0 <= i < k && FromForgejo(declared[i]) ==> Pinned(declared[i])
    {
      assert declared[..k + 1][..k] == declared[..k];
      if FromForgejo(declared[k]) {
        if !Pinned(declared[k]) { return None; }
        pins := pins[Normalise(declared[k].0) := PinnedVersion(declared[k])];
      }
    }
    assert declared[..|declared|] == declared;
    if pins == map[] { return None; }
    return Some(pins);
  }

  /** The records read so far are acceptable and `allowed` is their wheel table. */
  predicate WheelsRead(name: string, version: string, files: seq<Value>, allowed: Wheels) {
    FilesOk(name, version, files) && NoRepeatedWheel(files) && allowed == WheelTable(files)
  }

  lemma FirstWithin(files: seq<Value>, k: nat, i: nat)
    requires i < k <= |files|
    ensures FirstOf(files[..k], i) <==> FirstOf(files, i)
  {
    assert files[..k][..i] == files[..i];
  }

  lemma NoRepeatOneMore(files: seq<Value>, k: nat)
    requires k < |files| && NoRepeatedWheel(files[..k]) && FirstOf(files, k)
    ensures NoRepeatedWheel(files[..k + 1])
  {
    var more := files[..k + 1];
    forall i: nat | i < |more| ensures FirstOf(more, i) {
      FirstWithin(files, k + 1, i);
      if i < k { FirstWithin(files, k, i); }
    }
  }

  lemma FilesOkOneMore(name: string, version: string, files: seq<Value>, k: nat)
    requires k < |files| && FilesOk(name, version, files[..k]) && FileOk(name, version, files[k])
    ensures FilesOk(name, version, files[..k + 1])
    ensures IsHash(ReadFile(files[k]).value.hash)
  {
    var fewer, more := files[..k], files[..k + 1];
    forall i | 0 <= i < |more| ensures FileOk(name, version, more[i]) {
      if i < k { assert FileOk(name, version, fewer[i]); }
    }
  }

  lemma ReadOneMore(name: string, version: string, files: seq<Value>, k: nat, allowed: Wheels)
    requires k < |files| && WheelsRead(name, version, files[..k], allowed)
    requires FileOk(name, version, files[k])
    requires var f := ReadFile(files[k]).value; IsWheel(f) ==> f.name !in allowed
    ensures var f := ReadFile(files[k]).value;
            && |f.hash| >= 7
            && WheelsRead(name, version, files[..k + 1], if IsWheel(f) then allowed[f.name := f.hash[7..]] else allowed)
  {
    FilesOkOneMore(name, version, files, k);
    TableStep(files, k);
    NoRepeatOneMore(files, k);
  }

  lemma RefusedFile(name: string, version: string, files: seq<Value>, k: nat)
    requires k < |files| && !(FileOk(name, version, files[k]) && FirstOf(files, k))
    ensures PackageWheels(name, version, files) == None
  {
  }

  method ReadWheels(name: string, version: string, files: seq<Value>) returns (r: Option<Wheels>)
    ensures r == PackageWheels(name, version, files)
  {
    var allowed: Wheels := map[];
    for k := 0 to |files|
      invariant WheelsRead(name, version, files[..k], allowed)
    {
      if !FileOk(name, version, files[k]) {
        RefusedFile(name, version, files, k);
        return None;
      }
      var f := ReadFile(files[k]).value;
      if IsWheel(f) && f.name in allowed {
        RefusedFile(name, version, files, k);
        return None;
      }
      ReadOneMore(name, version, files, k, allowed);
      if IsWheel(f) { allowed := allowed[f.name := f.hash[7..]]; }
    }
    assert files[..|files|] == files;
    if allowed == map[] { return None; }
    return Some(allowed);
  }

  /** One package's checks: its row in the plan, or a refusal. */
  method ReadPlanned(pins: Pins, v: Value, p: Package) returns (r: Option<(string, Item)>)
    requires ReadPackage(v) == Some(p)
    ensures r == Row(pins, v)
  {
    if !IsName(p.name) { return None; }
    var registry := RegistryOf(pins, p);
    if registry.None? { return None; }
    var wheels := ReadWheels(p.name, p.version, p.files);
    if wheels.None? { return None; }
    return Some((p.name, Item(p.version, registry.value, wheels.value)));
  }

  /** The planning loop over the lock's packages. */
  method FillPlan(pins: Pins, packages: seq<Value>) returns (r: Option<Plan>)
    ensures r.Some? ==> Fills(pins, packages, r.value)
    ensures r.None? ==> forall plan :: !Fills(pins, packages, plan)
  {
    var plan: Plan := map[];
    for k := 0 to |packages|
      invariant Means(Reader(pins), packages[..k], plan)
    {
      assert Reader(pins)(packages[k]) == Row(pins, packages[k]);
      var package := ReadPackage(packages[k]);
      if package.None? {
        UnreadMeansNothing(Reader(pins), packages, k);
        return None;
      }
      var name := package.value.name;
      if name in plan {
        RepeatMeansNothing(Reader(pins), packages, k, plan, name);
        return None;
      }
      var row := ReadPlanned(pins, packages[k], package.value);
      if row.None? {
        UnreadMeansNothing(Reader(pins), packages, k);
        return None;
      }
      MeansOneMore(Reader(pins), packages, k, plan, name, row.value.1);
      plan := plan[name := row.value.1];
    }
    assert packages[..|packages|] == packages;
    if !(pins.Keys <= plan.Keys) {
      MeansOnce(Reader(pins), packages, plan);
      return None;
    }
    return Some(plan);
  }

  /** `load_plan` on parsed documents. */
  method LoadPlan(manifest: seq<(string, Value)>, lock: seq<(string, Value)>) returns (r: Outcome<Plan>)
    ensures r.Crashed? <==> Dependencies(manifest).Crashed?
    ensures r.Ok? ==> Plans(manifest, lock, r.value)
    ensures r.Refused? ==> forall plan :: !Plans(manifest, lock, plan)
  {
    var dependencies := Dependencies(manifest);
    if !dependencies.Ok? {
      return if dependencies.Crashed? then Crashed else Refused;
    }
    var pinned := ReadPins(dependencies.value);
    if pinned.None? { return Refused; }
    var pins := pinned.value;
    var listed := Packages(lock);
    if listed.None? { return Refused; }
    var filled := FillPlan(pins, listed.value);
    if filled.None? { return Refused; }
    return Ok(filled.value);
  }
}
