/** What the two planners, written apart, agree on. */
module PlanAgreement {
  import opened Text
  import opened Names
  import opened WheelName
  import opened Toml
  import opened IndexUrl
  import opened LockRecords
  import CredentialedUrl
  import Reviewed = ReviewedPlan
  import Locked = LockedPlan

  type Document = seq<(string, Value)>

  function ReviewedWheels(plan: Reviewed.Plan): map<string, Wheels> {
    map n | n in plan :: plan[n].wheels
  }

  function LockedWheels(plan: Locked.Plan): map<string, Wheels> {
    map n | n in plan :: plan[n].wheels
  }

  /** A wheel plan in which every filename is labelled by the package it belongs to
      and every package has a wheel under a usable name. */
  ghost predicate WellLabelled(tables: map<string, Wheels>) {
    forall n :: n in tables ==> IsName(n) && tables[n] != map[] && AllBelong(tables[n], n)
  }

  /** The package a wheel filename's first field names. */
  function Label(filename: string): string {
    if Parse(filename).Some? then Normalise(Parse(filename).value.name) else ""
  }

  /** Every filename in the tables is listed under its own owner. */
  ghost predicate LabelledBy(tables: map<string, Wheels>, ownerOf: string -> string) {
    forall n, f :: n in tables && f in tables[n] ==> ownerOf(f) == n
  }

  lemma WellLabelledBy(tables: map<string, Wheels>)
    requires WellLabelled(tables)
    ensures LabelledBy(tables, f => Label(f))
  {
    forall n, f | n in tables && f in tables[n] ensures Label(f) == n {
      assert AllBelong(tables[n], n);
      assert Belongs(f, n);
    }
  }

  lemma ReviewedRowBelongs(private: set<string>, v: Value)
    requires Reviewed.Row(private, v).Some?
    ensures var row := Reviewed.Row(private, v).value;
            IsName(row.0) && row.1.wheels != map[] && AllBelong(row.1.wheels, row.0)
  {
    var p := ReadPackage(v).value;
    TableBelongs(p.files, p.name) by {
      assert forall i :: 0 <= i < |p.files| ==> Reviewed.FileOk(p.name, p.files[i]);
    }
  }

  lemma LockedRowBelongs(pins: Locked.Pins, v: Value)
    requires Locked.Row(pins, v).Some?
    ensures var row := Locked.Row(pins, v).value;
            IsName(row.0) && row.1.wheels != map[] && AllBelong(row.1.wheels, row.0)
  {
    var p := ReadPackage(v).value;
    TableBelongs(p.files, p.name) by {
      assert forall i :: 0 <= i < |p.files| ==> Locked.FileOk(p.name, p.version, p.files[i]);
    }
  }

  lemma PlannedRow<T>(plan: map<string, T>, rows: seq<(string, T)>, n: string) returns (i: nat)
    requires Tabulates(plan, rows) && n in plan
    ensures i < |rows| && rows[i] == (n, plan[n])
  {
    i :| 0 <= i < |rows| && rows[i].0 == n;
  }

  /** In every plan `build_plan` accepts, each key is a usable normalised name and
      each wheel filename belongs to the one package its first field names. */
  lemma ReviewedPlanIsLabelled(manifest: Document, lock: Document, plan: Reviewed.Plan)
    requires Reviewed.Plans(manifest, lock, plan)
    ensures WellLabelled(ReviewedWheels(plan))
    ensures forall n :: n in plan ==> Normalise(n) == n
  {
    var private := Reviewed.Private(Dependencies(manifest).value);
    var packages := Packages(lock).value;
    forall n | n in plan
      ensures IsName(n) && plan[n].wheels != map[] && AllBelong(plan[n].wheels, n) && Normalise(n) == n
    {
      var i := PlannedRow(plan, Reviewed.Rows(private, packages), n);
      ReviewedRowBelongs(private, packages[i]);
      NamesAreNormal(n);
    }
  }

  predicate AllowedIndex(url: string) {
    Host(url).Some? && AllowedHost(Host(url).value)
  }

  lemma SourceIndexHost(declaredPrivate: bool, url: string)
    requires Reviewed.SourceIndex(declaredPrivate, url).Some?
    ensures var index := Reviewed.SourceIndex(declaredPrivate, url).value;
            && Host(url).Some? && AllowedHost(Host(url).value)
            && (if PrivateHost(Host(url).value) then declaredPrivate && index == url else index == PUBLIC_INDEX)
  {
  }

  lemma HostsDiffer()
    ensures !PrivateHost(PUBLIC_HOST)
  {
    assert PUBLIC_HOST[0] == 'p' && PRIVATE_HOST[0] == 'r';
  }

  /** The lock gives this package a source record on a public host. */
  ghost predicate SourcedPublicly(p: Package) {
    && p.source.Some? && p.source.value.Table?
    && Host(Reviewed.SourceUrl(p.source.value.entries)).Some?
    && !PrivateHost(Host(Reviewed.SourceUrl(p.source.value.entries)).value)
  }

  ghost predicate FetchedPrivately(item: Reviewed.Item) {
    Host(item.index).Some? && PrivateHost(Host(item.index).value)
  }

  lemma IndexHost(private: set<string>, p: Package, index: string)
    requires Reviewed.Index(private, p) == Some(index)
    ensures AllowedIndex(index)
    ensures PrivateHost(Host(index).value) <==> p.name in private && !SourcedPublicly(p)
    ensures !PrivateHost(Host(index).value) ==> index == PUBLIC_INDEX
  {
    CredentialedUrl.PublicIndexHost();
    HostsDiffer();
    if p.source.Some? {
      SourceIndexHost(p.name in private, Reviewed.SourceUrl(p.source.value.entries));
    }
  }

  /** What a `build_plan` plan says of one lock entry: its version and wheel table,
      an allowed index, and the private host if and only if the manifest declares it
      private and the lock does not give it a source record on a public host. */
  ghost predicate ReviewedMeans(private: set<string>, p: Package, plan: Reviewed.Plan) {
    && p.name in plan && plan[p.name].version == p.version && plan[p.name].wheels == WheelTable(p.files)
    && AllowedIndex(plan[p.name].index)
    && (FetchedPrivately(plan[p.name]) <==> p.name in private && !SourcedPublicly(p))
    && (FetchedPrivately(plan[p.name]) || plan[p.name].index == PUBLIC_INDEX)
  }

  lemma ReviewedRowMeans(private: set<string>, v: Value, plan: Reviewed.Plan)
    requires Reviewed.Row(private, v).Some?
    requires Reviewed.Row(private, v).value.0 in plan && plan[Reviewed.Row(private, v).value.0] == Reviewed.Row(private, v).value.1
    ensures ReadPackage(v).Some? && ReviewedMeans(private, ReadPackage(v).value, plan)
  {
    IndexHost(private, ReadPackage(v).value, Reviewed.Row(private, v).value.1.index);
  }

  /** The dependency-confusion control, exactly. A planned package resolves from the
      private host if and only if the manifest declares it private and the lock does
      not give it a source record on a public host; it then lies in the private
      scope. Every other package resolves from the public index. */
  lemma PrivateResolution(manifest: Document, lock: Document, plan: Reviewed.Plan)
    requires Reviewed.Plans(manifest, lock, plan)
    ensures var private := Reviewed.Private(Dependencies(manifest).value);
            var packages := Packages(lock).value;
            && private <= plan.Keys && |packages| == |plan|
            && (forall n :: n in private ==> InPrivateScope(n))
            && (forall i :: 0 <= i < |packages| ==>
                  ReadPackage(packages[i]).Some? && ReviewedMeans(private, ReadPackage(packages[i]).value, plan))
  {
    var private := Reviewed.Private(Dependencies(manifest).value);
    var packages := Packages(lock).value;
    var rows := Reviewed.Rows(private, packages);
    forall i | 0 <= i < |packages|
      ensures ReadPackage(packages[i]).Some? && ReviewedMeans(private, ReadPackage(packages[i]).value, plan)
    {
      assert rows[i] == Reviewed.Row(private, packages[i]).value;
      ReviewedRowMeans(private, packages[i], plan);
    }
    TableSize(plan, rows);
  }

  /** The same of every plan `load_plan` accepts. */
  lemma LockedPlanIsLabelled(manifest: Document, lock: Document, plan: Locked.Plan)
    requires Locked.Plans(manifest, lock, plan)
    ensures WellLabelled(LockedWheels(plan))
    ensures forall n :: n in plan ==> Normalise(n) == n
  {
    var pins := Locked.PinTable(Dependencies(manifest).value);
    var packages := Packages(lock).value;
    forall n | n in plan
      ensures IsName(n) && plan[n].wheels != map[] && AllBelong(plan[n].wheels, n)
      ensures Normalise(n) == n
    {
      var i := PlannedRow(plan, Locked.Rows(pins, packages), n);
      LockedRowBelongs(pins, packages[i]);
      NamesAreNormal(n);
    }
  }

  predicate Named(v: Value, name: string) {
    v.Table? && Get(v.entries, "name") == Some(Str(name))
  }

  lemma RowNames(private: set<string>, pins: Locked.Pins, v: Value, name: string)
    requires Named(v, name)
    ensures Reviewed.Row(private, v).Some? ==> Reviewed.Row(private, v).value.0 == Normalise(name)
    ensures Locked.Row(pins, v).Some? ==> Locked.Row(pins, v).value.0 == Normalise(name)
  {
  }

  /** A `load_plan` plan says of each lock entry: its version and its wheel table; and
      it is private exactly when the manifest pins it, at the pinned version and from
      the registry's own source record, while every other entry has no source. */
  ghost predicate LockedMeans(pins: Locked.Pins, p: Package, plan: Locked.Plan) {
    && p.name in plan && plan[p.name].version == p.version && plan[p.name].wheels == WheelTable(p.files)
    && (plan[p.name].registry.PrivateRegistry? <==> p.name in pins)
    && (if p.name in pins then p.version == pins[p.name] && p.source.Some? && Locked.IsRegistrySource(p.source.value)
        else p.source.None?)
  }

  lemma LockedRowMeans(pins: Locked.Pins, v: Value, plan: Locked.Plan)
    requires Locked.Row(pins, v).Some?
    requires Locked.Row(pins, v).value.0 in plan && plan[Locked.Row(pins, v).value.0] == Locked.Row(pins, v).value.1
    ensures ReadPackage(v).Some? && LockedMeans(pins, ReadPackage(v).value, plan)
  {
  }

  lemma LockedPlanMeans(manifest: Document, lock: Document, plan: Locked.Plan)
    requires Locked.Plans(manifest, lock, plan)
    ensures var pins := Locked.PinTable(Dependencies(manifest).value);
            var packages := Packages(lock).value;
            && pins.Keys <= plan.Keys && |packages| == |plan|
            && (forall i :: 0 <= i < |packages| ==>
                  ReadPackage(packages[i]).Some? && LockedMeans(pins, ReadPackage(packages[i]).value, plan))
  {
    var pins := Locked.PinTable(Dependencies(manifest).value);
    var packages := Packages(lock).value;
    var rows := Locked.Rows(pins, packages);
    forall i | 0 <= i < |packages|
      ensures ReadPackage(packages[i]).Some? && LockedMeans(pins, ReadPackage(packages[i]).value, plan)
    {
      assert rows[i] == Locked.Row(pins, packages[i]).value;
      LockedRowMeans(pins, packages[i], plan);
    }
    TableSize(plan, rows);
  }

  /** A plan has as many packages as the lock has entries. */
  lemma {:induction false} TableSize<T>(plan: map<string, T>, rows: seq<(string, T)>)
    requires Tabulates(plan, rows)
    ensures |plan| == |rows|
  {
    if rows == [] {
      assert plan == map[];
    } else {
      var k := |rows| - 1;
      var fewer := plan - {rows[k].0};
      forall n | n in fewer ensures exists i :: 0 <= i < k && rows[..k][i].0 == n {
        var i := PlannedRow(plan, rows, n);
        assert rows[..k][i].0 == n;
      }
      TableSize(fewer, rows[..k]);
      assert fewer.Keys == plan.Keys - {rows[k].0};
    }
  }

  /** Two lock entries whose names PEP 503 calls the same never both enter a plan:
      neither planner accepts a lock that holds them. */
  lemma NoNameTwice(manifest: Document, lock: Document, i: nat, j: nat, a: string, b: string)
    requires Packages(lock).Some? && i < j < |Packages(lock).value|
    requires Named(Packages(lock).value[i], a) && Named(Packages(lock).value[j], b)
    requires Normalise(a) == Normalise(b)
    ensures forall plan :: !Reviewed.Plans(manifest, lock, plan)
    ensures forall plan :: !Locked.Plans(manifest, lock, plan)
  {
    if Dependencies(manifest).Ok? {
      var packages := Packages(lock).value;
      var private, pins := Reviewed.Private(Dependencies(manifest).value), Locked.PinTable(Dependencies(manifest).value);
      RowNames(private, pins, packages[i], a);
      RowNames(private, pins, packages[j], b);
      TwiceMeansNothing(Reviewed.Reader(private), packages, i, j);
      TwiceMeansNothing(Locked.Reader(pins), packages, i, j);
    }
  }

  lemma RegistrySourceUrl(p: Package)
    requires p.source.Some? && Locked.IsRegistrySource(p.source.value)
    ensures p.source.value.Table? && Reviewed.SourceUrl(p.source.value.entries) == PRIVATE_INDEX
  {
  }

  lemma IndexesDiffer()
    ensures PRIVATE_INDEX != PUBLIC_INDEX
  {
    assert PRIVATE_INDEX[8] == 'r' && PUBLIC_INDEX[8] == 'p';
  }

  lemma RegistryIndex(private: set<string>, p: Package, url: string, host: string)
    requires p.source.Some? && p.source.value.Table? && Reviewed.SourceUrl(p.source.value.entries) == url
    requires Host(url) == Some(host) && PrivateHost(host)
    requires Reviewed.Index(private, p).Some?
    ensures Reviewed.Index(private, p).value == url
  {
    SourceIndexHost(p.name in private, url);
  }

  lemma IndexesAgree(private: set<string>, pins: Locked.Pins, p: Package)
    requires Reviewed.Index(private, p).Some? && Locked.RegistryOf(pins, p).Some?
    ensures Reviewed.Index(private, p).value
      == if Locked.RegistryOf(pins, p).value.PrivateRegistry? then PRIVATE_INDEX else PUBLIC_INDEX
  {
    if p.name in pins {
      RegistrySourceUrl(p);
      CredentialedUrl.PrivateIndexSplits();
      RegistryIndex(private, p, PRIVATE_INDEX, PRIVATE_HOST);
    }
  }

  /** One entry both planners accept: same name, version and wheels, and private in
      one exactly when the other fetches it from the private index. */
  ghost predicate SamePackage(a: Reviewed.Item, b: Locked.Item) {
    && a.version == b.version && a.wheels == b.wheels
    && (b.registry == Locked.PrivateRegistry <==> a.index == PRIVATE_INDEX)
    && (b.registry == Locked.PublicRegistry <==> a.index == PUBLIC_INDEX)
  }

  lemma RowsAgree(private: set<string>, pins: Locked.Pins, v: Value)
    requires Reviewed.Row(private, v).Some? && Locked.Row(pins, v).Some?
    ensures var a := Reviewed.Row(private, v).value; var b := Locked.Row(pins, v).value;
            a.0 == b.0 && SamePackage(a.1, b.1)
  {
    IndexesAgree(private, pins, ReadPackage(v).value);
    IndexesDiffer();
  }

  lemma TablesAgree(reviewed: Reviewed.Plan, a: seq<(string, Reviewed.Item)>,
                    locked: Locked.Plan, b: seq<(string, Locked.Item)>)
    requires Tabulates(reviewed, a) && Tabulates(locked, b) && |a| == |b|
    requires forall i :: 0 <= i < |a| ==> a[i].0 == b[i].0 && SamePackage(a[i].1, b[i].1)
    ensures reviewed.Keys == locked.Keys
    ensures forall n :: n in locked ==> SamePackage(reviewed[n], locked[n])
  {
    forall n | n in reviewed ensures n in locked {
      var i := PlannedRow(reviewed, a, n);
      assert b[i].0 == n;
    }
    forall n | n in locked ensures n in reviewed && SamePackage(reviewed[n], locked[n]) {
      var i := PlannedRow(locked, b, n);
      assert a[i].0 == n;
    }
  }

  lemma AllRowsAgree(private: set<string>, pins: Locked.Pins, packages: seq<Value>)
    requires Reviewed.RowsOk(private, packages) && Locked.RowsOk(pins, packages)
    ensures var a, b := Reviewed.Rows(private, packages), Locked.Rows(pins, packages);
            |a| == |b| && forall i :: 0 <= i < |a| ==> a[i].0 == b[i].0 && SamePackage(a[i].1, b[i].1)
  {
    forall i | 0 <= i < |packages|
      ensures var a, b := Reviewed.Row(private, packages[i]).value, Locked.Row(pins, packages[i]).value;
              a.0 == b.0 && SamePackage(a.1, b.1)
    {
      RowsAgree(private, pins, packages[i]);
    }
  }

  lemma FillsAgree(private: set<string>, pins: Locked.Pins, packages: seq<Value>,
                   reviewed: Reviewed.Plan, locked: Locked.Plan)
    requires Reviewed.Fills(private, packages, reviewed) && Locked.Fills(pins, packages, locked)
    ensures reviewed.Keys == locked.Keys
    ensures forall n :: n in locked ==> SamePackage(reviewed[n], locked[n])
  {
    AllRowsAgree(private, pins, packages);
    TablesAgree(reviewed, Reviewed.Rows(private, packages), locked, Locked.Rows(pins, packages));
  }

  lemma SameWheels(reviewed: Reviewed.Plan, locked: Locked.Plan)
    requires reviewed.Keys == locked.Keys
    requires forall n :: n in locked ==> SamePackage(reviewed[n], locked[n])
    ensures ReviewedWheels(reviewed) == LockedWheels(locked)
  {
  }

  /** Whenever both planners accept the same parsed manifest and lock, their plans
      agree package by package. */
  lemma PlannersAgree(manifest: Document, lock: Document, reviewed: Reviewed.Plan, locked: Locked.Plan)
    requires Reviewed.Plans(manifest, lock, reviewed) && Locked.Plans(manifest, lock, locked)
    ensures reviewed.Keys == locked.Keys
    ensures forall n :: n in locked ==> SamePackage(reviewed[n], locked[n])
    ensures ReviewedWheels(reviewed) == LockedWheels(locked)
  {
    var private := Reviewed.Private(Dependencies(manifest).value);
    var pins := Locked.PinTable(Dependencies(manifest).value);
    FillsAgree(private, pins, Packages(lock).value, reviewed, locked);
    SameWheels(reviewed, locked);
  }

  /** So the two planners together close the gap: whenever `build_plan` plans a package
      from the public index that the manifest pins to the registry, `load_plan` accepts
      no plan for those documents. */
  lemma PublicPinIsRefused(manifest: Document, lock: Document, reviewed: Reviewed.Plan, name: string)
    requires Reviewed.Plans(manifest, lock, reviewed) && name in reviewed && reviewed[name].index == PUBLIC_INDEX
    requires name in Locked.PinTable(Dependencies(manifest).value)
    ensures forall locked :: !Locked.Plans(manifest, lock, locked)
  {
    forall locked | Locked.Plans(manifest, lock, locked) ensures false {
      PinnedIsPrivate(manifest, lock, locked, name);
      PlannersAgree(manifest, lock, reviewed, locked);
      IndexesDiffer();
    }
  }

  lemma PinnedIsPrivate(manifest: Document, lock: Document, locked: Locked.Plan, name: string)
    requires Locked.Plans(manifest, lock, locked) && name in Locked.PinTable(Dependencies(manifest).value)
    ensures name in locked && locked[name].registry.PrivateRegistry?
  {
    LockedPlanMeans(manifest, lock, locked);
    var pins, packages := Locked.PinTable(Dependencies(manifest).value), Packages(lock).value;
    var i := PlannedRow(locked, Locked.Rows(pins, packages), name);
    assert ReadPackage(packages[i]).value.name == name;
  }
}
