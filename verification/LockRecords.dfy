/** What both planners read alike from a lock: a package record, its file records,
    and the table from wheel filename to locked digest. */
module LockRecords {
  import opened Text
  import opened Names
  import opened WheelName
  import opened Toml

  /** Wheel filename to SHA-256 digest, in lower-case hex. */
  type Wheels = map<string, string>

  datatype Package = Package(name: string, version: string, files: seq<Value>, source: Option<Value>)

  /** A package record with a text name and version and a list of files; the name
      is normalised as it is read. */
  function ReadPackage(v: Value): Option<Package> {
    if !v.Table? then None
    else match (Get(v.entries, "name"), Get(v.entries, "version"), Get(v.entries, "files"))
      case (Some(Str(name)), Some(Str(version)), Some(Arr(files))) =>
        Some(Package(Normalise(name), version, files, Get(v.entries, "source")))
      case _ => None
  }

  datatype FileRecord = FileRecord(name: string, hash: string)

  function ReadFile(v: Value): Option<FileRecord> {
    if !v.Table? then None
    else match (Get(v.entries, "file"), Get(v.entries, "hash"))
      case (Some(Str(name)), Some(Str(hash))) => Some(FileRecord(name, hash))
      case _ => None
  }

  predicate IsHexDigest(s: string) {
    |s| == 64 && forall i :: 0 <= i < 64 ==> IsDigit(s[i]) || 'a' <= s[i] <= 'f'
  }

  /** `sha256:([0-9a-f]{64})\Z` */
  predicate IsHash(s: string) { StartsWith(s, "sha256:") && IsHexDigest(s[7..]) }

  lemma HashExactly(h: string)
    ensures IsHash(h)
      <==> exists d :: h == "sha256:" + d && |d| == 64 && forall c :: c in d ==> '0' <= c <= '9' || 'a' <= c <= 'f'
  {
    if IsHash(h) {
      assert h == "sha256:" + h[7..];
      assert forall c :: c in h[7..] ==> '0' <= c <= '9' || 'a' <= c <= 'f';
    }
    forall d: string | h == "sha256:" + d && |d| == 64 && forall c :: c in d ==> '0' <= c <= '9' || 'a' <= c <= 'f'
      ensures IsHash(h)
    {
      assert h[7..] == d && forall i :: 0 <= i < 64 ==> d[i] in d;
    }
  }

  /** `pathlib.PurePosixPath(s).name`: the last component that is not empty or a dot. */
  function PathName(s: string): string
    decreases |s|
  {
    var (before, last) := CutLast(s, '/');
    if last != "" && last != "." then last
    else if '/' in s then PathName(before)
    else ""
  }

  /** A record's filename is a basename: it survives `Path(filename).name`. */
  lemma PathNameIsWhole(s: string)
    ensures PathName(s) == s <==> '/' !in s && s != "."
  {
    if '/' in s { PathNameShort(s); }
  }

  lemma {:induction false} PathNameShort(s: string)
    ensures '/' !in PathName(s) && |PathName(s)| <= |s|
    decreases |s|
  {
    var (before, last) := CutLast(s, '/');
    if (last == "" || last == ".") && '/' in s { PathNameShort(before); }
  }

  predicate IsWheel(f: FileRecord) { EndsWith(f.name, ".whl") }

  /** The wheel's filename belongs to the package it is listed under. */
  predicate Belongs(filename: string, name: string) {
    Parse(filename).Some? && Normalise(Parse(filename).value.name) == name
  }

  /** The wheel table of a list of records; a later record for a filename replaces
      an earlier one. */
  function WheelTable(files: seq<Value>): Wheels {
    if files == [] then map[]
    else
      var table := WheelTable(files[..|files| - 1]);
      match ReadFile(files[|files| - 1])
      case Some(f) => if IsWheel(f) && |f.hash| >= 7 then table[f.name := f.hash[7..]] else table
      case None => table
  }

  /** Record `i` lists this wheel with this digest. */
  predicate ListsWheel(files: seq<Value>, i: nat, filename: string) {
    && i < |files| && ReadFile(files[i]).Some? && IsWheel(ReadFile(files[i]).value)
    && |ReadFile(files[i]).value.hash| >= 7 && ReadFile(files[i]).value.name == filename
  }

  /** The table holds exactly the listed wheels, each with its last record's digest. */
  lemma {:induction false} TableMeans(files: seq<Value>, filename: string)
    ensures filename in WheelTable(files) <==> exists i: nat :: ListsWheel(files, i, filename)
    ensures filename in WheelTable(files) ==>
              exists i: nat :: && ListsWheel(files, i, filename)
                               && WheelTable(files)[filename] == ReadFile(files[i]).value.hash[7..]
                               && forall j: nat :: i < j ==> !ListsWheel(files, j, filename)
  {
    if files != [] {
      var k := |files| - 1;
      TableMeans(files[..k], filename);
      assert forall i: nat :: i < k ==> (ListsWheel(files[..k], i, filename) <==> ListsWheel(files, i, filename));
      if ListsWheel(files, k, filename) {
        assert WheelTable(files)[filename] == ReadFile(files[k]).value.hash[7..];
      } else if filename in WheelTable(files[..k]) {
        var i: nat :| && ListsWheel(files[..k], i, filename)
                      && WheelTable(files[..k])[filename] == ReadFile(files[..k][i]).value.hash[7..]
                      && forall j: nat :: i < j ==> !ListsWheel(files[..k], j, filename);
        assert ListsWheel(files, i, filename);
        forall j: nat | i < j ensures !ListsWheel(files, j, filename) {
          if j < k { assert !ListsWheel(files[..k], j, filename); }
        }
      }
    }
  }

  lemma TableStep(files: seq<Value>, k: nat)
    requires k < |files| && ReadFile(files[k]).Some?
    requires IsWheel(ReadFile(files[k]).value) ==> IsHash(ReadFile(files[k]).value.hash)
    ensures var f := ReadFile(files[k]).value;
            WheelTable(files[..k + 1])
            == if IsWheel(f) then WheelTable(files[..k])[f.name := f.hash[7..]] else WheelTable(files[..k])
  {
    assert files[..k + 1][..k] == files[..k];
  }

  predicate AllBelong(wheels: Wheels, name: string) {
    forall f :: f in wheels ==> Belongs(f, name)
  }

  lemma {:induction false} TableBelongs(files: seq<Value>, name: string)
    requires forall i :: 0 <= i < |files| && ReadFile(files[i]).Some? && IsWheel(ReadFile(files[i]).value)
                         ==> Belongs(ReadFile(files[i]).value.name, name)
    ensures AllBelong(WheelTable(files), name)
  {
    if files != [] {
      TableBelongs(files[..|files| - 1], name);
    }
  }

  /** A table of rows with distinct keys, as a map. */
  ghost predicate Tabulates<T>(plan: map<string, T>, rows: seq<(string, T)>) {
    && (forall i, j :: 0 <= i < j < |rows| ==> rows[i].0 != rows[j].0)
    && (forall i :: 0 <= i < |rows| ==> rows[i].0 in plan && plan[rows[i].0] == rows[i].1)
    && (forall n :: n in plan ==> exists i :: 0 <= i < |rows| && rows[i].0 == n)
  }

  lemma TabulatesOneMore<T>(plan: map<string, T>, rows: seq<(string, T)>, row: (string, T))
    requires Tabulates(plan, rows) && row.0 !in plan
    ensures Tabulates(plan[row.0 := row.1], rows + [row])
  {
    var more := rows + [row];
    var wider := plan[row.0 := row.1];
    forall n | n in wider ensures exists i :: 0 <= i < |more| && more[i].0 == n {
      if n == row.0 {
        assert more[|rows|].0 == n;
      } else {
        var i :| 0 <= i < |rows| && rows[i].0 == n;
        assert more[i].0 == n;
      }
    }
  }

  /** Rows fix the map they make. */
  lemma TableIsUnique<T>(plan: map<string, T>, rows: seq<(string, T)>)
    requires Tabulates(plan, rows)
    ensures forall other :: Tabulates(other, rows) ==> other == plan
  {
    forall other: map<string, T> | Tabulates(other, rows) ensures other == plan {
      forall n | n in plan ensures n in other && other[n] == plan[n] {
        var i :| 0 <= i < |rows| && rows[i].0 == n;
      }
      forall n | n in other ensures n in plan {
        var i :| 0 <= i < |rows| && rows[i].0 == n;
      }
    }
  }

  /** Every record reads as a row. */
  predicate AllRead<T>(read: Value -> Option<(string, T)>, records: seq<Value>) {
    forall i :: 0 <= i < |records| ==> read(records[i]).Some?
  }

  function ReadRows<T>(read: Value -> Option<(string, T)>, records: seq<Value>): (rows: seq<(string, T)>)
    requires AllRead(read, records)
    ensures |rows| == |records|
    ensures forall i :: 0 <= i < |rows| ==> rows[i] == read(records[i]).value
  {
    seq(|records|, i requires 0 <= i < |records| => read(records[i]).value)
  }

  /** The plan these records mean: one row each, no name twice. */
  ghost predicate Means<T>(read: Value -> Option<(string, T)>, records: seq<Value>, plan: map<string, T>) {
    AllRead(read, records) && Tabulates(plan, ReadRows(read, records))
  }

  lemma MeansOneMore<T>(read: Value -> Option<(string, T)>, records: seq<Value>, k: nat, plan: map<string, T>, name: string, item: T)
    requires k < |records| && Means(read, records[..k], plan)
    requires read(records[k]) == Some((name, item)) && name !in plan
    ensures Means(read, records[..k + 1], plan[name := item])
  {
    var more := records[..k + 1];
    assert AllRead(read, more) by {
      forall i | 0 <= i < |more| ensures read(more[i]).Some? {
        if i < k { assert more[i] == records[..k][i]; }
      }
    }
    assert ReadRows(read, more) == ReadRows(read, records[..k]) + [(name, item)];
    TabulatesOneMore(plan, ReadRows(read, records[..k]), (name, item));
  }

  lemma UnreadMeansNothing<T>(read: Value -> Option<(string, T)>, records: seq<Value>, k: nat)
    requires k < |records| && read(records[k]).None?
    ensures forall plan :: !Means(read, records, plan)
  {
  }

  /** A name recorded twice leaves no plan at all. */
  lemma RepeatMeansNothing<T>(read: Value -> Option<(string, T)>, records: seq<Value>, k: nat, plan: map<string, T>, name: string)
    requires k < |records| && Means(read, records[..k], plan) && name in plan
    requires read(records[k]).Some? ==> read(records[k]).value.0 == name
    ensures forall other :: !Means(read, records, other)
  {
    if AllRead(read, records) {
      var i :| 0 <= i < k && ReadRows(read, records[..k])[i].0 == name;
      assert ReadRows(read, records)[i].0 == ReadRows(read, records)[k].0;
    }
  }

  lemma TwiceMeansNothing<T>(read: Value -> Option<(string, T)>, records: seq<Value>, i: nat, j: nat)
    requires i < j < |records|
    requires read(records[i]).Some? && read(records[j]).Some? ==> read(records[i]).value.0 == read(records[j]).value.0
    ensures forall plan :: !Means(read, records, plan)
  {
    if AllRead(read, records) {
      assert ReadRows(read, records)[i].0 == ReadRows(read, records)[j].0;
    }
  }

  lemma MeansOnce<T>(read: Value -> Option<(string, T)>, records: seq<Value>, plan: map<string, T>)
    requires Means(read, records, plan)
    ensures forall other :: Means(read, records, other) ==> other == plan
  {
    TableIsUnique(plan, ReadRows(read, records));
  }

  /** In a set of wheel tables each labelled with its package, a filename names its
      one owner: the normalised first field of the filename. */
  lemma OneOwner(tables: map<string, Wheels>, filename: string, a: string, b: string)
    requires forall n :: n in tables ==> AllBelong(tables[n], n)
    requires a in tables && b in tables && filename in tables[a] && filename in tables[b]
    ensures Parse(filename).Some? && a == b == Normalise(Parse(filename).value.name)
  {
    assert AllBelong(tables[a], a) && AllBelong(tables[b], b);
    assert Belongs(filename, a) && Belongs(filename, b);
  }
}
