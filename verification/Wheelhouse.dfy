/** A wheelhouse directory, the verifier that judges it and what both fill loops
    put in it. */
module Wheelhouse {
  import opened Text
  import opened LockRecords

  type Bytes = seq<Byte>

  /** Package name to the wheels its lock entry allows. */
  type Tables = map<string, Wheels>

  datatype Entry = File(content: Bytes) | Link | Other

  datatype Status = Missing | Present | LinkedDirectory

  class Directory {
    var status: Status
    var entries: map<string, Entry>

    constructor ()
      ensures status == Missing && entries == map[]
    {
      status, entries := Missing, map[];
    }

    /** `iterdir()`: the entries' names in whatever order the file system gives. */
    method IterDir() returns (listing: seq<string>)
      ensures Enumerates(listing, entries.Keys)
    {
      listing := [];
      var left := entries.Keys;
      while left != {}
        invariant left <= entries.Keys
        invariant Enumerates(listing, entries.Keys - left)
        decreases left
      {
        var f :| f in left;
        listing := listing + [f];
        left := left - {f};
      }
      assert entries.Keys - left == entries.Keys;
    }
  }

  ghost predicate Enumerates(listing: seq<string>, names: set<string>) {
    && (forall i, j :: 0 <= i < j < |listing| ==> listing[i] != listing[j])
    && (forall n :: n in listing <==> n in names)
  }

  /** `PurePath.suffix`. */
  function PathSuffix(name: string): string {
    var (stem, extension) := CutLast(name, '.');
    if '.' !in name || stem == "" || extension == "" then "" else "." + extension
  }

  lemma DotSuffix(stem: string, extension: string)
    requires '.' !in extension
    ensures CutLast(stem + ("." + extension), '.') == (stem, extension)
  {
    CutLastIs(stem, '.', extension);
    Regroup(stem, ".", extension);
  }

  lemma WheelSuffixIs(name: string)
    ensures PathSuffix(name) == ".whl" <==> EndsWith(name, ".whl") && |name| > 4
  {
    var (stem, extension) := CutLast(name, '.');
    if EndsWith(name, ".whl") {
      DotSuffix(name[..|name| - 4], "whl");
      assert name == name[..|name| - 4] + ("." + "whl");
    }
    if '.' in name && "." + extension == ".whl" {
      assert name == stem + ("." + extension);
    }
  }

  /** A regular file, not a link, with a wheel's suffix. */
  predicate RegularWheel(name: string, e: Entry) { e.File? && PathSuffix(name) == ".whl" }

  function Owners(tables: Tables, filename: string): set<string> {
    set n | n in tables && filename in tables[n]
  }

  predicate OwnedBy(tables: Tables, filename: string, name: string) {
    name in Owners(tables, filename) && |Owners(tables, filename)| == 1
  }

  lemma SoleOwner(tables: Tables, filename: string, a: string, b: string)
    requires OwnedBy(tables, filename, a) && b in Owners(tables, filename)
    ensures a == b
  {
    var rest := Owners(tables, filename) - {a};
    assert |rest| == 0;
  }

  /** One directory entry is a wheel the plan locks for exactly one package. */
  predicate Locks(tables: Tables, sha: Bytes -> string, filename: string, e: Entry, name: string) {
    && RegularWheel(filename, e)
    && OwnedBy(tables, filename, name)
    && sha(e.content) == tables[name][filename]
  }

  /** The package an entry is the locked wheel of. */
  ghost function LockedFor(tables: Tables, sha: Bytes -> string, filename: string, e: Entry): (r: Option<string>)
    ensures r.Some? ==> Locks(tables, sha, filename, e, r.value)
    ensures r.None? ==> forall n :: !Locks(tables, sha, filename, e, n)
  {
    if n :| Locks(tables, sha, filename, e, n) then Some(n) else None
  }

  lemma LockedForOne(tables: Tables, sha: Bytes -> string, filename: string, e: Entry, name: string)
    requires Locks(tables, sha, filename, e, name)
    ensures LockedFor(tables, sha, filename, e) == Some(name)
  {
    var other := LockedFor(tables, sha, filename, e).value;
    SoleOwner(tables, filename, name, other);
  }

  ghost function LockedEntries(tables: Tables, sha: Bytes -> string, entries: map<string, Entry>): map<string, Option<string>> {
    map f | f in entries :: LockedFor(tables, sha, f, entries[f])
  }

  /** A bijection between package names and entries along `locked`. */
  ghost predicate Pairs(locked: map<string, Option<string>>, names: set<string>, selected: map<string, string>) {
    && selected.Keys == names
    && (forall n :: n in selected ==> selected[n] in locked && locked[selected[n]] == Some(n))
    && (forall f :: f in locked ==> locked[f].Some? && locked[f].value in selected && selected[locked[f].value] == f)
  }

  /** The directory is in bijection with the plan: each package selects one entry,
      the selected entry is its locked wheel, and no entry is left over. */
  ghost predicate Exact(tables: Tables, sha: Bytes -> string, entries: map<string, Entry>, selected: map<string, string>) {
    Pairs(LockedEntries(tables, sha, entries), tables.Keys, selected)
  }

  lemma ExactMeans(tables: Tables, sha: Bytes -> string, entries: map<string, Entry>, selected: map<string, string>)
    requires Exact(tables, sha, entries, selected)
    ensures forall n :: n in tables ==> n in selected && selected[n] in entries
                                        && Locks(tables, sha, selected[n], entries[selected[n]], n)
    ensures forall f :: f in entries ==> exists n :: n in tables && selected[n] == f
  {
    var locked := LockedEntries(tables, sha, entries);
    forall f | f in entries ensures exists n :: n in tables && selected[n] == f {
      assert f in locked;
      assert locked[f].value in tables;
    }
    forall n | n in tables
      ensures n in selected && selected[n] in entries && Locks(tables, sha, selected[n], entries[selected[n]], n)
    {
      assert n in selected;
      assert locked[selected[n]] == Some(n);
    }
  }

  /** The wheelhouse judged, in full: the selection has the plan's packages, each selected
      entry is a regular file with a wheel's suffix, listed by its package and by no other,
      with the listed digest, and every entry is selected. */
  ghost predicate Judged(tables: Tables, sha: Bytes -> string, entries: map<string, Entry>, selected: map<string, string>) {
    && selected.Keys == tables.Keys
    && (forall n :: n in tables ==>
          var f := selected[n];
          && f in entries && entries[f].File? && EndsWith(f, ".whl") && |f| > 4
          && f in tables[n] && sha(entries[f].content) == tables[n][f]
          && forall m :: m in tables && m != n ==> f !in tables[m])
    && (forall f :: f in entries ==> exists n :: n in tables && selected[n] == f)
  }

  lemma LocksMeans(tables: Tables, sha: Bytes -> string, f: string, e: Entry, n: string)
    ensures Locks(tables, sha, f, e, n)
      <==> && e.File? && EndsWith(f, ".whl") && |f| > 4
           && n in tables && f in tables[n] && sha(e.content) == tables[n][f]
           && forall m :: m in tables && m != n ==> f !in tables[m]
  {
    WheelSuffixIs(f);
    var owners := Owners(tables, f);
    if n in owners && |owners| == 1 {
      forall m | m in tables && m != n ensures f !in tables[m] {
        if f in tables[m] { SoleOwner(tables, f, n, m); }
      }
    }
    if n in owners && forall m :: m in tables && m != n ==> f !in tables[m] { assert owners == {n}; }
  }

  lemma ExactIsJudged(tables: Tables, sha: Bytes -> string, entries: map<string, Entry>, selected: map<string, string>)
    requires Exact(tables, sha, entries, selected)
    ensures Judged(tables, sha, entries, selected)
  {
    ExactMeans(tables, sha, entries, selected);
    forall n | n in tables ensures selected[n] in entries && Locks(tables, sha, selected[n], entries[selected[n]], n) {
      LocksMeans(tables, sha, selected[n], entries[selected[n]], n);
    }
    forall n | n in tables
      ensures var f := selected[n];
              && f in entries && entries[f].File? && EndsWith(f, ".whl") && |f| > 4
              && f in tables[n] && sha(entries[f].content) == tables[n][f]
              && forall m :: m in tables && m != n ==> f !in tables[m]
    {
      LocksMeans(tables, sha, selected[n], entries[selected[n]], n);
    }
  }

  lemma JudgedIsExact(tables: Tables, sha: Bytes -> string, entries: map<string, Entry>, selected: map<string, string>)
    requires Judged(tables, sha, entries, selected)
    ensures Exact(tables, sha, entries, selected)
  {
    var locked := LockedEntries(tables, sha, entries);
    forall n | n in tables ensures selected[n] in locked && locked[selected[n]] == Some(n) {
      LocksMeans(tables, sha, selected[n], entries[selected[n]], n);
      LockedForOne(tables, sha, selected[n], entries[selected[n]], n);
    }
    forall f | f in locked ensures locked[f].Some? && locked[f].value in selected && selected[locked[f].value] == f {
      var n :| n in tables && selected[n] == f;
    }
  }

  /** The bijection along the locked wheels is that judgement. */
  lemma ExactExactly(tables: Tables, sha: Bytes -> string, entries: map<string, Entry>, selected: map<string, string>)
    ensures Exact(tables, sha, entries, selected) <==> Judged(tables, sha, entries, selected)
  {
    if Exact(tables, sha, entries, selected) { ExactIsJudged(tables, sha, entries, selected); }
    if Judged(tables, sha, entries, selected) { JudgedIsExact(tables, sha, entries, selected); }
  }

  lemma OneSelection(locked: map<string, Option<string>>, names: set<string>, a: map<string, string>, b: map<string, string>)
    requires Pairs(locked, names, a) && Pairs(locked, names, b)
    ensures a == b
  {
    forall n | n in a ensures a[n] == b[n] {
      assert locked[a[n]] == Some(n);
    }
  }

  /** What the checks on one entry establish: its package, or that it has none. */
  method Check(tables: Tables, sha: Bytes -> string, filename: string, e: Entry) returns (r: Option<string>)
    ensures r == LockedFor(tables, sha, filename, e)
  {
    if !RegularWheel(filename, e) { return None; }
    var owners := Owners(tables, filename);
    if |owners| != 1 { return None; }
    var name :| name in owners;
    if sha(e.content) != tables[name][filename] {
      forall n | Locks(tables, sha, filename, e, n) ensures false { SoleOwner(tables, filename, name, n); }
      return None;
    }
    LockedForOne(tables, sha, filename, e, name);
    return Some(name);
  }

  method CheckListed(tables: Tables, sha: Bytes -> string, entries: map<string, Entry>, filename: string,
                     ghost locked: map<string, Option<string>>)
    returns (r: Option<string>)
    requires filename in entries && locked == LockedEntries(tables, sha, entries)
    ensures filename in locked && r == locked[filename]
  {
    r := Check(tables, sha, filename, entries[filename]);
  }

  lemma ListedOnce(listing: seq<string>, names: set<string>, k: nat)
    requires Enumerates(listing, names) && k < |listing|
    ensures listing[k] in names && listing[k] !in listing[..k]
    ensures listing[..k + 1] == listing[..k] + [listing[k]]
  {
  }

  /** The entries looked at so far, each selected by its own package. */
  ghost predicate Selecting(locked: map<string, Option<string>>, seen: seq<string>, selected: map<string, string>) {
    && (forall n :: n in selected ==> selected[n] in seen && selected[n] in locked && locked[selected[n]] == Some(n))
    && (forall f :: f in seen ==> && f in locked && locked[f].Some?
                                  && locked[f].value in selected && selected[locked[f].value] == f)
  }

  lemma SelectOneMore(locked: map<string, Option<string>>, seen: seq<string>, selected: map<string, string>, f: string)
    requires Selecting(locked, seen, selected)
    requires f in locked && locked[f].Some? && locked[f].value !in selected
    ensures Selecting(locked, seen + [f], selected[locked[f].value := f])
  {
  }

  lemma Unowned(locked: map<string, Option<string>>, names: set<string>, f: string)
    requires f in locked && locked[f].None?
    ensures forall s :: !Pairs(locked, names, s)
  {
  }

  lemma Doubled(locked: map<string, Option<string>>, names: set<string>, f: string, g: string)
    requires f in locked && g in locked && f != g && locked[f].Some? && locked[f] == locked[g]
    ensures forall s :: !Pairs(locked, names, s)
  {
    forall s | Pairs(locked, names, s) ensures false {}
  }

  lemma Unselected(locked: map<string, Option<string>>, names: set<string>, selected: map<string, string>)
    requires selected.Keys != names && Pairs(locked, selected.Keys, selected)
    ensures forall s :: !Pairs(locked, names, s)
  {
    forall s | Pairs(locked, names, s) ensures false {}
  }

  /** The verifier's loop: the listed entries' selection, unless one of them has no
      package or shares it, and then no bijection exists. */
  method Select(tables: Tables, sha: Bytes -> string, entries: map<string, Entry>, listing: seq<string>,
                ghost locked: map<string, Option<string>>)
    returns (r: Option<map<string, string>>)
    requires Enumerates(listing, entries.Keys) && locked == LockedEntries(tables, sha, entries)
    ensures r.Some? ==> Pairs(locked, r.value.Keys, r.value)
    ensures r.None? ==> forall s :: !Pairs(locked, tables.Keys, s)
  {
    var selected: map<string, string> := map[];
    for k := 0 to |listing|
      invariant Selecting(locked, listing[..k], selected)
    {
      var f := listing[k];
      ListedOnce(listing, entries.Keys, k);
      var owner := CheckListed(tables, sha, entries, f, locked);
      if owner.None? {
        Unowned(locked, tables.Keys, f);
        return None;
      }
      if owner.value in selected {
        Doubled(locked, tables.Keys, f, selected[owner.value]);
        return None;
      }
      SelectOneMore(locked, listing[..k], selected, f);
      selected := selected[owner.value := f];
    }
    assert listing[..|listing|] == listing;
    return Some(selected);
  }

  /** `verify`: accepts exactly the exact wheelhouses, whatever order `iterdir`
      yields, and returns the one selection. */
  method Verify(tables: Tables, sha: Bytes -> string, directory: Directory) returns (r: Option<map<string, string>>)
    ensures r.Some? ==> directory.status == Present && Exact(tables, sha, directory.entries, r.value)
    ensures r.None? ==> directory.status != Present || forall s :: !Exact(tables, sha, directory.entries, s)
  {
    if directory.status != Present { return None; }
    var listing := directory.IterDir();
    ghost var locked := LockedEntries(tables, sha, directory.entries);
    var selected := Select(tables, sha, directory.entries, listing, locked);
    if selected.None? { return None; }
    if selected.value.Keys != tables.Keys {
      Unselected(locked, tables.Keys, selected.value);
      return None;
    }
    return selected;
  }
}
