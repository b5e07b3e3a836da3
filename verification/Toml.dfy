/** Parsed TOML documents, and what both planners read from them. */
module Toml {
  import opened Text

  /** A number or a date matters here only through Python's truth test. */
  datatype Value =
    | Str(text: string)
    | Num(isZero: bool)
    | Bool(value: bool)
    | Stamp
    | Arr(items: seq<Value>)
    | Table(entries: seq<(string, Value)>)

  /** Result of a script: a value, its own refusal, or an exception it lets escape. */
  datatype Outcome<+T> = Ok(value: T) | Refused | Crashed

  /** `table.get(key)`. TOML forbids a repeated key, so the first is the only one. */
  function Get(entries: seq<(string, Value)>, key: string): Option<Value> {
    if entries == [] then None
    else if entries[0].0 == key then Some(entries[0].1)
    else Get(entries[1..], key)
  }

  /** Python's `bool(value)`. */
  predicate Truthy(v: Value) {
    match v
    case Str(s) => s != ""
    case Num(isZero) => !isZero
    case Bool(b) => b
    case Stamp => true
    case Arr(items) => items != []
    case Table(entries) => entries != []
  }

  /** `doc.get(key, {})` followed by another `.get`: a present non-table raises. */
  function SubTable(entries: seq<(string, Value)>, key: string): Outcome<seq<(string, Value)>> {
    match Get(entries, key)
    case None => Ok([])
    case Some(Table(inner)) => Ok(inner)
    case Some(_) => Crashed
  }

  /** `manifest["tool"]["poetry"]["dependencies"]` with a default at every level. */
  function Dependencies(manifest: seq<(string, Value)>): Outcome<seq<(string, Value)>> {
    match SubTable(manifest, "tool")
    case Ok(tool) =>
      (match SubTable(tool, "poetry")
       case Ok(poetry) =>
         (match Get(poetry, "dependencies")
          case None => Ok([])
          case Some(Table(declared)) => Ok(declared)
          case Some(_) => Refused)
       case _ => Crashed)
    case _ => Crashed
  }

  /** A lock's `[[package]]` array: present and not empty. */
  function Packages(lock: seq<(string, Value)>): Option<seq<Value>> {
    match Get(lock, "package")
    case Some(Arr(items)) => if items == [] then None else Some(items)
    case _ => None
  }

  /** What stands at a key: nothing, a table's entries, or something else. */
  ghost predicate Absent(entries: seq<(string, Value)>, key: string) { Get(entries, key) == None }

  ghost predicate TableAt(entries: seq<(string, Value)>, key: string, inner: seq<(string, Value)>) {
    Get(entries, key) == Some(Table(inner))
  }

  /** Where the manifest's dependency table comes from: missing at any level means no
      dependencies at all, a `tool` or `poetry` that is no table escapes as an exception,
      and dependencies that are no table are refused. */
  lemma DependenciesMean(manifest: seq<(string, Value)>, tool: seq<(string, Value)>, poetry: seq<(string, Value)>, declared: seq<(string, Value)>)
    ensures Absent(manifest, "tool") ==> Dependencies(manifest) == Ok([])
    ensures TableAt(manifest, "tool", tool) && Absent(tool, "poetry") ==> Dependencies(manifest) == Ok([])
    ensures TableAt(manifest, "tool", tool) && TableAt(tool, "poetry", poetry) ==>
              && (Absent(poetry, "dependencies") ==> Dependencies(manifest) == Ok([]))
              && (TableAt(poetry, "dependencies", declared) ==> Dependencies(manifest) == Ok(declared))
              && (Dependencies(manifest).Refused? <==>
                    Get(poetry, "dependencies").Some? && !Get(poetry, "dependencies").value.Table?)
    ensures Dependencies(manifest).Crashed?
      <==> (Get(manifest, "tool").Some? && !Get(manifest, "tool").value.Table?)
           || (exists t :: TableAt(manifest, "tool", t) && Get(t, "poetry").Some? && !Get(t, "poetry").value.Table?)
  {
    match Get(manifest, "tool")
    case Some(Table(t)) => assert TableAt(manifest, "tool", t);
    case _ =>
  }

  /** A lock's packages are the array at `package`, when there is one and it is not empty. */
  lemma PackagesMean(lock: seq<(string, Value)>, packages: seq<Value>)
    ensures Packages(lock) == Some(packages) <==> Get(lock, "package") == Some(Arr(packages)) && packages != []
  {
  }

  /** Python's empty values are the only false ones. */
  lemma FalsyExactly(v: Value)
    ensures !Truthy(v) <==> v == Str("") || v == Num(true) || v == Bool(false) || v == Arr([]) || v == Table([])
  {
  }
}
