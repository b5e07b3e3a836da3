/** The wheel filename convention of PEP 427, as both scripts' pattern reads it. */
module WheelName {
  import opened Text

  /** What the pattern's groups and unnamed parts match, in order. */
  datatype Parts = Parts(name: string, version: string, build: Option<string>,
                         python: string, abi: string, platform: string)

  predicate IsNameChar(c: char) { IsAlnum(c) || c == '_' || c == '.' }

  predicate NameField(s: string) {
    s != "" && forall i :: 0 <= i < |s| ==> IsNameChar(s[i])
  }

  /** `[^-]+` */
  predicate Field(s: string) { s != "" && HyphenFree(s) }

  function Platform(p: Parts): string { p.platform + ".whl" }

  function Tags(p: Parts): string { p.python + "-" + (p.abi + "-" + Platform(p)) }

  function BuildAndTags(p: Parts): string {
    if p.build.Some? then p.build.value + "-" + Tags(p) else Tags(p)
  }

  function Print(p: Parts): string { p.name + "-" + (p.version + "-" + BuildAndTags(p)) }

  /** The pattern `([A-Za-z0-9_.]+)-([^-]+)-(?:[^-]+-)?[^-]+-[^-]+-[^-]+\.whl\Z`:
      the text is these parts, each drawn from its class. */
  predicate Matches(s: string, p: Parts) {
    && s == p.name + "-" + p.version + "-" + (if p.build.Some? then p.build.value + "-" else "")
            + p.python + "-" + p.abi + "-" + p.platform + ".whl"
    && p.name != "" && (forall c :: c in p.name ==> 'A' <= c <= 'Z' || 'a' <= c <= 'z' || '0' <= c <= '9' || c == '_' || c == '.')
    && p.version != "" && '-' !in p.version
    && (p.build.Some? ==> p.build.value != "" && '-' !in p.build.value)
    && p.python != "" && '-' !in p.python && p.abi != "" && '-' !in p.abi && p.platform != "" && '-' !in p.platform
  }

  /** The same, by fields. */
  predicate Drawn(s: string, p: Parts) {
    && s == Print(p)
    && NameField(p.name) && Field(p.version)
    && (p.build.Some? ==> Field(p.build.value))
    && Field(p.python) && Field(p.abi) && Field(p.platform)
  }

  lemma PrintedText(p: Parts)
    ensures Print(p) == p.name + "-" + p.version + "-" + (if p.build.Some? then p.build.value + "-" else "")
                        + p.python + "-" + p.abi + "-" + p.platform + ".whl"
  {
    var tags := p.python + "-" + p.abi + "-" + p.platform + ".whl";
    assert Tags(p) == tags;
    if p.build.Some? { assert BuildAndTags(p) == p.build.value + "-" + tags; }
  }

  lemma MatchesIsDrawn(s: string, p: Parts)
    ensures Matches(s, p) <==> Drawn(s, p)
  {
    PrintedText(p);
    assert NameField(p.name) <==> p.name != "" && forall c :: c in p.name ==> IsNameChar(c);
  }

  /** The reading by fields: split at every hyphen, five fields or six. */
  function Parse(s: string): Option<Parts> { ParseFields(Split(s)) }

  function ParseFields(f: seq<string>): Option<Parts> {
    var n := |f|;
    if n != 5 && n != 6 then None
    else if !EndsWith(f[n - 1], ".whl") || |f[n - 1]| == 4 then None
    else if !NameField(f[0]) || "" in f then None
    else Some(Parts(f[0], f[1], if n == 6 then Some(f[2]) else None,
                    f[n - 3], f[n - 2], f[n - 1][..|f[n - 1]| - 4]))
  }

  function TagFields(p: Parts): seq<string> { [p.python] + ([p.abi] + [Platform(p)]) }

  function Fields(p: Parts): seq<string> {
    [p.name] + ([p.version] + (if p.build.Some? then [p.build.value] + TagFields(p) else TagFields(p)))
  }

  lemma JoinTags(p: Parts)
    ensures Join(TagFields(p)) == Tags(p)
  {
    JoinCons(p.abi, [Platform(p)]);
    JoinCons(p.python, [p.abi] + [Platform(p)]);
  }

  lemma JoinFields(p: Parts)
    ensures Join(Fields(p)) == Print(p)
  {
    JoinTags(p);
    var rest := TagFields(p);
    if p.build.Some? {
      JoinCons(p.build.value, rest);
      rest := [p.build.value] + rest;
    }
    JoinCons(p.version, rest);
    JoinCons(p.name, [p.version] + rest);
  }

  /** The pattern is unambiguous: whatever way an engine backtracks, the parts it
      can match are the ones read off the hyphen-separated fields, the name and
      version are the first two fields with or without a build tag, and printing
      the parts gives the filename back. */
  lemma PatternIsUnambiguous(s: string, p: Parts)
    ensures Matches(s, p) <==> Parse(s) == Some(p)
  {
    MatchesIsDrawn(s, p);
    if Matches(s, p) {
      FieldsSplit(p);
      FieldsRead(p);
    } else if Parse(s) == Some(p) {
      ParseMatches(s, p);
      assert false;
    }
  }

  lemma FieldsSplit(p: Parts)
    requires Drawn(Print(p), p)
    ensures Split(Print(p)) == Fields(p)
    ensures "" !in Fields(p)
  {
    var f := Fields(p);
    assert forall x :: x in f ==> HyphenFree(x) && x != "";
    JoinFields(p);
    SplitJoin(f);
  }

  lemma PlatformField(p: Parts)
    requires p.platform != ""
    ensures EndsWith(Platform(p), ".whl") && |Platform(p)| > 4
    ensures Platform(p)[..|Platform(p)| - 4] == p.platform
  {
    assert Platform(p)[|p.platform|..] == ".whl";
  }

  lemma FieldsRead(p: Parts)
    requires "" !in Fields(p) && NameField(p.name) && p.platform != ""
    ensures ParseFields(Fields(p)) == Some(p)
  {
    PlatformField(p);
    if p.build.Some? {
      assert Fields(p) == [p.name, p.version, p.build.value, p.python, p.abi, Platform(p)];
    } else {
      assert Fields(p) == [p.name, p.version, p.python, p.abi, Platform(p)];
    }
  }

  /** Reading fields gives parts that have exactly those fields. */
  lemma FieldsParsed(f: seq<string>, p: Parts)
    requires ParseFields(f) == Some(p) && forall x :: x in f ==> HyphenFree(x)
    ensures Fields(p) == f && Drawn(Print(p), p)
  {
    LastField(f[|f| - 1]);
    assert forall i :: 0 <= i < |f| ==> f[i] in f;
  }

  lemma LastField(s: string)
    requires EndsWith(s, ".whl") && |s| > 4 && HyphenFree(s)
    ensures s == s[..|s| - 4] + ".whl" && Field(s[..|s| - 4])
  {
  }

  lemma ParseMatches(s: string, p: Parts)
    requires Parse(s) == Some(p)
    ensures Drawn(s, p)
  {
    var f := Split(s);
    FieldsParsed(f, p);
    JoinFields(p);
  }

  /** A wheel's name is a regular `.whl` basename: nonempty stem, no path part removed. */
  lemma WheelSuffix(s: string, p: Parts)
    requires Matches(s, p)
    ensures EndsWith(s, ".whl") && |s| > 4
  {
    MatchesIsDrawn(s, p);
    assert s[|s| - 4..] == ".whl";
  }
}
