/** Strings as the scripts use them: ASCII character classes, first and last
    occurrences, and the hyphen split that wheel names and cache keys share. */
module Text {

  datatype Option<+T> = None | Some(value: T) {
    function GetOr(default: T): T { if Some? then value else default }
  }

  type Byte = b: int | 0 <= b < 256

  predicate IsDigit(c: char) { '0' <= c <= '9' }

  predicate IsUpper(c: char) { 'A' <= c <= 'Z' }

  predicate IsLower(c: char) { 'a' <= c <= 'z' }

  predicate IsAlnum(c: char) { IsDigit(c) || IsUpper(c) || IsLower(c) }

  function LowerChar(c: char): char {
    if IsUpper(c) then c - 'A' + 'a' else c
  }

  function Lower(s: string): (r: string)
    ensures |r| == |s|
    ensures forall i :: 0 <= i < |s| ==> r[i] == LowerChar(s[i])
  {
    seq(|s|, i requires 0 <= i < |s| => LowerChar(s[i]))
  }

  lemma Regroup(a: string, b: string, c: string)
    ensures (a + b) + c == a + (b + c)
  {
  }

  predicate StartsWith(s: string, prefix: string) { prefix <= s }

  predicate EndsWith(s: string, suffix: string) {
    |suffix| <= |s| && s[|s| - |suffix|..] == suffix
  }

  /** The index of the first `c` in `s`, or `|s|`. */
  function First(s: string, c: char): (i: nat)
    ensures i <= |s|
    ensures c !in s[..i]
    ensures i < |s| ==> s[i] == c
  {
    if s == "" || s[0] == c then 0 else 1 + First(s[1..], c)
  }

  /** Python's `s.partition(c)`: the text before the first `c` and after it. */
  function Cut(s: string, c: char): (r: (string, string))
    ensures c !in r.0
    ensures c !in s ==> r == (s, "")
    ensures c in s ==> s == r.0 + [c] + r.1
  {
    var i := First(s, c);
    if i == |s| then (s, "") else (s[..i], s[i + 1..])
  }

  lemma CutIs(before: string, c: char, after: string)
    requires c !in before
    ensures Cut(before + [c] + after, c) == (before, after)
    ensures Cut(before, c) == (before, "")
  {
    var s := before + [c] + after;
    assert s[|before|] == c;
    assert s[..|before|] == before && s[|before| + 1..] == after;
  }

  /** Python's `s.rpartition(c)`: the text before the last `c` and after it. */
  function CutLast(s: string, c: char): (r: (string, string))
    ensures c !in r.1
    ensures c !in s ==> r == ("", s)
    ensures c in s ==> s == r.0 + [c] + r.1
  {
    if c !in s then ("", s)
    else if s[|s| - 1] == c then (s[..|s| - 1], "")
    else
      var r := CutLast(s[..|s| - 1], c);
      assert s == s[..|s| - 1] + [s[|s| - 1]];
      (r.0, r.1 + [s[|s| - 1]])
  }

  lemma {:induction false} CutLastIs(before: string, c: char, after: string)
    requires c !in after
    ensures CutLast(before + [c] + after, c) == (before, after)
    decreases |after|
  {
    var s := before + [c] + after;
    assert s[|before|] == c;
    if after != "" {
      var init := after[..|after| - 1];
      assert s[..|s| - 1] == before + [c] + init;
      assert after == init + [after[|after| - 1]];
      CutLastIs(before, c, init);
    } else {
      assert s[..|s| - 1] == before;
    }
  }

  predicate HyphenFree(s: string) { '-' !in s }

  /** Python's `s.split("-")`. */
  function Split(s: string): (fields: seq<string>)
    ensures |fields| >= 1
    ensures forall f :: f in fields ==> HyphenFree(f)
    ensures Join(fields) == s
    decreases |s|
  {
    if HyphenFree(s) then [s]
    else
      var cut := Cut(s, '-');
      [cut.0] + Split(cut.1)
  }

  /** Python's `"-".join(fields)`. */
  function Join(fields: seq<string>): string {
    if |fields| == 0 then ""
    else if |fields| == 1 then fields[0]
    else fields[0] + "-" + Join(fields[1..])
  }

  lemma JoinCons(field: string, rest: seq<string>)
    requires |rest| >= 1
    ensures Join([field] + rest) == field + "-" + Join(rest)
  {
    assert ([field] + rest)[1..] == rest;
  }

  lemma {:induction false} SplitJoin(fields: seq<string>)
    requires |fields| >= 1
    requires forall f :: f in fields ==> HyphenFree(f)
    ensures Split(Join(fields)) == fields
    decreases |fields|
  {
    if |fields| > 1 {
      assert HyphenFree(fields[0]);
      SplitJoin(fields[1..]);
      var s := Join(fields);
      CutIs(fields[0], '-', Join(fields[1..]));
      assert s[|fields[0]|] == '-';
    }
  }
}
