/** Package names: the normalisation both scripts apply, and the patterns a
    normalised name and a version must match before they reach pip. */
module Names {
  import opened Text

  predicate IsSeparator(c: char) { c == '-' || c == '_' || c == '.' }

  /** What the first character contributes: a run's last separator becomes a hyphen
      and the run's others vanish. */
  function Lead(name: string): string
    requires name != ""
  {
    if !IsSeparator(name[0]) then [name[0]]
    else if |name| > 1 && IsSeparator(name[1]) then ""
    else "-"
  }

  /** `re.sub(r"[-_.]+", "-", name)`: each maximal run of separators becomes one hyphen. */
  function Collapse(name: string): string {
    if name == "" then "" else Lead(name) + Collapse(name[1..])
  }

  function Normalise(name: string): string { Lower(Collapse(name)) }

  /** What a normalised name looks like: no capital, underscore or dot, and no
      two hyphens side by side. */
  predicate NormalForm(name: string) {
    && (forall i :: 0 <= i < |name| ==> !IsUpper(name[i]) && name[i] != '_' && name[i] != '.')
    && (forall i :: 0 <= i < |name| - 1 ==> !(name[i] == '-' && name[i + 1] == '-'))
  }

  predicate Collapsed(name: string) {
    && (forall i :: 0 <= i < |name| ==> name[i] != '_' && name[i] != '.')
    && (forall i :: 0 <= i < |name| - 1 ==> !(name[i] == '-' && name[i + 1] == '-'))
  }

  lemma {:induction false} CollapseCollapses(name: string)
    ensures Collapsed(Collapse(name))
    ensures name != "" ==> Collapse(name) != "" && (Collapse(name)[0] == '-' <==> IsSeparator(name[0]))
  {
    if name != "" { CollapseCollapses(name[1..]); }
  }

  lemma {:induction false} CollapseFixes(name: string)
    requires Collapsed(name)
    ensures Collapse(name) == name
  {
    if name != "" {
      assert forall i :: 0 <= i < |name[1..]| ==> name[1..][i] == name[i + 1];
      CollapseFixes(name[1..]);
    }
  }

  lemma LowerFixes(name: string)
    requires forall i :: 0 <= i < |name| ==> !IsUpper(name[i])
    ensures Lower(name) == name
  {
  }

  lemma NormaliseReachesNormalForm(name: string)
    ensures NormalForm(Normalise(name))
  {
    CollapseCollapses(name);
  }

  lemma NormalFormIsFixed(name: string)
    requires NormalForm(name)
    ensures Normalise(name) == name
  {
    CollapseFixes(name);
    LowerFixes(name);
  }

  /** Normalising always reaches a normal form, and normal forms are exactly its
      fixed points, so normalising twice is normalising once. */
  lemma NormaliseIsCanonical(name: string)
    ensures NormalForm(Normalise(name))
    ensures Normalise(name) == name <==> NormalForm(name)
    ensures Normalise(Normalise(name)) == Normalise(name)
  {
    NormaliseReachesNormalForm(name);
    NormalFormIsFixed(Normalise(name));
    if NormalForm(name) { NormalFormIsFixed(name); }
  }

  predicate IsRun(s: string) {
    s != "" && forall i :: 0 <= i < |s| ==> IsSeparator(s[i])
  }

  predicate NoSeparator(s: string) {
    forall i :: 0 <= i < |s| ==> !IsSeparator(s[i])
  }

  lemma {:induction false} CollapseRun(run: string, after: string)
    requires IsRun(run) && (after == "" || !IsSeparator(after[0]))
    ensures Collapse(run + after) == "-" + Collapse(after)
  {
    assert (run + after)[1..] == run[1..] + after;
    if |run| > 1 {
      CollapseRun(run[1..], after);
    } else {
      assert run[1..] + after == after;
    }
  }

  lemma CollapseFirst(before: string, more: string)
    requires before != "" && (|before| > 1 || !IsSeparator(before[0]))
    ensures Collapse(before + more) == Lead(before) + Collapse(before[1..] + more)
  {
    assert (before + more)[1..] == before[1..] + more;
  }

  lemma {:induction false} CollapseAround(before: string, run: string, after: string)
    requires IsRun(run) && (before == "" || !IsSeparator(before[|before| - 1]))
    requires after == "" || !IsSeparator(after[0])
    ensures Collapse(before + (run + after)) == Collapse(before) + ("-" + Collapse(after))
  {
    if before == "" {
      assert before + (run + after) == run + after;
      CollapseRun(run, after);
    } else {
      CollapseAround(before[1..], run, after);
      CollapseFirst(before, run + after);
      Regroup(Lead(before), Collapse(before[1..]), "-" + Collapse(after));
    }
  }

  lemma {:induction false} CollapseIdle(s: string)
    requires NoSeparator(s)
    ensures Collapse(s) == s
  {
    if s != "" { CollapseIdle(s[1..]); }
  }

  lemma LowerJoins(a: string, b: string)
    ensures Lower(a + b) == Lower(a) + Lower(b)
  {
  }

  /** What normalising does to any name: each maximal run of separators, of
      whatever kinds, becomes one hyphen, and the text around it is normalised alone. */
  lemma NormaliseByRuns(before: string, run: string, after: string)
    requires IsRun(run) && (before == "" || !IsSeparator(before[|before| - 1]))
    requires after == "" || !IsSeparator(after[0])
    ensures Normalise(before + (run + after)) == Normalise(before) + ("-" + Normalise(after))
  {
    CollapseAround(before, run, after);
    LowerJoins(Collapse(before), "-" + Collapse(after));
    LowerJoins("-", Collapse(after));
    assert Lower("-") == "-";
  }

  /** And text without separators is only lowercased. */
  lemma NormaliseBetweenRuns(text: string)
    requires NoSeparator(text)
    ensures Normalise(text) == Lower(text)
  {
    CollapseIdle(text);
  }

  predicate LowerWord(w: string) {
    w != "" && forall i :: 0 <= i < |w| ==> IsLower(w[i]) || IsDigit(w[i])
  }

  predicate LowerWords(ws: seq<string>) {
    forall i :: 0 <= i < |ws| ==> LowerWord(ws[i])
  }

  /** `[a-z0-9]+(?:-[a-z0-9]+)*`, decided by splitting at the hyphens. */
  predicate IsName(s: string) { LowerWords(Split(s)) }

  /** `dotmac-[a-z0-9]+(?:-[a-z0-9]+)*`, the names that may resolve privately. */
  predicate InPrivateScope(s: string) {
    StartsWith(s, "dotmac-") && IsName(s[7..])
  }

  /** The split decides the pattern: a name is one or more words joined by hyphens. */
  lemma NamePattern(s: string)
    ensures IsName(s) <==> exists ws :: |ws| >= 1 && LowerWords(ws) && s == Join(ws)
  {
    forall ws | |ws| >= 1 && LowerWords(ws) && s == Join(ws) ensures IsName(s) {
      assert forall w :: w in ws ==> LowerWord(w);
      SplitJoin(ws);
    }
    if IsName(s) { assert s == Join(Split(s)); }
  }

  lemma {:induction false} JoinOfWords(ws: seq<string>)
    requires |ws| >= 1 && LowerWords(ws)
    ensures NormalForm(Join(ws)) && Join(ws) != "" && Join(ws)[0] != '-'
  {
    if |ws| > 1 {
      assert LowerWord(ws[0]);
      assert LowerWords(ws[1..]);
      JoinOfWords(ws[1..]);
    } else {
      assert LowerWord(ws[0]);
    }
  }

  /** Every name a plan admits is already normalised and cannot read as a pip option. */
  lemma NamesAreNormal(s: string)
    requires IsName(s)
    ensures NormalForm(s) && Normalise(s) == s && s != "" && s[0] != '-'
  {
    JoinOfWords(Split(s));
    NormalFormIsFixed(s);
  }

  predicate IsVersionChar(c: char) {
    IsAlnum(c) || c == '.' || c == '!' || c == '+' || c == '_' || c == '-'
  }

  /** A requirement made of an admitted name and version is one argument that no option
      parser takes for an option: no leading dash, no space, no slash. */
  lemma RequirementIsPlain(name: string, version: string)
    requires IsName(name) && IsVersion(version)
    ensures var requirement := name + "==" + version;
            requirement != "" && requirement[0] != '-' && ' ' !in requirement && '/' !in requirement && version[0] != '-'
  {
    NamesAreNormal(name);
    forall c | c in name ensures c != ' ' && c != '/' { NameChars(name, c); }
  }

  lemma NameChars(name: string, c: char)
    requires IsName(name) && c in name
    ensures c == '-' || IsLower(c) || IsDigit(c)
  {
    JoinChars(Split(name), c);
  }

  lemma {:induction false} JoinChars(ws: seq<string>, c: char)
    requires LowerWords(ws) && c in Join(ws)
    ensures c == '-' || IsLower(c) || IsDigit(c)
  {
    if |ws| > 1 {
      assert LowerWord(ws[0]) && LowerWords(ws[1..]);
      if c in Join(ws[1..]) { JoinChars(ws[1..], c); }
    } else if |ws| == 1 {
      assert LowerWord(ws[0]);
    }
  }

  /** `[A-Za-z0-9][A-Za-z0-9.!+_-]*`. */
  predicate IsVersion(s: string) {
    s != "" && IsAlnum(s[0]) && forall i :: 0 <= i < |s| ==> IsVersionChar(s[i])
  }

  // ---- the patterns, told by their characters ----

  predicate NameChar(c: char) { 'a' <= c <= 'z' || '0' <= c <= '9' || c == '-' }

  /** Lower-case letters, digits and hyphens, no hyphen at either end or beside another. */
  predicate Dashed(s: string) {
    && s != "" && s[0] != '-' && s[|s| - 1] != '-'
    && (forall i :: 0 <= i < |s| ==> NameChar(s[i]))
    && (forall i :: 0 <= i < |s| - 1 ==> !(s[i] == '-' && s[i + 1] == '-'))
  }

  lemma DashedWord(w: string)
    requires HyphenFree(w)
    ensures Dashed(w) <==> LowerWord(w)
  {
  }

  lemma DashedCut(w: string, rest: string)
    requires HyphenFree(w)
    ensures Dashed(w + (['-'] + rest)) <==> Dashed(w) && Dashed(rest)
  {
    var s := w + (['-'] + rest);
    assert s[|w|] == '-' && s[|w| + 1..] == rest && s[..|w|] == w;
    assert forall i :: 0 <= i < |w| ==> s[i] == w[i];
    assert forall i :: 0 <= i < |rest| ==> s[|w| + 1 + i] == rest[i];
    if Dashed(s) {
      assert s[0] != '-' && s[|s| - 1] != '-';
      assert rest != "" && rest[0] == s[|w| + 1] && rest[|rest| - 1] == s[|s| - 1];
      forall i | 0 <= i < |rest| - 1 ensures !(rest[i] == '-' && rest[i + 1] == '-') {
        var k := |w| + 1 + i;
        assert rest[i] == s[k] && rest[i + 1] == s[k + 1];
      }
    }
  }

  /** `[a-z0-9]+(?:-[a-z0-9]+)*`, exactly. */
  lemma {:induction false} NameExactly(s: string)
    ensures IsName(s) <==> Dashed(s)
    decreases |s|
  {
    if HyphenFree(s) {
      DashedWord(s);
      assert [s][0] == s;
    } else {
      var cut := Cut(s, '-');
      assert cut.0 + ['-'] + cut.1 == cut.0 + (['-'] + cut.1);
      DashedWord(cut.0);
      DashedCut(cut.0, cut.1);
      NameExactly(cut.1);
      var words := [cut.0] + Split(cut.1);
      assert words[0] == cut.0 && words[1..] == Split(cut.1);
      assert LowerWords(words) <==> LowerWord(words[0]) && LowerWords(words[1..]) by { WordsSplit(words); }
    }
  }

  lemma WordsSplit(words: seq<string>)
    requires words != []
    ensures LowerWords(words) <==> LowerWord(words[0]) && LowerWords(words[1..])
  {
    if LowerWord(words[0]) && LowerWords(words[1..]) {
      forall i | 0 <= i < |words| ensures LowerWord(words[i]) {
        if i > 0 { assert words[1..][i - 1] == words[i]; }
      }
    }
  }

  /** The private scope is the names that begin with `dotmac-`. */
  lemma ScopeExactly(s: string)
    ensures InPrivateScope(s) <==> Dashed(s) && "dotmac-" <= s
  {
    if "dotmac-" <= s {
      ScopePrefix();
      NameAfter("dotmac", "dotmac-", s);
    }
  }

  lemma ScopePrefix()
    ensures "dotmac-" == "dotmac" + ['-'] && HyphenFree("dotmac") && Dashed("dotmac")
  {
  }

  lemma SplitPrefix(word: string, prefix: string, s: string)
    requires prefix == word + ['-'] && prefix <= s
    ensures s == word + (['-'] + s[|word| + 1..])
  {
    assert s == s[..|prefix|] + s[|prefix|..];
  }

  lemma NameAfter(word: string, prefix: string, s: string)
    requires prefix == word + ['-'] && prefix <= s && HyphenFree(word) && Dashed(word)
    ensures IsName(s[|prefix|..]) <==> Dashed(s)
  {
    var rest := s[|prefix|..];
    SplitPrefix(word, prefix, s);
    DashedCut(word, rest);
    NameExactly(rest);
  }

  /** `[A-Za-z0-9][A-Za-z0-9.!+_-]*`, exactly. */
  lemma VersionExactly(s: string)
    ensures IsVersion(s)
      <==> && s != "" && ('A' <= s[0] <= 'Z' || 'a' <= s[0] <= 'z' || '0' <= s[0] <= '9')
           && forall c :: c in s ==> || 'A' <= c <= 'Z' || 'a' <= c <= 'z' || '0' <= c <= '9'
                                     || c == '.' || c == '!' || c == '+' || c == '_' || c == '-'
  {
    assert forall i :: 0 <= i < |s| ==> s[i] in s;
  }
}
