/** What a private index URL may look like, and what the credentialed URL built
    from it means to the parser that reads it next. */
module CredentialedUrl {
  import opened Text
  import opened IndexUrl

  predicate CleanText(s: string) {
    forall c :: c in s ==> !Removed(c)
  }

  /** Text that survives inside an authority: nothing ends it, nothing is deleted. */
  predicate CleanAuthority(s: string) {
    forall c :: c in s ==> !Removed(c) && !EndsAuthority(c) && !Bracket(c)
  }

  lemma {:induction false} StripFixes(s: string)
    requires CleanText(s)
    ensures Strip(s) == s
  {
    if s != "" {
      assert s[0] in s;
      StripFixes(s[1..]);
    }
  }

  lemma {:induction false} StripAppend(a: string, b: string)
    ensures Strip(a + b) == Strip(a) + Strip(b)
  {
    if a == "" {
      assert a + b == b;
    } else {
      assert (a + b)[1..] == a[1..] + b;
      StripAppend(a[1..], b);
    }
  }

  lemma {:induction false} AuthorityEndIs(netloc: string, tail: string)
    requires forall k :: 0 <= k < |netloc| ==> !EndsAuthority(netloc[k])
    requires tail != "" ==> EndsAuthority(tail[0])
    ensures AuthorityEnd(netloc + tail) == |netloc|
  {
    if netloc == "" {
      assert netloc + tail == tail;
    } else {
      assert (netloc + tail)[1..] == netloc[1..] + tail;
      AuthorityEndIs(netloc[1..], tail);
    }
  }

  /** The components `urlsplit` can produce. */
  predicate Components(path: string, query: string, fragment: string) {
    && CleanText(path) && CleanText(query) && CleanText(fragment)
    && (path == "" || path[0] == '/') && '?' !in path && '#' !in path && '#' !in query
  }

  lemma TailComponents(tail: string)
    requires CleanText(tail) && (tail != "" ==> EndsAuthority(tail[0]))
    ensures var (before, fragment) := Cut(tail, '#');
            var (path, query) := Cut(before, '?');
            Components(path, query, fragment)
  {
    var (before, fragment) := Cut(tail, '#');
    var (path, query) := Cut(before, '?');
    assert forall c :: c in before ==> c in tail;
    assert forall c :: c in fragment ==> c in tail;
    assert forall c :: c in path ==> c in before;
    assert forall c :: c in query ==> c in before;
    if path != "" { assert path[0] == tail[0]; }
  }

  lemma SplitComponents(url: string)
    requires Https(url) && Urlsplit(url).Split?
    ensures var s := Urlsplit(url);
            CleanAuthority(s.netloc) && Components(s.path, s.query, s.fragment)
  {
    var rest := Strip(url[8..]);
    var end := AuthorityEnd(rest);
    assert forall c :: c in rest[..end] ==> c in rest && !EndsAuthority(c);
    assert forall c :: c in rest[end..] ==> c in rest;
    if rest[end..] != "" { assert rest[end..][0] == rest[end]; }
    TailComponents(rest[end..]);
  }

  function Marked(mark: char, text: string): string {
    if text == "" then "" else [mark] + text
  }

  function Tail(path: string, query: string, fragment: string): string {
    path + (Marked('?', query) + Marked('#', fragment))
  }

  lemma CutMarked(before: string, mark: char, text: string)
    requires mark !in before
    ensures Cut(before + Marked(mark, text), mark) == (before, text)
  {
    CutIs(before, mark, text);
    if text == "" {
      assert before + Marked(mark, text) == before;
    } else {
      Regroup(before, [mark], text);
    }
  }

  lemma TailParts(path: string, query: string, fragment: string)
    ensures Tail(path, query, fragment) == path + Marked('?', query) + Marked('#', fragment)
  {
  }

  lemma NoHash(path: string, query: string)
    requires '#' !in path && '#' !in query
    ensures '#' !in path + Marked('?', query)
  {
  }

  lemma TailCuts(path: string, query: string, fragment: string)
    requires Components(path, query, fragment)
    ensures Cut(Tail(path, query, fragment), '#') == (path + Marked('?', query), fragment)
    ensures Cut(path + Marked('?', query), '?') == (path, query)
  {
    NoHash(path, query);
    TailParts(path, query, fragment);
    CutMarked(path, '?', query);
    CutMarked(path + Marked('?', query), '#', fragment);
  }

  /** Printing a split URL and splitting it again gives the same components back. */
  lemma UnsplitSplit(netloc: string, path: string, query: string, fragment: string)
    requires CleanAuthority(netloc) && Components(path, query, fragment)
    ensures Urlsplit(Urlunsplit(netloc, path, query, fragment)) == Split.Split(netloc, path, query, fragment)
  {
    var tail := Tail(path, query, fragment);
    var url := Urlunsplit(netloc, path, query, fragment);
    assert url[8..] == netloc + tail;
    StripFixes(netloc + tail) by { assert CleanText(tail); }
    AuthorityEndIs(netloc, tail);
    assert (netloc + tail)[..|netloc|] == netloc && (netloc + tail)[|netloc|..] == tail;
    assert !Bracketed(netloc) by { if Bracketed(netloc) { assert Bracket('[') && Bracket(']'); } }
    TailCuts(path, query, fragment);
  }

  predicate PlainHost(host: string) {
    && CleanAuthority(host) && host != ""
    && '@' !in host && ':' !in host && '%' !in host && Lower(host) == host
  }

  lemma HostnameOf(before: string, host: string)
    requires PlainHost(host)
    ensures Hostname(before + "@" + host) == host
  {
    CutLastIs(before, '@', host);
    assert before + ['@'] + host == before + "@" + host;
    CutIs(host, ':', "");
    CutIs(host, '%', "");
  }

  lemma AuthorityHostname(credential: string, host: string)
    requires PlainHost(host)
    ensures Hostname(Authority(credential, host)) == host
  {
    HostnameOf("ci-reader:" + credential, host);
    Regroup("ci-reader:", credential, "@" + host);
    Regroup("ci-reader:" + credential, "@", host);
  }

  lemma AuthorityIsClean(credential: string, host: string)
    requires PlainHost(host)
    ensures CleanAuthority(Authority(credential, host)) <==> CleanAuthority(credential)
  {
    var a := Authority(credential, host);
    assert forall c :: c in "ci-reader:" ==> !Removed(c) && !EndsAuthority(c) && !Bracket(c);
    assert forall c :: c in a <==> c in "ci-reader:" || c in credential || c == '@' || c in host;
  }

  /** The credentialed URL splits back into the very authority it was built from, with
      the credential as it was given, and the index's own path, query and fragment,
      exactly when the credential holds no slash, question mark, hash, bracket, tab or
      line break. */
  lemma RoundTrip(credential: string, host: string, index: string)
    requires Https(index) && Urlsplit(index).Split? && PlainHost(host)
    ensures var s := Urlsplit(index);
            Urlsplit(Credentialed(credential, host, index))
              == Split.Split(Authority(credential, host), s.path, s.query, s.fragment)
            <==> CleanAuthority(credential)
    ensures CleanAuthority(credential) ==>
              ReparsesTo(Credentialed(credential, host, index), host)
  {
    var s := Urlsplit(index);
    SplitComponents(index);
    AuthorityIsClean(credential, host);
    var a := Authority(credential, host);
    if CleanAuthority(credential) {
      UnsplitSplit(a, s.path, s.query, s.fragment);
      AuthorityHostname(credential, host);
    } else if Urlsplit(Credentialed(credential, host, index)).Split? {
      SplitComponents(Credentialed(credential, host, index));
    }
  }

  /** The part of a credential the parser takes for authority text. */
  function Seen(credential: string): (seen: string)
    ensures forall c :: c in seen ==> !EndsAuthority(c)
  {
    var kept := Strip(credential);
    kept[..AuthorityEnd(kept)]
  }

  /** Whether the parser sees authority text to the credential's end. */
  predicate SeenWhole(credential: string) { Seen(credential) == Strip(credential) }

  lemma {:induction false} AuthorityEndPrefix(clean: string, s: string)
    requires forall k :: 0 <= k < |clean| ==> !EndsAuthority(clean[k])
    ensures AuthorityEnd(clean + s) == |clean| + AuthorityEnd(s)
  {
    if clean == "" {
      assert clean + s == s;
    } else {
      assert (clean + s)[1..] == clean[1..] + s;
      AuthorityEndPrefix(clean[1..], s);
    }
  }

  lemma {:induction false} AuthorityEndStops(s: string, more: string)
    requires AuthorityEnd(s) < |s|
    ensures AuthorityEnd(s + more) == AuthorityEnd(s)
  {
    if !EndsAuthority(s[0]) {
      assert (s + more)[1..] == s[1..] + more;
      AuthorityEndStops(s[1..], more);
    }
  }

  lemma AuthorityThen(credential: string, host: string, tail: string)
    ensures Authority(credential, host) + tail == "ci-reader:" + (credential + ("@" + host + tail))
  {
    Regroup("ci-reader:", credential + ("@" + host), tail);
    Regroup(credential, "@" + host, tail);
  }

  lemma StripAuthority(credential: string, host: string, tail: string)
    requires PlainHost(host) && CleanText(tail)
    ensures Strip(Authority(credential, host) + tail) == Authority(Strip(credential), host) + tail
  {
    var after := "@" + host + tail;
    StripFixes("ci-reader:");
    StripFixes(after);
    StripAppend(credential, after);
    StripAppend("ci-reader:", credential + after);
    AuthorityThen(credential, host, tail);
    AuthorityThen(Strip(credential), host, tail);
  }

  lemma WholeAuthority(kept: string, host: string, tail: string)
    requires AuthorityEnd(kept) == |kept| && PlainHost(host) && (tail != "" ==> EndsAuthority(tail[0]))
    ensures AuthorityEnd(Authority(kept, host) + tail) == |Authority(kept, host)|
  {
    var a := Authority(kept, host);
    forall k | 0 <= k < |a| ensures !EndsAuthority(a[k]) {
      if k >= 10 + |kept| + 1 { assert a[k] in host; }
    }
    AuthorityEndIs(a, tail);
  }

  lemma PrefixOf(a: string, b: string, c: string, n: nat)
    requires n <= |b|
    ensures (a + (b + c))[..|a| + n] == a + b[..n]
  {
  }

  predicate EndsNothing(s: string) {
    forall c :: c in s ==> !EndsAuthority(c)
  }

  lemma CutBehind(front: string, kept: string, more: string, rest: string)
    requires EndsNothing(front) && rest == front + (kept + more) && AuthorityEnd(kept) < |kept|
    ensures rest[..AuthorityEnd(rest)] == front + kept[..AuthorityEnd(kept)]
  {
    AuthorityEndPrefix(front, kept + more);
    AuthorityEndStops(kept, more);
    PrefixOf(front, kept, more, AuthorityEnd(kept));
  }

  lemma UserEndsNothing()
    ensures EndsNothing("ci-reader:")
  {
  }

  lemma CutAuthority(kept: string, host: string, tail: string, rest: string)
    requires AuthorityEnd(kept) < |kept| && rest == Authority(kept, host) + tail
    ensures rest[..AuthorityEnd(rest)] == "ci-reader:" + kept[..AuthorityEnd(kept)]
  {
    AuthorityThen(kept, host, tail);
    UserEndsNothing();
    CutBehind("ci-reader:", kept, "@" + host + tail, rest);
  }

  /** What the parser takes for the authority of a rebuilt URL, whatever the credential. */
  function Perceived(credential: string, host: string): string {
    if SeenWhole(credential) then Authority(Strip(credential), host)
    else "ci-reader:" + Seen(credential)
  }

  lemma RebuiltAuthority(credential: string, host: string, tail: string)
    requires PlainHost(host) && CleanText(tail) && (tail != "" ==> EndsAuthority(tail[0]))
    ensures var rest := Strip(Authority(credential, host) + tail);
            rest[..AuthorityEnd(rest)] == Perceived(credential, host)
  {
    StripAuthority(credential, host, tail);
    var kept := Strip(credential);
    if AuthorityEnd(kept) == |kept| {
      WholeAuthority(kept, host, tail);
      assert (Authority(kept, host) + tail)[..|Authority(kept, host)|] == Authority(kept, host);
    } else {
      CutAuthority(kept, host, tail, Authority(kept, host) + tail);
    }
  }

  lemma RebuiltText(netloc: string, path: string, query: string, fragment: string)
    ensures Https(Urlunsplit(netloc, path, query, fragment))
    ensures Urlunsplit(netloc, path, query, fragment)[8..] == netloc + Tail(path, query, fragment)
  {
  }

  lemma AuthorityOf(url: string)
    requires Https(url)
    ensures var rest := Strip(url[8..]);
            var netloc := rest[..AuthorityEnd(rest)];
            if Bracketed(netloc) then Urlsplit(url).Malformed?
            else Urlsplit(url).Split? && Urlsplit(url).netloc == netloc
  {
  }

  lemma RebuiltSplit(credential: string, host: string, index: string)
    requires Https(index) && Urlsplit(index).Split? && PlainHost(host)
    ensures var s := Urlsplit(Credentialed(credential, host, index));
            if Bracketed(Perceived(credential, host)) then s.Malformed?
            else s.Split? && s.netloc == Perceived(credential, host)
  {
    var s := Urlsplit(index);
    SplitComponents(index);
    var tail := Tail(s.path, s.query, s.fragment);
    TailShape(s.path, s.query, s.fragment);
    RebuiltText(Authority(credential, host), s.path, s.query, s.fragment);
    RebuiltAuthority(credential, host, tail);
    AuthorityOf(Credentialed(credential, host, index));
  }

  lemma TailShape(path: string, query: string, fragment: string)
    requires Components(path, query, fragment)
    ensures CleanText(Tail(path, query, fragment))
    ensures Tail(path, query, fragment) != "" ==> EndsAuthority(Tail(path, query, fragment)[0])
  {
  }

  lemma LastAt(user: string, seen: string)
    requires '@' in seen
    ensures HostInfo(user + seen) == HostInfo(seen)
  {
    var r := CutLast(seen, '@');
    Regroup(r.0, "@", r.1);
    Regroup(user, r.0, "@" + r.1);
    Regroup(user + r.0, "@", r.1);
    CutLastIs(user + r.0, '@', r.1);
  }

  lemma PortCut(name: string, rest: string)
    requires '@' !in name && '@' !in rest && ':' !in name && '%' !in name
    ensures Hostname((name + ":") + rest) == Lower(name)
  {
    CutIs(name, ':', rest);
  }

  lemma UserIsPlain()
    ensures "ci-reader" + ":" == "ci-reader:"
    ensures '@' !in "ci-reader" && ':' !in "ci-reader" && '%' !in "ci-reader"
  {
  }

  lemma NoAt(seen: string)
    requires '@' !in seen
    ensures Hostname("ci-reader:" + seen) == Lower("ci-reader")
  {
    UserIsPlain();
    PortCut("ci-reader", seen);
  }

  /** The host the parser finds in what it perceives. */
  lemma PerceivedHost(credential: string, host: string)
    requires PlainHost(host) && host != Lower("ci-reader")
    ensures Hostname(Perceived(credential, host)) == host
      <==> SeenWhole(credential) || ('@' in Seen(credential) && Hostname(Seen(credential)) == host)
  {
    var seen := Seen(credential);
    if SeenWhole(credential) {
      AuthorityHostname(Strip(credential), host);
    } else if '@' in seen {
      LastAt("ci-reader:", seen);
    } else {
      NoAt(seen);
    }
  }

  /** The reparse check, decided from the credential alone. It passes when the
      parser reads authority to the credential's end and finds no bracket, and
      otherwise only when what it does read already ends in an at-sign and text
      naming the host. */
  lemma ReparseVerdict(credential: string, host: string, index: string)
    requires Https(index) && Urlsplit(index).Split? && PlainHost(host) && host != Lower("ci-reader")
    ensures ReparsesTo(Credentialed(credential, host, index), host)
      <==> && !Bracketed(Seen(credential))
           && (SeenWhole(credential) || ('@' in Seen(credential) && Hostname(Seen(credential)) == host))
  {
    RebuiltSplit(credential, host, index);
    PerceivedBrackets(credential, host);
    PerceivedHost(credential, host);
  }

  /** The text after what the parser takes for the authority. */
  function Remainder(url: string): string
    requires Https(url)
  {
    var rest := Strip(url[8..]);
    rest[AuthorityEnd(rest)..]
  }

  lemma AuthoritySize(credential: string, host: string)
    ensures |Authority(credential, host)| == 11 + |credential| + |host|
  {
  }

  lemma LeftBehind(credential: string, host: string, tail: string, rest: string, end: nat)
    requires host != "" && rest == Authority(Strip(credential), host) + tail
    requires end <= |rest| && rest[..end] == Perceived(credential, host)
    ensures if SeenWhole(credential) then rest[end..] == tail else |rest[end..]| > |tail| + 2
  {
    AuthoritySize(Strip(credential), host);
    assert |Perceived(credential, host)| == end;
  }

  lemma RebuiltRemainder(credential: string, host: string, index: string)
    requires Https(index) && Urlsplit(index).Split? && PlainHost(host)
    ensures var s := Urlsplit(index);
            var tail, left := Tail(s.path, s.query, s.fragment), Remainder(Credentialed(credential, host, index));
            if SeenWhole(credential) then left == tail else |left| > |tail| + 2
  {
    var s := Urlsplit(index);
    SplitComponents(index);
    var tail := Tail(s.path, s.query, s.fragment);
    TailShape(s.path, s.query, s.fragment);
    RebuiltText(Authority(credential, host), s.path, s.query, s.fragment);
    RebuiltAuthority(credential, host, tail);
    StripAuthority(credential, host, tail);
    var rest := Strip(Authority(credential, host) + tail);
    LeftBehind(credential, host, tail, rest, AuthorityEnd(rest));
  }

  lemma PartsLength(url: string)
    requires Https(url) && Urlsplit(url).Split?
    ensures var s := Urlsplit(url); |Remainder(url)| <= |s.path| + |s.query| + |s.fragment| + 2
  {
  }

  /** When the rebuilt URL still names the host and carries the index's own path, query
      and fragment: exactly when the parser reads authority to the credential's end and
      finds no bracket in it. A tab or line break, which the parser deletes, does no harm. */
  lemma PartsSurvive(credential: string, host: string, index: string)
    requires Https(index) && Urlsplit(index).Split? && PlainHost(host)
    ensures var s, rebuilt := Urlsplit(index), Urlsplit(Credentialed(credential, host, index));
            && rebuilt.Split? && Hostname(rebuilt.netloc) == host
            && rebuilt.path == s.path && rebuilt.query == s.query && rebuilt.fragment == s.fragment
            <==> !Bracketed(Seen(credential)) && SeenWhole(credential)
  {
    var s, url := Urlsplit(index), Credentialed(credential, host, index);
    RebuiltSplit(credential, host, index);
    PerceivedBrackets(credential, host);
    RebuiltRemainder(credential, host, index);
    if SeenWhole(credential) {
      SplitComponents(index);
      TailCuts(s.path, s.query, s.fragment);
      AuthorityHostname(Strip(credential), host);
    } else if Urlsplit(url).Split? {
      PartsLength(url);
    }
  }

  /** Path, query and fragment of the rebuilt URL are the index's own. */
  predicate KeepsParts(credential: string, host: string, index: string)
    requires Https(index)
  {
    var s, rebuilt := Urlsplit(index), Urlsplit(Credentialed(credential, host, index));
    && rebuilt.Split? && s.Split?
    && rebuilt.path == s.path && rebuilt.query == s.query && rebuilt.fragment == s.fragment
  }

  /** The check asks only for the host: it passes with the rest lost exactly when the
      credential holds a slash, question mark or hash behind authority text that, free of
      brackets, already ends in an at-sign and text naming the host. */
  lemma ReparseLosesParts(credential: string, host: string, index: string)
    requires Https(index) && Urlsplit(index).Split? && PlainHost(host) && host != Lower("ci-reader")
    ensures ReparsesTo(Credentialed(credential, host, index), host) && !KeepsParts(credential, host, index)
      <==> && !Bracketed(Seen(credential)) && !SeenWhole(credential)
           && '@' in Seen(credential) && Hostname(Seen(credential)) == host
  {
    ReparseVerdict(credential, host, index);
    PartsSurvive(credential, host, index);
  }

  lemma PerceivedBrackets(credential: string, host: string)
    requires PlainHost(host)
    ensures Bracketed(Perceived(credential, host)) <==> Bracketed(Seen(credential))
  {
    assert !Bracketed(host) by { if Bracketed(host) { assert Bracket('[') && Bracket(']'); } }
  }

  lemma PrivateHostIsPlain()
    ensures PlainHost(PRIVATE_HOST) && PRIVATE_HOST != Lower("ci-reader")
  {
    assert PRIVATE_HOST[0] == 'r' && Lower("ci-reader")[0] == 'c';
  }

  lemma RegistryPathIsComponent()
    ensures Components(REGISTRY_PATH, "", "")
  {
  }

  lemma BareIndexSplits(host: string, path: string)
    requires PlainHost(host) && Components(path, "", "")
    ensures Https("https://" + (host + path))
    ensures Urlsplit("https://" + (host + path)) == Split.Split(host, path, "", "")
    ensures Host("https://" + (host + path)) == Some(host)
  {
    UnsplitSplit(host, path, "", "");
    assert path + ("" + "") == path;
    BareHostname(host);
  }

  lemma BareHostname(host: string)
    requires PlainHost(host)
    ensures Hostname(host) == host
  {
    CutIs(host, ':', "");
    CutIs(host, '%', "");
  }

  /** What the registry's index URL splits into. */
  lemma PrivateIndexSplits()
    ensures Https(PRIVATE_INDEX)
    ensures Urlsplit(PRIVATE_INDEX) == Split.Split(PRIVATE_HOST, REGISTRY_PATH, "", "")
    ensures Host(PRIVATE_INDEX) == Some(PRIVATE_HOST)
  {
    PrivateHostIsPlain();
    RegistryPathIsComponent();
    BareIndexSplits(PRIVATE_HOST, REGISTRY_PATH);
  }

  lemma PublicHostIsPlain()
    ensures PlainHost(PUBLIC_HOST) && Components("/simple", "", "")
  {
  }

  lemma PublicIndexHost()
    ensures Https(PUBLIC_INDEX) && Host(PUBLIC_INDEX) == Some(PUBLIC_HOST)
  {
    PublicHostIsPlain();
    BareIndexSplits(PUBLIC_HOST, "/simple");
  }

  lemma LostPath(a: string, user: string, host: string, path: string)
    ensures (a + ((user + "@" + host + "/") + ("@" + host))) + path
      == ((a + user) + "@" + host) + ("/@" + (host + path))
  {
    var left := user + "@" + host;
    Regroup(left, "/", "@" + host);
    assert "/" + ("@" + host) == "/@" + host;
    Regroup(a, left + ("/@" + host), path);
    Regroup(left, "/@" + host, path);
    Regroup("/@", host, path);
    Regroup(a, left, "/@" + (host + path));
    Regroup(user, "@", host);
    Regroup(a, user, "@" + host);
    Regroup(a + user, "@", host);
  }

  lemma LostPathIsComponent(host: string, path: string)
    requires PlainHost(host) && Components(path, "", "")
    ensures Components("/@" + (host + path), "", "")
  {
    assert EndsAuthority('?') && EndsAuthority('#');
  }

  lemma UserAuthorityIsClean(user: string, host: string)
    requires PlainHost(host) && CleanAuthority(user)
    ensures CleanAuthority(("ci-reader:" + user) + "@" + host)
  {
    assert forall c :: c in ("ci-reader:" + user) + "@" + host <==>
                         c in "ci-reader:" || c in user || c == '@' || c in host;
  }

  /** The check asks only for the host. A credential that itself ends an authority
      naming the host passes it, and the index's path is then lost. */
  lemma ReparseKeepsOnlyTheHost(user: string, host: string, path: string)
    requires PlainHost(host) && CleanAuthority(user) && Components(path, "", "")
    ensures var index := Urlunsplit(host, path, "", "");
            var url := Credentialed(user + "@" + host + "/", host, index);
            ReparsesTo(url, host) && Urlsplit(url).path == "/@" + (host + path)
  {
    var netloc := ("ci-reader:" + user) + "@" + host;
    var lost := "/@" + (host + path);
    UnsplitSplit(host, path, "", "");
    HostnameOf("ci-reader:" + user, host);
    UserAuthorityIsClean(user, host);
    LostPathIsComponent(host, path);
    UnsplitSplit(netloc, lost, "", "");
    LostPath("ci-reader:", user, host, path);
    SameText(Authority(user + "@" + host + "/", host), path, netloc, lost);
  }

  lemma SameText(netloc: string, path: string, netloc': string, path': string)
    requires netloc + path == netloc' + path'
    ensures Urlunsplit(netloc, path, "", "") == Urlunsplit(netloc', path', "", "")
  {
    assert path + ("" + "") == path && path' + ("" + "") == path';
  }

  // ---- which private index URLs a lock may carry ----

  predicate BareUserInfo(s: string) { s == "" || s == "@" || s == ":@" }

  predicate BarePort(s: string) { s == "" || s == ":" }

  /** The private index URLs `build_plan` admits. The host is exact up to case, but
      an empty userinfo, an empty port, a query and a fragment are not refused. */
  lemma AdmittedPrivateIndex(url: string)
    requires Https(url)
    ensures Host(url) == Some(PRIVATE_HOST) && !Decorated(url)
      <==> && Urlsplit(url).Split?
           && exists u, h, p :: BareUserInfo(u) && BarePort(p) && Lower(h) == PRIVATE_HOST
                                && Urlsplit(url).netloc == u + h + p
  {
    if Urlsplit(url).Split? {
      var netloc := Urlsplit(url).netloc;
      if Host(url) == Some(PRIVATE_HOST) && !Decorated(url) {
        AdmittedShape(netloc);
      }
      forall u, h, p | BareUserInfo(u) && BarePort(p) && Lower(h) == PRIVATE_HOST && netloc == u + h + p
        ensures Host(url) == Some(PRIVATE_HOST) && !Decorated(url)
      {
        ShapeAdmitted(u, h, p);
      }
    }
  }

  /** Among them, for every such decoration: any empty userinfo, any empty port, and any
      path, query and fragment. */
  lemma DecoratedIsAdmitted(u: string, p: string, path: string, query: string, fragment: string)
    requires BareUserInfo(u) && BarePort(p) && Components(path, query, fragment)
    ensures var url := Urlunsplit(u + PRIVATE_HOST + p, path, query, fragment);
            && Https(url) && Host(url) == Some(PRIVATE_HOST) && !Decorated(url)
            && Urlsplit(url) == Split.Split(u + PRIVATE_HOST + p, path, query, fragment)
  {
    var netloc := u + PRIVATE_HOST + p;
    PrivateHostIsPlain();
    DecorationIsClean(u, p);
    UnsplitSplit(netloc, path, query, fragment);
    RebuiltText(netloc, path, query, fragment);
    AdmittedPrivateIndex(Urlunsplit(netloc, path, query, fragment));
  }

  lemma DecorationIsClean(u: string, p: string)
    requires BareUserInfo(u) && BarePort(p)
    ensures CleanAuthority(u + PRIVATE_HOST + p)
  {
    PrivateHostIsPlain();
    assert forall c :: c in u + PRIVATE_HOST + p ==> c == '@' || c == ':' || c in PRIVATE_HOST;
  }

  predicate Undecorated(netloc: string) {
    && Cut(UserInfo(netloc), ':') == ("", "")
    && Cut(HostInfo(netloc), ':').1 == ""
  }

  lemma LowerIsPlain(h: string)
    requires Lower(h) == PRIVATE_HOST
    ensures '@' !in h && ':' !in h && '%' !in h
  {
    forall c | c in h ensures c != '@' && c != ':' && c != '%' {
      var i :| 0 <= i < |h| && h[i] == c;
      assert Lower(h)[i] == LowerChar(c) && Lower(h)[i] in PRIVATE_HOST;
    }
  }

  lemma LowerTwice(h: string)
    ensures Lower(Lower(h)) == Lower(h)
  {
  }

  lemma BareUser(u: string, info: string)
    requires BareUserInfo(u) && '@' !in info
    ensures HostInfo(u + info) == info && Cut(UserInfo(u + info), ':') == ("", "")
  {
    if u == "" {
      assert u + info == info;
    } else {
      CutLastIs(u[..|u| - 1], '@', info);
      assert u == u[..|u| - 1] + ['@'];
    }
    CutIs("", ':', "");
  }

  lemma BareName(h: string, p: string)
    requires BarePort(p) && '@' !in h && ':' !in h
    ensures Cut(h + p, ':') == (h, "") && '@' !in h + p
  {
    CutIs(h, ':', "");
    assert h + "" == h && (h + [':']) + "" == h + ":";
  }

  lemma ShapeAdmitted(u: string, h: string, p: string)
    requires BareUserInfo(u) && BarePort(p) && Lower(h) == PRIVATE_HOST
    ensures Undecorated(u + h + p)
    ensures Lower(Hostname(u + h + p)) == PRIVATE_HOST && Hostname(u + h + p) != ""
  {
    LowerIsPlain(h);
    BareName(h, p);
    BareUser(u, h + p);
    Regroup(u, h, p);
    CutIs(h, '%', "");
    LowerTwice(h);
  }

  lemma NothingAround(s: string)
    requires Cut(s, ':') == ("", "")
    ensures s == "" || s == ":"
  {
    assert ':' in s ==> s == "" + [':'] + "";
  }

  lemma NothingAfter(s: string) returns (p: string)
    requires Cut(s, ':').1 == ""
    ensures BarePort(p) && s == Cut(s, ':').0 + p
  {
    p := if ':' in s then ":" else "";
  }

  lemma PlainName(info: string)
    requires var (name, _) := Cut(info, ':');
             var (address, zone) := Cut(name, '%');
             Lower(if '%' in name then Lower(address) + "%" + zone else Lower(address)) == PRIVATE_HOST
    ensures Lower(Cut(info, ':').0) == PRIVATE_HOST
  {
    var (name, _) := Cut(info, ':');
    var (address, zone) := Cut(name, '%');
    LowerIsPlain(if '%' in name then Lower(address) + "%" + zone else Lower(address));
    LowerTwice(address);
  }

  lemma SplitAround(netloc: string) returns (u: string)
    requires Cut(UserInfo(netloc), ':') == ("", "")
    ensures BareUserInfo(u) && netloc == u + HostInfo(netloc)
  {
    NothingAround(UserInfo(netloc));
    u := if '@' in netloc then UserInfo(netloc) + "@" else "";
  }

  lemma AdmittedShape(netloc: string)
    requires Undecorated(netloc) && Lower(Hostname(netloc)) == PRIVATE_HOST
    ensures exists u, h, p :: BareUserInfo(u) && BarePort(p) && Lower(h) == PRIVATE_HOST && netloc == u + h + p
  {
    var info := HostInfo(netloc);
    var h := Cut(info, ':').0;
    PlainName(info);
    var u := SplitAround(netloc);
    var p := NothingAfter(info);
    Regroup(u, h, p);
  }

  // ---- percent-encoding, as `warm` applies it ----

  predicate Unreserved(b: Byte) {
    IsAlnum(b as char) || b as char == '_' || b as char == '.' || b as char == '-' || b as char == '~'
  }

  function HexDigit(n: int): char
    requires 0 <= n < 16
  {
    if n < 10 then '0' + n as char else 'A' + (n - 10) as char
  }

  function HexValue(c: char): int {
    if IsDigit(c) then c as int - '0' as int else c as int - 'A' as int + 10
  }

  /** `urllib.parse.quote(credential, safe="")` on the credential's UTF-8 bytes. */
  function Quote(credential: seq<Byte>): string {
    if credential == [] then ""
    else if Unreserved(credential[0]) then [credential[0] as char] + Quote(credential[1..])
    else ['%', HexDigit(credential[0] / 16), HexDigit(credential[0] % 16)] + Quote(credential[1..])
  }

  function Unquote(s: string): seq<int> {
    if s == "" then []
    else if s[0] == '%' && |s| >= 3 then [16 * HexValue(s[1]) + HexValue(s[2])] + Unquote(s[3..])
    else [s[0] as int] + Unquote(s[1..])
  }

  lemma {:induction false} QuoteIsClean(credential: seq<Byte>)
    ensures CleanAuthority(Quote(credential))
  {
    if credential != [] {
      var b := credential[0];
      QuoteIsClean(credential[1..]);
      var head := if Unreserved(b) then [b as char] else ['%', HexDigit(b / 16), HexDigit(b % 16)];
      assert CleanAuthority(head);
      assert Quote(credential) == head + Quote(credential[1..]);
    }
  }

  /** Quoting loses nothing: the registry can read the credential back. */
  lemma {:induction false} QuoteRoundTrip(credential: seq<Byte>)
    ensures Unquote(Quote(credential)) == credential
  {
    if credential != [] {
      var b := credential[0];
      QuoteRoundTrip(credential[1..]);
      if Unreserved(b) {
        assert Quote(credential)[1..] == Quote(credential[1..]);
      } else {
        assert Quote(credential)[3..] == Quote(credential[1..]);
        assert HexValue(HexDigit(b / 16)) == b / 16 && HexValue(HexDigit(b % 16)) == b % 16;
      }
    }
  }

  /** The URL `warm` builds around a quoted credential always reparses to the
      registry with the index's own path, so its reparse check never refuses. */
  lemma QuotedNeverRefused(credential: seq<Byte>)
    ensures Https(PRIVATE_INDEX)
    ensures var url := Credentialed(Quote(credential), PRIVATE_HOST, PRIVATE_INDEX);
            && ReparsesTo(url, PRIVATE_HOST)
            && Urlsplit(url) == Split.Split(Authority(Quote(credential), PRIVATE_HOST), REGISTRY_PATH, "", "")
  {
    PrivateHostIsPlain();
    PrivateIndexSplits();
    QuoteIsClean(credential);
    RoundTrip(Quote(credential), PRIVATE_HOST, PRIVATE_INDEX);
  }

  /** Letters, digits, underscore, dot, hyphen and tilde stay as they are, and every
      other byte becomes a percent sign and two upper-case hexadecimal digits. */
  lemma QuoteReads(b: Byte, rest: seq<Byte>)
    ensures var c := b as char;
            Quote([b] + rest)
            == (if 'A' <= c <= 'Z' || 'a' <= c <= 'z' || '0' <= c <= '9' || c == '_' || c == '.' || c == '-' || c == '~'
                then [c] else ['%', "0123456789ABCDEF"[b / 16], "0123456789ABCDEF"[b % 16]]) + Quote(rest)
  {
    assert ([b] + rest)[1..] == rest;
    UpperHex(b / 16);
    UpperHex(b % 16);
  }

  lemma UpperHex(n: int)
    requires 0 <= n < 16
    ensures HexDigit(n) == "0123456789ABCDEF"[n]
  {
  }
}
