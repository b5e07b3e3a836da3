/** Index URLs: how `urllib.parse.urlsplit` reads an https URL, which private
    index URLs the lock may carry, and the credentialed URL rebuilt from one. */
module IndexUrl {
  import opened Text

  const PRIVATE_HOST := "registry.dotmac.io"
  const REGISTRY_PATH := "/api/packages/dotmac/pypi/simple"
  const PRIVATE_INDEX := "https://" + (PRIVATE_HOST + REGISTRY_PATH)
  const PUBLIC_HOST := "pypi.org"
  const PUBLIC_INDEX := "https://" + (PUBLIC_HOST + "/simple")

  predicate PrivateHost(host: string) { host == PRIVATE_HOST }

  predicate PublicHost(host: string) { host == PUBLIC_HOST || host == "files.pythonhosted.org" }

  predicate AllowedHost(host: string) { PrivateHost(host) || PublicHost(host) }

  predicate Https(url: string) { StartsWith(url, "https://") }

  /** What `urlsplit` returns for an https URL; `Malformed` is its ValueError. */
  datatype Split = Malformed | Split(netloc: string, path: string, query: string, fragment: string)

  predicate Removed(c: char) { c == '\t' || c == '\r' || c == '\n' }

  predicate EndsAuthority(c: char) { c == '/' || c == '?' || c == '#' }

  predicate Bracket(c: char) { c == '[' || c == ']' }

  /** `urlsplit` deletes every tab and line break before it parses. */
  function Strip(s: string): (r: string)
    ensures forall c :: c in r ==> !Removed(c) && c in s
  {
    if s == "" then ""
    else if Removed(s[0]) then Strip(s[1..])
    else [s[0]] + Strip(s[1..])
  }

  /** Where the authority stops: the first slash, question mark or hash. */
  function AuthorityEnd(s: string): (i: nat)
    ensures i <= |s|
    ensures forall k :: 0 <= k < i ==> !EndsAuthority(s[k])
    ensures i < |s| ==> EndsAuthority(s[i])
  {
    if s == "" || EndsAuthority(s[0]) then 0 else 1 + AuthorityEnd(s[1..])
  }

  /** An authority with a bracket names an IPv6 literal or is malformed; no allowed host
      is one, so it is malformed here. */
  predicate Bracketed(s: string) { '[' in s || ']' in s }

  function Urlsplit(url: string): Split
    requires Https(url)
  {
    var rest := Strip(url[8..]);
    var end := AuthorityEnd(rest);
    if Bracketed(rest[..end]) then Malformed
    else
      var (beforeFragment, fragment) := Cut(rest[end..], '#');
      var (path, query) := Cut(beforeFragment, '?');
      Split(rest[..end], path, query, fragment)
  }

  /** The text after the last at-sign. */
  function HostInfo(netloc: string): string { CutLast(netloc, '@').1 }

  function UserInfo(netloc: string): string { CutLast(netloc, '@').0 }

  /** `SplitResult.hostname`: no userinfo, no port, lowercased up to a zone mark;
      the empty string stands for `None`. */
  function Hostname(netloc: string): string {
    var (name, _) := Cut(HostInfo(netloc), ':');
    var (address, zone) := Cut(name, '%');
    if '%' in name then Lower(address) + "%" + zone else Lower(address)
  }

  /** `_host`: the lowercased host an https index URL names, or a refusal. */
  function Host(url: string): Option<string> {
    if !Https(url) then None
    else match Urlsplit(url)
      case Malformed => None
      case Split(netloc, _, _, _) =>
        if Hostname(netloc) == "" then None else Some(Lower(Hostname(netloc)))
  }

  /** `_refuse_a_decorated_index`: a username, a password or any port text. */
  predicate Decorated(url: string)
    requires Https(url)
  {
    match Urlsplit(url)
    case Malformed => true
    case Split(netloc, _, _, _) =>
      var (username, password) := Cut(UserInfo(netloc), ':');
      username != "" || password != "" || Cut(HostInfo(netloc), ':').1 != ""
  }

  /** `urlunsplit(("https", netloc, path, query, fragment))` for a path that is
      empty or begins with a slash, which is all `urlsplit` can give back. */
  function Urlunsplit(netloc: string, path: string, query: string, fragment: string): string {
    "https://" + (netloc + (path + ((if query == "" then "" else "?" + query)
                                    + (if fragment == "" then "" else "#" + fragment))))
  }

  function Authority(credential: string, host: string): string {
    "ci-reader:" + (credential + ("@" + host))
  }

  /** The URL `acquire` hands the downloader for a private index. */
  function Credentialed(credential: string, host: string, index: string): string
    requires Https(index)
  {
    match Urlsplit(index)
    case Malformed => index
    case Split(_, path, query, fragment) =>
      Urlunsplit(Authority(credential, host), path, query, fragment)
  }

  /** The reparse both scripts make before anything is downloaded. */
  predicate ReparsesTo(url: string, host: string)
    requires Https(url)
  {
    var s := Urlsplit(url);
    s.Split? && Hostname(s.netloc) == host
  }
}
