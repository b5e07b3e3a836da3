/** The cache key: `cache_key` of scripts/warm_reviewed_wheelhouse.py. */
module CacheKey {
  import opened Text

  type Bytes = seq<Byte>

  /** `3\.[0-9]{1,2}` */
  predicate IsPython(s: string) {
    (|s| == 3 || |s| == 4) && s[0] == '3' && s[1] == '.' && forall i :: 2 <= i < |s| ==> IsDigit(s[i])
  }

  function HexDigit(n: int): char
    requires 0 <= n < 16
  {
    if n < 10 then '0' + n as char else 'a' + (n - 10) as char
  }

  /** `hexdigest()` of a digest. */
  function Hex(digest: Bytes): string {
    if digest == [] then ""
    else [HexDigit(digest[0] / 16), HexDigit(digest[0] % 16)] + Hex(digest[1..])
  }

  lemma {:induction false} HexHasNoHyphen(digest: Bytes)
    ensures HyphenFree(Hex(digest))
  {
    if digest != [] { HexHasNoHyphen(digest[1..]); }
  }

  lemma HexDigitInjective(m: int, n: int)
    requires 0 <= m < 16 && 0 <= n < 16 && HexDigit(m) == HexDigit(n)
    ensures m == n
  {
  }

  lemma {:induction false} HexInjective(a: Bytes, b: Bytes)
    requires Hex(a) == Hex(b)
    ensures a == b
  {
    if a != [] && b != [] {
      assert Hex(a)[0] == HexDigit(a[0] / 16) && Hex(a)[1] == HexDigit(a[0] % 16);
      assert Hex(b)[0] == HexDigit(b[0] / 16) && Hex(b)[1] == HexDigit(b[0] % 16);
      HexDigitInjective(a[0] / 16, b[0] / 16);
      HexDigitInjective(a[0] % 16, b[0] % 16);
      assert Hex(a)[2..] == Hex(a[1..]) && Hex(b)[2..] == Hex(b[1..]);
      HexInjective(a[1..], b[1..]);
      assert a == [a[0]] + a[1..] && b == [b[0]] + b[1..];
    }
  }

  /** SHA-256 of the two files' concatenated SHA-256 digests. */
  function Combined(sha: Bytes -> Bytes, manifest: Bytes, lock: Bytes): Bytes {
    sha(sha(manifest) + sha(lock))
  }

  /** `python.replace(".", "")` for a bare minor version. */
  function Short(python: string): string
    requires IsPython(python)
  {
    [python[0]] + python[2..]
  }

  function Key(sha: Bytes -> Bytes, manifest: Bytes, lock: Bytes, os: string, arch: string, python: string): Option<string> {
    if !IsPython(python) then None
    else Some((("workspace-wheelhouse-" + (os + "-" + arch)) + "-" + ("py" + Short(python))) + "-"
              + Hex(Combined(sha, manifest, lock)))
  }

  /** Two inputs a hash cannot tell apart. */
  ghost predicate Collision(sha: Bytes -> Bytes, a: Bytes, b: Bytes) { a != b && sha(a) == sha(b) }

  /** Digests have one length. */
  ghost predicate FixedLength(sha: Bytes -> Bytes) { forall x :: |sha(x)| == 32 }

  lemma ShortInjective(a: string, b: string)
    requires IsPython(a) && IsPython(b) && Short(a) == Short(b)
    ensures a == b
  {
    assert a == [a[0], a[1]] + Short(a)[1..] && b == [b[0], b[1]] + Short(b)[1..];
  }

  /** Equal combined digests mean equal files, or a hash collision in plain sight. */
  lemma CombinedDetermines(sha: Bytes -> Bytes, m: Bytes, l: Bytes, m': Bytes, l': Bytes)
    requires FixedLength(sha) && Combined(sha, m, l) == Combined(sha, m', l')
    ensures (m == m' && l == l') || Collision(sha, m, m') || Collision(sha, l, l')
            || Collision(sha, sha(m) + sha(l), sha(m') + sha(l'))
  {
    if sha(m) + sha(l) == sha(m') + sha(l') {
      assert sha(m) == (sha(m) + sha(l))[..32] && sha(m') == (sha(m') + sha(l'))[..32];
      assert sha(l) == (sha(m) + sha(l))[32..] && sha(l') == (sha(m') + sha(l'))[32..];
    }
  }

  lemma KeyFields(sha: Bytes -> Bytes, m: Bytes, l: Bytes, os: string, arch: string, python: string,
                  m': Bytes, l': Bytes, os': string, arch': string, python': string)
    requires IsPython(python) && IsPython(python')
    requires Key(sha, m, l, os, arch, python) == Key(sha, m', l', os', arch', python')
    ensures os + "-" + arch == os' + "-" + arch' && python == python'
    ensures Combined(sha, m, l) == Combined(sha, m', l')
  {
    var hex, hex' := Hex(Combined(sha, m, l)), Hex(Combined(sha, m', l'));
    var py, py' := "py" + Short(python), "py" + Short(python');
    var platform, platform' := os + "-" + arch, os' + "-" + arch';
    var head, head' := "workspace-wheelhouse-" + platform, "workspace-wheelhouse-" + platform';
    HexHasNoHyphen(Combined(sha, m, l));
    HexHasNoHyphen(Combined(sha, m', l'));
    TwoFields(head, py, hex, head', py', hex');
    assert platform == head[21..] && platform' == head'[21..];
    assert Short(python) == py[2..] && Short(python') == py'[2..];
    ShortInjective(python, python');
    HexInjective(Combined(sha, m, l), Combined(sha, m', l'));
  }

  /** What a key determines, for any two sets of inputs it is computed from: the
      joined platform text, the interpreter, and the bytes of both files short of a
      hash collision. */
  lemma KeyDetermines(sha: Bytes -> Bytes, m: Bytes, l: Bytes, os: string, arch: string, python: string,
                      m': Bytes, l': Bytes, os': string, arch': string, python': string)
    requires FixedLength(sha) && IsPython(python) && IsPython(python')
    requires Key(sha, m, l, os, arch, python) == Key(sha, m', l', os', arch', python')
    ensures os + "-" + arch == os' + "-" + arch' && python == python'
    ensures (m == m' && l == l') || Collision(sha, m, m') || Collision(sha, l, l')
            || Collision(sha, sha(m) + sha(l), sha(m') + sha(l'))
  {
    KeyFields(sha, m, l, os, arch, python, m', l', os', arch', python');
    CombinedDetermines(sha, m, l, m', l');
  }

  /** The last two hyphen-free fields of a text are determined by it. */
  lemma TwoFields(a: string, b: string, c: string, a': string, b': string, c': string)
    requires HyphenFree(b) && HyphenFree(c) && HyphenFree(b') && HyphenFree(c')
    requires (a + "-" + b) + "-" + c == (a' + "-" + b') + "-" + c'
    ensures a == a' && b == b' && c == c'
  {
    CutLastIs(a + "-" + b, '-', c);
    CutLastIs(a' + "-" + b', '-', c');
    CutLastIs(a, '-', b);
    CutLastIs(a', '-', b');
  }

  /** With hyphen-free platform names the key is injective, short of a collision. */
  lemma KeyIsInjective(sha: Bytes -> Bytes, m: Bytes, l: Bytes, os: string, arch: string, python: string,
                       m': Bytes, l': Bytes, os': string, arch': string, python': string)
    requires FixedLength(sha) && IsPython(python) && IsPython(python')
    requires HyphenFree(os) && HyphenFree(os')
    requires Key(sha, m, l, os, arch, python) == Key(sha, m', l', os', arch', python')
    ensures os == os' && arch == arch' && python == python'
    ensures (m == m' && l == l') || Collision(sha, m, m') || Collision(sha, l, l')
            || Collision(sha, sha(m) + sha(l), sha(m') + sha(l'))
  {
    KeyDetermines(sha, m, l, os, arch, python, m', l', os', arch', python');
    CutIs(os, '-', arch);
    CutIs(os', '-', arch');
  }

  /** What `hashFiles` computes over some files, in order: the digest of their
      concatenated digests. */
  function Digests(sha: Bytes -> Bytes, files: seq<Bytes>): Bytes {
    if files == [] then [] else sha(files[0]) + Digests(sha, files[1..])
  }

  function HashFiles(sha: Bytes -> Bytes, files: seq<Bytes>): Bytes { sha(Digests(sha, files)) }

  /** A consumer that restores with `hashFiles` over the manifest and the lock, in that
      order, computes the digest the key carries. */
  lemma ConsumerComputesTheKey(sha: Bytes -> Bytes, manifest: Bytes, lock: Bytes, os: string, arch: string, python: string)
    ensures Key(sha, manifest, lock, os, arch, python).Some? <==> IsPython(python)
    ensures IsPython(python) ==>
              Key(sha, manifest, lock, os, arch, python).value
              == "workspace-wheelhouse-" + os + "-" + arch + "-py" + Short(python) + "-" + Hex(HashFiles(sha, [manifest, lock]))
  {
    assert [manifest, lock][1..] == [lock] && [lock][1..] == [];
    assert Digests(sha, [lock]) == sha(lock) + Digests(sha, []);
    assert Digests(sha, [manifest, lock]) == sha(manifest) + sha(lock);
    if IsPython(python) { KeyText(os, arch, Short(python), Hex(Combined(sha, manifest, lock))); }
  }

  lemma KeyText(os: string, arch: string, short: string, hex: string)
    ensures (("workspace-wheelhouse-" + (os + "-" + arch)) + "-" + ("py" + short)) + "-" + hex
         == "workspace-wheelhouse-" + os + "-" + arch + "-py" + short + "-" + hex
  {
    assert "-" + ("py" + short) == "-py" + short;
  }

  /** Which inputs share a key, exactly. */
  lemma SharedKeys(sha: Bytes -> Bytes, m: Bytes, l: Bytes, os: string, arch: string, python: string,
                   m': Bytes, l': Bytes, os': string, arch': string, python': string)
    requires IsPython(python) && IsPython(python')
    ensures Key(sha, m, l, os, arch, python) == Key(sha, m', l', os', arch', python')
      <==> os + "-" + arch == os' + "-" + arch' && python == python' && Combined(sha, m, l) == Combined(sha, m', l')
  {
    if Key(sha, m, l, os, arch, python) == Key(sha, m', l', os', arch', python') {
      KeyFields(sha, m, l, os, arch, python, m', l', os', arch', python');
    }
  }

  /** Without that, two platforms can share a key: a hyphen moves across the join. */
  lemma HyphenedPlatformsCollide(sha: Bytes -> Bytes, m: Bytes, l: Bytes, os: string, middle: string, arch: string, python: string)
    ensures Key(sha, m, l, os + "-" + middle, arch, python) == Key(sha, m, l, os, middle + "-" + arch, python)
  {
    assert (os + "-" + middle) + "-" + arch == os + "-" + (middle + "-" + arch);
  }

  /** `3\.[0-9]{1,2}`: a three, a dot, and one or two digits. */
  lemma PythonExactly(s: string)
    ensures IsPython(s)
      <==> && (|s| == 3 || |s| == 4) && s[0] == '3' && s[1] == '.'
           && forall i :: 2 <= i < |s| ==> '0' <= s[i] <= '9'
  {
  }

  /** The digest is written in lower-case hexadecimal, high half first. */
  lemma {:induction false} HexReads(digest: Bytes)
    ensures |Hex(digest)| == 2 * |digest|
    ensures forall i :: 0 <= i < |digest| ==> Hex(digest)[2 * i] == "0123456789abcdef"[digest[i] / 16]
    ensures forall i :: 0 <= i < |digest| ==> Hex(digest)[2 * i + 1] == "0123456789abcdef"[digest[i] % 16]
  {
    if digest != [] {
      HexReads(digest[1..]);
      HexDigitReads(digest[0] / 16);
      HexDigitReads(digest[0] % 16);
      assert Hex(digest)[2..] == Hex(digest[1..]);
      forall i | 0 <= i < |digest|
        ensures Hex(digest)[2 * i] == "0123456789abcdef"[digest[i] / 16]
        ensures Hex(digest)[2 * i + 1] == "0123456789abcdef"[digest[i] % 16]
      {
        if i > 0 {
          assert digest[1..][i - 1] == digest[i];
          assert Hex(digest)[2 * i] == Hex(digest[1..])[2 * (i - 1)];
          assert Hex(digest)[2 * i + 1] == Hex(digest[1..])[2 * (i - 1) + 1];
        }
      }
    }
  }

  lemma HexDigitReads(n: int)
    requires 0 <= n < 16
    ensures HexDigit(n) == "0123456789abcdef"[n]
  {
  }
}
