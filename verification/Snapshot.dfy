/** The one-snapshot read: `_pull_head`, `_read_blob` and `bind_snapshot` of
    scripts/warm_reviewed_wheelhouse.py, against a forge that moves between calls. */
module Snapshot {
  import opened Text
  import opened Toml

  type Bytes = seq<Byte>

  const MAX_MANIFEST_BYTES := 256 * 1024
  const MAX_LOCK_BYTES := 8 * 1024 * 1024

  /** What a request asks the forge for. */
  datatype Request = Pull(number: nat) | Contents(path: string, ref: string) | Blob(id: string)

  /** What a response decodes to; `Unreachable` is the fetcher's own refusal. */
  datatype Reply =
    | Unreachable
    | Null
    | Text(text: string)
    | Int(n: int)
    | Bool(b: bool)
    | Raw(body: Bytes)
    | List(items: seq<Reply>)
    | Object(fields: map<string, Reply>)

  /** A forge answers the k-th request of a run; nothing relates answers at
      different moments unless a lemma says so. */
  type Forge = (nat, Request) -> Reply

  predicate IsHex(c: char) { IsDigit(c) || 'a' <= c <= 'f' }

  /** `[0-9a-f]{40}\Z` */
  predicate IsCommit(s: string) { |s| == 40 && forall i :: 0 <= i < 40 ==> IsHex(s[i]) }

  function Field(fields: map<string, Reply>, key: string): Reply {
    if key in fields then fields[key] else Null
  }

  predicate Falsy(r: Reply) {
    match r
    case Null => true
    case Text(s) => s == ""
    case Int(n) => n == 0
    case Bool(b) => !b
    case Raw(b) => b == []
    case List(items) => items == []
    case Object(fields) => fields == map[]
    case Unreachable => false
  }

  /** `(pull or {}).get("head", {}).get("sha")`, then the commit pattern. */
  function PullHead(reply: Reply): Outcome<string> {
    if reply.Unreachable? || Falsy(reply) then Refused
    else match reply
      case Object(fields) =>
        if "head" !in fields then Refused
        else (match fields["head"]
              case Object(head) =>
                (match Field(head, "sha")
                 case Text(sha) => if IsCommit(sha) then Ok(sha) else Refused
                 case _ => Refused)
              case _ => Crashed)
      case _ => Crashed
  }

  function Decimal(n: nat): Bytes {
    if n < 10 then [48 + n] else Decimal(n / 10) + [48 + n % 10]
  }

  /** What git hashes for a blob: a header naming the length, a zero byte, the bytes. */
  function BlobText(payload: Bytes): Bytes {
    [98, 108, 111, 98, 32] + (Decimal(|payload|) + ([0] + payload))
  }

  /** `git_blob_id`, for a SHA-1 that yields the id's hex text. */
  function BlobId(sha1: Bytes -> string, payload: Bytes): string { sha1(BlobText(payload)) }

  /** The metadata a contents reply gives: a file's declared size and blob id. A
      Boolean passes `isinstance(size, int)` too. */
  function FileEntry(reply: Reply): Option<(int, string)> {
    match reply
    case Object(fields) =>
      if Field(fields, "type") != Text("file") then None
      else (match (Field(fields, "size"), Field(fields, "sha"))
            case (Int(size), Text(id)) => Some((size, id))
            case (Bool(b), Text(id)) => Some((if b then 1 else 0, id))
            case _ => None)
    case _ => None
  }

  /** `_read_blob`, whose two requests are the run's `k`-th and next. */
  function ReadBlob(forge: Forge, sha1: Bytes -> string, k: nat, path: string, ref: string, limit: nat): Outcome<Bytes> {
    match FileEntry(forge(k, Contents(path, ref)))
    case None => Refused
    case Some((size, id)) =>
      if size > limit then Refused
      else match forge(k + 1, Blob(id))
        case Raw(payload) =>
          if |payload| != size || BlobId(sha1, payload) != id then Refused else Ok(payload)
        case _ => Refused
  }

  /** `bind_snapshot`: head, manifest, lock, head again, at requests 0 to 5. */
  function BindSnapshot(forge: Forge, sha1: Bytes -> string, number: nat, head: string): Outcome<(Bytes, Bytes)> {
    match PullHead(forge(0, Pull(number)))
    case Crashed => Crashed
    case Refused => Refused
    case Ok(before) =>
      if before != head then Refused
      else match ReadBlob(forge, sha1, 1, "pyproject.toml", head, MAX_MANIFEST_BYTES)
        case Crashed => Crashed
        case Refused => Refused
        case Ok(manifest) =>
          match ReadBlob(forge, sha1, 3, "poetry.lock", head, MAX_LOCK_BYTES)
          case Crashed => Crashed
          case Refused => Refused
          case Ok(lock) =>
            match PullHead(forge(5, Pull(number)))
            case Crashed => Crashed
            case Refused => Refused
            case Ok(after) => if after != head then Refused else Ok((manifest, lock))
  }

  /** Commits are immutable: whenever it is asked, the forge describes a path at a
      commit by the blob id of the file that commit's tree holds there. Branch heads
      and blob bodies are not constrained at all. */
  ghost predicate ImmutableCommits(forge: Forge, sha1: Bytes -> string, tree: (string, string) -> Option<Bytes>) {
    forall k: nat, path, ref :: FileEntry(forge(k, Contents(path, ref))).Some? ==>
      tree(ref, path).Some? && FileEntry(forge(k, Contents(path, ref))).value.1 == BlobId(sha1, tree(ref, path).value)
  }

  ghost predicate Collision(sha1: Bytes -> string, a: Bytes, b: Bytes) { a != b && sha1(a) == sha1(b) }

  lemma {:induction false} DecimalGrows(m: nat, n: nat)
    requires m <= n
    ensures |Decimal(m)| <= |Decimal(n)|
  {
    if m >= 10 {
      assert m / 10 <= n / 10;
      DecimalGrows(m / 10, n / 10);
    }
  }

  lemma BlobTextLength(payload: Bytes)
    ensures |BlobText(payload)| == 6 + |Decimal(|payload|)| + |payload|
  {
  }

  /** Different payloads have different blob texts: the header's own length settles
      the payload's. */
  lemma BlobTextInjective(a: Bytes, b: Bytes)
    requires BlobText(a) == BlobText(b)
    ensures a == b
  {
    BlobTextLength(a);
    BlobTextLength(b);
    if |a| < |b| { DecimalGrows(|a|, |b|); } else if |b| < |a| { DecimalGrows(|b|, |a|); }
    var n := 6 + |Decimal(|a|)|;
    assert BlobText(a)[n..] == a && BlobText(b)[n..] == b;
  }

  /** The exact file of the commit's tree, or a SHA-1 collision between blob texts. */
  ghost predicate IsFile(sha1: Bytes -> string, tree: (string, string) -> Option<Bytes>, ref: string, path: string, payload: Bytes) {
    && tree(ref, path).Some?
    && (payload == tree(ref, path).value || Collision(sha1, BlobText(payload), BlobText(tree(ref, path).value)))
  }

  lemma ReadBlobIsTheFile(forge: Forge, sha1: Bytes -> string, tree: (string, string) -> Option<Bytes>,
                          k: nat, path: string, ref: string, limit: nat)
    requires ImmutableCommits(forge, sha1, tree) && ReadBlob(forge, sha1, k, path, ref, limit).Ok?
    ensures var payload := ReadBlob(forge, sha1, k, path, ref, limit).value;
            |payload| <= limit && IsFile(sha1, tree, ref, path, payload)
  {
    var payload := ReadBlob(forge, sha1, k, path, ref, limit).value;
    assert FileEntry(forge(k, Contents(path, ref))).Some?;
    var file := tree(ref, path).value;
    if BlobText(payload) == BlobText(file) { BlobTextInjective(payload, file); }
  }

  /** A run that returns gives exactly the two files of the tree at the named commit,
      within both bounds, with that commit observed as the pull request's head before
      the reads and again after them. */
  lemma SnapshotIsOneCommit(forge: Forge, sha1: Bytes -> string, tree: (string, string) -> Option<Bytes>,
                            number: nat, head: string)
    requires ImmutableCommits(forge, sha1, tree) && BindSnapshot(forge, sha1, number, head).Ok?
    ensures var (manifest, lock) := BindSnapshot(forge, sha1, number, head).value;
            && IsFile(sha1, tree, head, "pyproject.toml", manifest) && |manifest| <= MAX_MANIFEST_BYTES
            && IsFile(sha1, tree, head, "poetry.lock", lock) && |lock| <= MAX_LOCK_BYTES
    ensures PullHead(forge(0, Pull(number))) == Ok(head) && PullHead(forge(5, Pull(number))) == Ok(head)
    ensures IsCommit(head)
  {
    ReadBlobIsTheFile(forge, sha1, tree, 1, "pyproject.toml", head, MAX_MANIFEST_BYTES);
    ReadBlobIsTheFile(forge, sha1, tree, 3, "poetry.lock", head, MAX_LOCK_BYTES);
  }

  /** A pull request reply that names this commit as the head. */
  ghost predicate NamesHead(reply: Reply, head: string) {
    && |head| == 40 && (forall c :: c in head ==> '0' <= c <= '9' || 'a' <= c <= 'f') && reply.Object? && "head" in reply.fields && reply.fields["head"].Object?
    && "sha" in reply.fields["head"].fields && reply.fields["head"].fields["sha"] == Text(head)
  }

  /** The forge describes a file of this commit by its size and blob id, and then serves
      exactly those bytes. */
  ghost predicate ServesFile(forge: Forge, sha1: Bytes -> string, k: nat, path: string, ref: string, limit: nat, payload: Bytes) {
    var entry, id := forge(k, Contents(path, ref)), BlobId(sha1, payload);
    && entry.Object? && "type" in entry.fields && entry.fields["type"] == Text("file")
    && "sha" in entry.fields && entry.fields["sha"] == Text(id)
    && "size" in entry.fields
    && (entry.fields["size"] == Int(|payload|) || entry.fields["size"] == Reply.Bool(|payload| == 1))
    && (entry.fields["size"].Bool? ==> |payload| <= 1)
    && |payload| <= limit && forge(k + 1, Blob(id)) == Raw(payload)
  }

  lemma PullHeadExactly(reply: Reply, head: string)
    ensures PullHead(reply) == Ok(head) <==> NamesHead(reply, head)
  {
    assert forall i :: 0 <= i < |head| ==> head[i] in head;
    if |head| == 40 && forall c :: c in head ==> '0' <= c <= '9' || 'a' <= c <= 'f' {
      forall i | 0 <= i < 40 ensures IsHex(head[i]) { assert head[i] in head; }
    }
  }

  lemma ReadBlobExactly(forge: Forge, sha1: Bytes -> string, k: nat, path: string, ref: string, limit: nat, payload: Bytes)
    ensures ReadBlob(forge, sha1, k, path, ref, limit) == Ok(payload) <==> ServesFile(forge, sha1, k, path, ref, limit, payload)
  {
  }

  /** What `bind_snapshot` returns, exactly: two files, when the forge names the commit
      as the head, serves both within their bounds, and names it again. */
  lemma SnapshotExactly(forge: Forge, sha1: Bytes -> string, number: nat, head: string, manifest: Bytes, lock: Bytes)
    ensures BindSnapshot(forge, sha1, number, head) == Ok((manifest, lock))
      <==> && NamesHead(forge(0, Pull(number)), head)
           && ServesFile(forge, sha1, 1, "pyproject.toml", head, 256 * 1024, manifest)
           && ServesFile(forge, sha1, 3, "poetry.lock", head, 8 * 1024 * 1024, lock)
           && NamesHead(forge(5, Pull(number)), head)
  {
    PullHeadExactly(forge(0, Pull(number)), head);
    ReadBlobExactly(forge, sha1, 1, "pyproject.toml", head, MAX_MANIFEST_BYTES, manifest);
    ReadBlobExactly(forge, sha1, 3, "poetry.lock", head, MAX_LOCK_BYTES, lock);
    PullHeadExactly(forge(5, Pull(number)), head);
  }

  function DecimalValue(digits: Bytes): int {
    if digits == [] then 0 else 10 * DecimalValue(digits[..|digits| - 1]) + (digits[|digits| - 1] as int - 48)
  }

  /** The header's length is written in decimal digits and reads back. */
  lemma {:induction false} DecimalReads(n: nat)
    ensures DecimalValue(Decimal(n)) == n && forall d :: d in Decimal(n) ==> 48 <= d <= 57
  {
    if n >= 10 {
      DecimalReads(n / 10);
      assert Decimal(n)[..|Decimal(n)| - 1] == Decimal(n / 10);
    } else {
      assert Decimal(n)[..0] == [];
    }
  }

  lemma Middle(head: Bytes, digits: Bytes, payload: Bytes)
    ensures var text := head + (digits + ([0] + payload));
            && |text| == |head| + |digits| + 1 + |payload|
            && (forall i :: 0 <= i < |head| ==> text[i] == head[i])
            && text[|head|..|head| + |digits|] == digits
            && text[|head| + |digits|] == 0 && text[|head| + |digits| + 1..] == payload
  {
  }

  /** A blob's text is git's: the word, a space, the length in decimal, a zero byte, the payload. */
  lemma BlobTextReads(payload: Bytes)
    ensures var text, digits := BlobText(payload), Decimal(|payload|);
            && |text| == 6 + |digits| + |payload|
            && (forall i :: 0 <= i < 5 ==> text[i] == "blob "[i] as int)
            && DecimalValue(text[5..5 + |digits|]) == |payload|
            && text[5 + |digits|] == 0 && text[6 + |digits|..] == payload
  {
    var head: Bytes, digits := [98, 108, 111, 98, 32], Decimal(|payload|);
    DecimalReads(|payload|);
    Middle(head, digits, payload);
    assert head[0] == 'b' as int && head[1] == 'l' as int && head[2] == 'o' as int && head[3] == 'b' as int && head[4] == ' ' as int;
  }
}
