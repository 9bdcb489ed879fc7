/**
  The content-addressed store of the sha module (bio4d/fs_sha.c): blobs arrive in chunks, and land under a
  path made from their digest.
 */
module FsSha {
  import opened Text
  import opened Fields
  import opened UdigSet

  type Bytes = seq<char>

  /** The digest in hex; nothing is known of it but the digest of no bytes. */
  type Digester = Bytes -> string

  const CHUNK_SIZE := 4 * 1024
  const SCAN_MAX := 254

  // ---- Paths ---------------------------------------------------------------------------------------

  /** make_path: two directories of three digits each, then the whole digest. */
  function Path(root: string, digest: string): string
    requires |digest| >= 6
  {
    root + ['/'] + digest[..3] + ['/'] + digest[3..6] + ['/'] + digest
  }

  /** Below the root: two directories of three digits each, then a file named by the whole digest. */
  lemma {:induction false} PathParts(root: string, digest: string)
    requires IsDigest(digest)
    ensures root <= Path(root, digest)
    ensures Split(Path(root, digest)[|root|..], '/') == [[], digest[..3], digest[3..6], digest]
    ensures |digest[..3]| == 3 && |digest[3..6]| == 3
  {
    hide Split;
    assert forall i :: 0 <= i < |digest| ==> HexDigit(digest[i]) && digest[i] != '/';
    var a, b := digest[..3], digest[3..6];
    SplitOne(digest, '/');
    SplitFirst(b, '/', digest);
    SplitFirst(a, '/', b + ['/'] + digest);
    SplitFirst([], '/', a + ['/'] + (b + ['/'] + digest));
    assert a + ['/'] + (b + ['/'] + digest) == a + ['/'] + b + ['/'] + digest;
    assert Path(root, digest)[|root|..] == [] + ['/'] + (a + ['/'] + (b + ['/'] + digest));
  }

  /** Different digests have different paths. */
  lemma {:induction false} PathsDiffer(root: string, a: string, b: string)
    requires |a| == |b| >= 6 && Path(root, a) == Path(root, b)
    ensures a == b
  {
    var p, q := Path(root, a), Path(root, b);
    assert a == p[|p| - |a|..] && b == q[|q| - |b|..];
  }

  /** Files under the root by digest path. */
  type Files = map<string, Bytes>

  /** Every file has the name of its digest. */
  ghost predicate NamedByDigest(sha: Digester, root: string, files: Files) {
    forall p :: p in files ==> IsDigest(sha(files[p])) && p == Path(root, sha(files[p]))
  }

  /** So the file found for a digest has that digest, and the mismatch panics of get, take, eat and roll cannot happen. */
  lemma {:induction false} FoundHasDigest(sha: Digester, root: string, files: Files, digest: string)
    requires NamedByDigest(sha, root, files) && IsDigest(digest)
    ensures Path(root, digest) in files ==> sha(files[Path(root, digest)]) == digest
  {
    var p := Path(root, digest);
    if p in files {
      PathsDiffer(root, sha(files[p]), digest);
    }
  }

  // ---- Putting -------------------------------------------------------------------------------------

  datatype Chat = OkOk | OkNo

  /** Reading stopped at the last cut; the digest was compared at every cut, and matched at none before the last. */
  ghost predicate Cuts(sha: Digester, digest: string, stream: Bytes, scanned: nat, cuts: seq<nat>) {
    && (forall i :: 0 <= i < |cuts| ==> 0 < cuts[i] <= |stream|)
    && (forall i :: 0 <= i < |cuts| - 1 ==> cuts[i] < cuts[i + 1] <= cuts[i] + 4096)
    && (forall i :: 0 <= i < |cuts| - 1 ==> sha(stream[..cuts[i]]) != digest)
    && (cuts != [] ==> if scanned > 0 then cuts[0] == scanned else cuts[0] <= 4096)
  }

  /** What was read up to one of the cuts has the digest. */
  ghost predicate SeenAtCut(sha: Digester, digest: string, stream: Bytes, cuts: seq<nat>) {
    exists i :: 0 <= i < |cuts| && cuts[i] <= |stream| && sha(stream[..cuts[i]]) == digest
  }

  /** What was read so far is in the temporary file and in the digest; the last cut is the blob_size. */
  ghost predicate Received(sha: Digester, digest: string, scanned: Bytes, rest: Bytes,
                           ctx: Bytes, unread: Bytes, blobSize: nat, cuts: seq<nat>) {
    var stream := scanned + rest;
    && blobSize <= |stream| && ctx == stream[..blobSize] && unread == stream[blobSize..]
    && blobSize == (if cuts == [] then 0 else cuts[|cuts| - 1])
    && Cuts(sha, digest, stream, |scanned|, cuts)
    && (cuts == [] ==> scanned == [])
  }

  lemma {:induction false} ReceivedScan(sha: Digester, digest: string, scanned: Bytes, rest: Bytes)
    ensures Received(sha, digest, scanned, rest, scanned, rest, |scanned|, if scanned == [] then [] else [|scanned|])
  {
  }

  lemma {:induction false} ReceivedChunk(sha: Digester, digest: string, scanned: Bytes, rest: Bytes,
                         ctx: Bytes, unread: Bytes, blobSize: nat, cuts: seq<nat>, n: nat)
    requires Received(sha, digest, scanned, rest, ctx, unread, blobSize, cuts) && sha(ctx) != digest
    requires 1 <= n <= CHUNK_SIZE && n <= |unread|
    ensures Received(sha, digest, scanned, rest, ctx + unread[..n], unread[n..], blobSize + n, cuts + [blobSize + n])
  {
    var stream := scanned + rest;
    assert stream[..blobSize + n] == stream[..blobSize] + unread[..n];
    assert stream[blobSize + n..] == unread[n..];
    if cuts == [] {
      CutsBegin(sha, digest, stream, n);
    } else {
      CutsNext(sha, digest, stream, |scanned|, cuts, blobSize, n);
    }
  }

  lemma {:induction false} ReceivedAll(sha: Digester, digest: string, scanned: Bytes, rest: Bytes,
                       tmp: Bytes, unread: Bytes, blobSize: nat, cuts: seq<nat>)
    requires Received(sha, digest, scanned, rest, tmp, unread, blobSize, cuts)
    ensures blobSize <= |scanned + rest| && tmp == (scanned + rest)[..blobSize]
    ensures blobSize == if cuts == [] then 0 else cuts[|cuts| - 1]
    ensures Cuts(sha, digest, scanned + rest, |scanned|, cuts)
    ensures unread == [] ==> tmp == scanned + rest
  {
  }

  lemma {:induction false} CutsBegin(sha: Digester, digest: string, stream: Bytes, n: nat)
    requires 1 <= n <= CHUNK_SIZE && n <= |stream|
    ensures Cuts(sha, digest, stream, 0, [n])
  {
  }

  lemma {:induction false} CutsNext(sha: Digester, digest: string, stream: Bytes, scanned: nat, cuts: seq<nat>, last: nat, n: nat)
    requires Cuts(sha, digest, stream, scanned, cuts) && 1 <= n <= CHUNK_SIZE
    requires cuts != [] && last == cuts[|cuts| - 1] && last + n <= |stream| && sha(stream[..last]) != digest
    ensures Cuts(sha, digest, stream, scanned, cuts + [last + n])
  {
    var more := cuts + [last + n];
    assert forall i :: 0 <= i < |cuts| ==> more[i] == cuts[i];
    assert more[|cuts|] == last + n;
  }

  /** Only the last cut can have the digest. */
  lemma {:induction false} SeenAtLast(sha: Digester, digest: string, stream: Bytes, scanned: nat, cuts: seq<nat>)
    requires Cuts(sha, digest, stream, scanned, cuts) && sha([]) != digest
    ensures SeenAtCut(sha, digest, stream, cuts) <==>
      sha(stream[..if cuts == [] then 0 else cuts[|cuts| - 1]]) == digest
  {
    if cuts != [] {
      assert 0 < cuts[|cuts| - 1] <= |stream|;
    }
  }

  class Store {
    const sha: Digester
    const empty: string
    const root: string
    var files: Files

    ghost predicate Valid() reads this {
      sha([]) == empty && IsDigest(empty) && NamedByDigest(sha, root, files)
    }

    constructor (sha: Digester, empty: string, root: string)
      requires sha([]) == empty && IsDigest(empty)
      ensures Valid() && files == map[]
      ensures this.sha == sha && this.empty == empty && this.root == root
    {
      this.sha, this.empty, this.root, files := sha, empty, root, map[];
    }

    /** arbor_rename of a finished temporary file. */
    method Rename(tmp: Bytes, digest: string)
      requires Valid() && sha(tmp) == digest && IsDigest(digest)
      modifies this
      ensures Valid() && files == old(files)[Path(root, digest) := tmp]
    {
      files := files[Path(root, digest) := tmp];
    }

    /** eat_chunk: absorb the chunk into the digest context and the temporary file, and compare. */
    method EatChunk(ctx: Bytes, tmp: Bytes, chunk: Bytes, digest: string) returns (ctx': Bytes, tmp': Bytes, seen: bool)
      ensures ctx' == ctx + chunk && tmp' == tmp + chunk
      ensures seen <==> sha(ctx + chunk) == digest
    {
      ctx', tmp' := ctx + chunk, tmp + chunk;
      seen := sha(ctx') == digest;
    }

    /** Reading until the digest matches or the client ends. */
    method ReceiveBlob(digest: string, scanned: Bytes, rest: Bytes)
        returns (seen: bool, tmp: Bytes, blobSize: nat, cuts: seq<nat>)
      requires sha([]) != digest && |scanned| <= SCAN_MAX
      ensures blobSize <= |scanned + rest| && tmp == (scanned + rest)[..blobSize]
      ensures blobSize == if cuts == [] then 0 else cuts[|cuts| - 1]
      ensures Cuts(sha, digest, scanned + rest, |scanned|, cuts)
      ensures seen <==> sha(tmp) == digest
      ensures !seen ==> tmp == scanned + rest
    {
      hide Received, Cuts;
      tmp, seen, blobSize, cuts := [], false, |scanned|, [];
      ReceivedScan(sha, digest, scanned, rest);
      if |scanned| > 0 {
        var ctx;
        ctx, tmp, seen := EatChunk([], [], scanned, digest);
        cuts := [|scanned|];
        assert [] + scanned == scanned;
      }
      var unread, cp: nat := rest, 0;
      while unread != [] && !seen
        invariant cp <= CHUNK_SIZE
        invariant Received(sha, digest, scanned, rest, tmp, unread, blobSize, cuts)
        invariant seen <==> sha(tmp) == digest
        decreases |unread|
      {
        tmp, unread, blobSize, cuts, cp, seen := ReadChunk(digest, scanned, rest, tmp, unread, blobSize, cuts, cp);
      }
      ReceivedAll(sha, digest, scanned, rest, tmp, unread, blobSize, cuts);
    }

    /** One turn of the read loop: the buffer starts over when it is full. */
    method ReadChunk(digest: string, ghost scanned: Bytes, ghost rest: Bytes, tmp: Bytes, unread: Bytes, blobSize: nat, cuts: seq<nat>, cp: nat)
        returns (tmp': Bytes, unread': Bytes, blobSize': nat, cuts': seq<nat>, cp': nat, seen: bool)
      requires Received(sha, digest, scanned, rest, tmp, unread, blobSize, cuts)
      requires cp <= CHUNK_SIZE && unread != [] && sha(tmp) != digest
      ensures Received(sha, digest, scanned, rest, tmp', unread', blobSize', cuts')
      ensures cp' <= CHUNK_SIZE && |unread'| < |unread|
      ensures seen <==> sha(tmp') == digest
    {
      hide Received;
      cp' := if cp == CHUNK_SIZE then 0 else cp;
      var n: nat :| 1 <= n <= CHUNK_SIZE - cp' && n <= |unread|;
      ReceivedChunk(sha, digest, scanned, rest, tmp, unread, blobSize, cuts, n);
      var ctx;
      ctx, tmp', seen := EatChunk(tmp, tmp, unread[..n], digest);
      unread', blobSize', cuts', cp' := unread[n..], blobSize + n, cuts + [blobSize + n], cp' + n;
    }

    /**
      put and give: `scanned` was read with the request line, `rest` is what the client sends after it, in
      reads of any size.  The whole blob is always recognized; on ok the file holds exactly the bytes
      received, and blob_size counts them; on no nothing is stored.
     */
    method PutBytes(digest: string, scanned: Bytes, rest: Bytes) returns (chat: Chat, blobSize: nat, cuts: seq<nat>)
      requires Valid() && IsDigest(digest) && |scanned| <= SCAN_MAX
      modifies this
      ensures Valid()
      ensures digest == empty ==> chat == OkOk && files == old(files)[Path(root, digest) := []] && blobSize == |scanned|
      ensures digest != empty ==>
        Cuts(sha, digest, scanned + rest, |scanned|, cuts) && blobSize == if cuts == [] then 0 else cuts[|cuts| - 1]
      ensures digest != empty ==> (chat == OkOk <==> SeenAtCut(sha, digest, scanned + rest, cuts))
      ensures digest != empty && chat == OkOk ==>
        && sha((scanned + rest)[..blobSize]) == digest
        && files == old(files)[Path(root, digest) := (scanned + rest)[..blobSize]]
      ensures digest != empty && chat == OkNo ==>
        files == old(files) && blobSize == |scanned + rest| && sha(scanned + rest) != digest
    {
      blobSize, cuts := |scanned|, [];
      if digest == empty {
        Rename([], digest);
        return OkOk, blobSize, cuts;
      }
      var seen, tmp;
      seen, tmp, blobSize, cuts := ReceiveBlob(digest, scanned, rest);
      if seen {
        Rename(tmp, digest);
      }
      chat := if seen then OkOk else OkNo;
      SeenAtLast(sha, digest, scanned + rest, |scanned|, cuts);
    }

    /** fs_sha_digest: store a local stream under its own digest. */
    method Digest(stream: seq<Bytes>) returns (digest: string)
      requires Valid() && forall b :: IsDigest(sha(b))
      modifies this
      ensures Valid()
      ensures digest == sha(Concat(stream)) && IsDigest(digest)
      ensures files == old(files)[Path(root, digest) := Concat(stream)]
    {
      var ctx: Bytes, tmp: Bytes := [], [];
      for i := 0 to |stream|
        invariant ctx == tmp == Concat(stream[..i])
      {
        assert stream[..i + 1][..i] == stream[..i];
        ctx, tmp := ctx + stream[i], tmp + stream[i];
      }
      assert stream[..|stream|] == stream;
      digest := sha(ctx);
      Rename(tmp, digest);
    }

    /** get, take, eat and copy: the bytes stored under the digest. */
    method GetBytes(digest: string) returns (bytes: Option<Bytes>)
      requires Valid() && IsDigest(digest)
      ensures bytes == Stored(Path(root, digest))
      ensures bytes.Some? ==> sha(bytes.value) == digest
    {
      if Path(root, digest) !in files {
        return None;
      }
      var blob := files[Path(root, digest)];
      FoundHasDigest(sha, root, files, digest);
      assert sha(blob) == digest;
      bytes := Some(blob);
    }

    /** After the reply to take: an accepted blob is not found any more, and every other blob is as before. */
    method TakeReply(digest: string, accepted: bool)
      requires Valid() && IsDigest(digest)
      modifies this
      ensures Valid()
      ensures accepted ==> Path(root, digest) !in files
      ensures forall d :: IsDigest(d) && (d != digest || !accepted) ==>
        Stored(Path(root, d)) == old(Stored(Path(root, d)))
      ensures files == if accepted then old(files) - {Path(root, digest)} else old(files)
    {
      if accepted {
        forall d | IsDigest(d) && d != digest ensures Path(root, d) != Path(root, digest) {
          if Path(root, d) == Path(root, digest) {
            PathsDiffer(root, d, digest);
          }
        }
        files := files - {Path(root, digest)};
      }
    }

    /** What get finds under a path. */
    function Stored(path: string): Option<Bytes> reads this {
      if path in files then Some(files[path]) else None
    }
  }

  function Concat(chunks: seq<Bytes>): Bytes {
    if chunks == [] then [] else Concat(chunks[..|chunks| - 1]) + chunks[|chunks| - 1]
  }

  /** However a text is cut into chunks, the chunks together are the text. */
  lemma {:induction false} ConcatParts(a: seq<Bytes>, b: seq<Bytes>)
    ensures Concat(a + b) == Concat(a) + Concat(b)
    ensures |a| == 1 ==> Concat(a) == a[0]
  {
    if b == [] {
      assert a + b == a;
    } else {
      assert (a + b)[..|a + b| - 1] == a + b[..|b| - 1];
      ConcatParts(a, b[..|b| - 1]);
    }
    if |a| == 1 {
      assert Concat(a[..0]) == [];
    }
  }

  // ---- What that means for a client ----------------------------------------------------------------

  /** No part of the blob, from the start to before its end, has the blob's digest. */
  ghost predicate PrefixFree(sha: Digester, blob: Bytes) {
    forall k :: 0 <= k < |blob| ==> sha(blob[..k]) != sha(blob)
  }

  /** A client that sends one blob and nothing after it gets it stored whole, however the reads cut it. */
  method SendBlob(store: Store, blob: Bytes, scanned: nat) returns (chat: Chat)
    requires store.Valid() && IsDigest(store.sha(blob)) && store.sha(blob) != store.empty && scanned <= |blob| && scanned <= SCAN_MAX
    requires PrefixFree(store.sha, blob)
    modifies store
    ensures store.Valid() && chat == OkOk
    ensures store.files == old(store.files)[Path(store.root, store.sha(blob)) := blob]
  {
    assert blob[..scanned] + blob[scanned..] == blob;
    var size, cuts;
    chat, size, cuts := store.PutBytes(store.sha(blob), blob[..scanned], blob[scanned..]);
    assert (blob[..scanned] + blob[scanned..])[..size] == blob[..size];
    assert blob[..|blob|] == blob;
  }

  /** Only the blob, of all beginnings of what the client sends, has the blob's digest. */
  ghost predicate OnlyPrefix(sha: Digester, blob: Bytes, extra: Bytes) {
    forall k :: 0 <= k <= |blob + extra| && k != |blob| ==> sha((blob + extra)[..k]) != sha(blob)
  }

  /** A client that sends more than its blob gets ok, and just the blob stored, exactly when some read ends where the blob ends. */
  method SendTooMuch(store: Store, blob: Bytes, extra: Bytes, scanned: nat) returns (chat: Chat, cuts: seq<nat>)
    requires store.Valid() && IsDigest(store.sha(blob)) && store.sha(blob) != store.empty && blob != []
    requires scanned <= |blob + extra| && scanned <= SCAN_MAX && OnlyPrefix(store.sha, blob, extra)
    modifies store
    ensures store.Valid() && Cuts(store.sha, store.sha(blob), blob + extra, scanned, cuts)
    ensures chat == OkOk <==> |blob| in cuts
    ensures store.files == if chat == OkOk then old(store.files)[Path(store.root, store.sha(blob)) := blob] else old(store.files)
  {
    var sent, digest := blob + extra, store.sha(blob);
    assert sent[..scanned] + sent[scanned..] == sent;
    assert sent[..|blob|] == blob;
    var size;
    chat, size, cuts := store.PutBytes(digest, sent[..scanned], sent[scanned..]);
    forall i | 0 <= i < |cuts| ensures store.sha(sent[..cuts[i]]) == digest <==> cuts[i] == |blob| {
    }
  }
}
