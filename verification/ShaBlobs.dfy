/** The files of the sha module are the stored blobs that the requests speak of (bio4d/fs_sha.c, bio4d/bio4d.c). */
module ShaBlobs {
  import opened Text
  import opened UdigSet
  import FsSha
  import WrapRoll

  function ShaUdig(digest: string): string {
    Name(Sha) + [':'] + digest
  }

  /** Each module has its own name before the digest, and the sha module computes `sha`. */
  ghost predicate Hashes(h: WrapRoll.Hash, sha: FsSha.Digester) {
    && (forall b :: h(Sha, b) == ShaUdig(sha(b)))
    && (forall m, b :: exists d :: h(m, b) == Name(m) + [':'] + d)
  }

  lemma {:induction false} OtherModule(m: Module, d: string, digest: string)
    requires Name(m) + [':'] + d == ShaUdig(digest)
    ensures m == Sha && d == digest
  {
    var u := ShaUdig(digest);
    assert u[|Name(m)|] == ':' && u[|Name(Sha)|] == ':';
    assert u[0] == Name(m)[0] && u[0] == Name(Sha)[0];
    assert d == u[|Name(m)| + 1..] && digest == u[|Name(Sha)| + 1..];
  }

  lemma {:induction false} ShaMatches(h: WrapRoll.Hash, sha: FsSha.Digester, digest: string, bytes: string)
    requires Hashes(h, sha)
    ensures WrapRoll.Matches(h, ShaUdig(digest), bytes) <==> sha(bytes) == digest
  {
    if sha(bytes) == digest {
      assert h(Sha, bytes) == ShaUdig(digest);
    }
    if m :| h(m, bytes) == ShaUdig(digest) {
      var d :| h(m, bytes) == Name(m) + [':'] + d;
      OtherModule(m, d, digest);
      OtherModule(Sha, sha(bytes), digest);
    }
  }

  /** The same digests on both sides, with the same bytes. */
  ghost predicate Represents(root: string, files: FsSha.Files, s: WrapRoll.Store) {
    forall d :: IsDigest(d) ==> Same(root, files, s, d)
  }

  ghost predicate Same(root: string, files: FsSha.Files, s: WrapRoll.Store, d: string)
    requires IsDigest(d)
  {
    var p, u := FsSha.Path(root, d), ShaUdig(d);
    (p in files <==> u in s.blobs) && (p in files ==> files[p] == s.blobs[u])
  }

  lemma {:induction false} RepresentsStored(root: string, files: FsSha.Files, s: WrapRoll.Store, digest: string, bytes: string)
    requires Represents(root, files, s) && IsDigest(digest)
    ensures Represents(root, files[FsSha.Path(root, digest) := bytes], s.(blobs := s.blobs[ShaUdig(digest) := bytes]))
  {
    var files', s' := files[FsSha.Path(root, digest) := bytes], s.(blobs := s.blobs[ShaUdig(digest) := bytes]);
    forall d | IsDigest(d) ensures Same(root, files', s', d) {
      assert Same(root, files, s, d);
      DifferentPlaces(root, d, digest);
    }
  }

  lemma {:induction false} RepresentsRemoved(root: string, files: FsSha.Files, s: WrapRoll.Store, digest: string)
    requires Represents(root, files, s) && IsDigest(digest)
    ensures Represents(root, files - {FsSha.Path(root, digest)}, s.(blobs := s.blobs - {ShaUdig(digest)}))
  {
    var files', s' := files - {FsSha.Path(root, digest)}, s.(blobs := s.blobs - {ShaUdig(digest)});
    forall d | IsDigest(d) ensures Same(root, files', s', d) {
      assert Same(root, files, s, d);
      DifferentPlaces(root, d, digest);
    }
  }

  lemma {:induction false} DifferentPlaces(root: string, a: string, b: string)
    requires IsDigest(a) && IsDigest(b)
    ensures FsSha.Path(root, a) == FsSha.Path(root, b) <==> a == b
    ensures ShaUdig(a) == ShaUdig(b) <==> a == b
  {
    if FsSha.Path(root, a) == FsSha.Path(root, b) {
      FsSha.PathsDiffer(root, a, b);
    }
    if ShaUdig(a) == ShaUdig(b) {
      OtherModule(Sha, a, b);
    }
  }

  /** The bytes of a put that count: none for the empty digest, and else those up to where reading stopped. */
  method Put(store: FsSha.Store, h: WrapRoll.Hash, ghost s: WrapRoll.Store, digest: string, scanned: string, rest: string)
      returns (ok: bool, ghost bytes: string)
    requires store.Valid() && IsDigest(digest) && |scanned| <= FsSha.SCAN_MAX && Hashes(h, store.sha)
    requires Represents(store.root, store.files, s)
    modifies store
    ensures store.Valid() && Represents(store.root, store.files, WrapRoll.PutBlob(h, s, ShaUdig(digest), bytes))
    ensures bytes <= scanned + rest && (ok <==> WrapRoll.Matches(h, ShaUdig(digest), bytes))
    ensures !ok ==> bytes == scanned + rest
  {
    var chat, size, cuts := store.PutBytes(digest, scanned, rest);
    ok := chat.OkOk?;
    bytes := if digest == store.empty then [] else (scanned + rest)[..size];
    ShaMatches(h, store.sha, digest, bytes);
    if ok {
      RepresentsStored(store.root, old(store.files), s, digest, bytes);
    }
  }

  /** take, for a blob that is not wrapped. */
  method Take(store: FsSha.Store, ghost s: WrapRoll.Store, digest: string, accepted: bool) returns (sent: Option<string>)
    requires store.Valid() && IsDigest(digest) && Represents(store.root, store.files, s) && ShaUdig(digest) !in s.wrapped
    modifies store
    ensures store.Valid() && Represents(store.root, store.files, WrapRoll.TakeBlob(s, ShaUdig(digest), accepted))
    ensures sent == if ShaUdig(digest) in s.blobs then Some(s.blobs[ShaUdig(digest)]) else None
  {
    assert Same(store.root, store.files, s, digest);
    sent := store.GetBytes(digest);
    if sent.Some? {
      RepresentsRemoved(store.root, store.files, s, digest);
      store.TakeReply(digest, accepted);
    }
  }

  /** The first half of wrap: the frozen log goes into the store under its digest. */
  method StoreFrozen(store: FsSha.Store, h: WrapRoll.Hash, ghost s: WrapRoll.Store, log: seq<string>) returns (udig: string)
    requires store.Valid() && Hashes(h, store.sha) && Represents(store.root, store.files, s)
    requires (forall b :: IsDigest(store.sha(b))) && s.active == FsSha.Concat(log)
    modifies store
    ensures store.Valid() && udig == h(Sha, s.active)
    ensures Represents(store.root, store.files, WrapRoll.Freeze(h, Sha, s))
  {
    RepresentsStored(store.root, store.files, s, store.sha(s.active), s.active);
    var digest := store.Digest(log);
    udig := ShaUdig(digest);
  }
}
