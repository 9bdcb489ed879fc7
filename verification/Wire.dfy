/** A put and a get from the bytes of the client's connection to the files (bio4d/bio4d.c, bio4d/fs_sha.c). */
module Wire {
  import opened Text
  import opened UdigSet
  import opened Scanner
  import FsSha

  /** The request line of a udig of the sha module. */
  function RequestLine(verb: string, digest: string): string {
    verb + [' '] + Name(Sha) + [':'] + digest + ['\n']
  }

  /**
    The line and the blob in one stream, cut anyhow by the reads of the scanner and of the store: the blob is
    stored whole, unless a proper part of it has the same digest.
   */
  method ServePut(store: FsSha.Store, verb: string, blob: string, chunks: seq<string>) returns (chat: FsSha.Chat)
    requires store.Valid() && IsDigest(store.sha(blob)) && store.sha(blob) != store.empty && FsSha.PrefixFree(store.sha, blob)
    requires verb == "put" || verb == "give"
    requires forall i :: 0 <= i < |chunks| ==> 0 < |chunks[i]| <= 255
    requires Flatten(chunks) == RequestLine(verb, store.sha(blob)) + blob
    modifies store
    ensures store.Valid() && chat.OkOk?
    ensures store.files == old(store.files)[FsSha.Path(store.root, store.sha(blob)) := blob]
  {
    UdigsAreServed(verb, Sha, store.sha(blob), blob);
    var o, scanBuf, read := ScanRequest(chunks);
    var rest := Flatten(chunks[read..]);
    assert o.Ready? && o.digest == store.sha(blob) && scanBuf + rest == blob;
    assert blob[..|scanBuf|] == scanBuf && blob[|scanBuf|..] == rest;
    chat := FsSha.SendBlob(store, blob, |scanBuf|);
  }

  /** What a get then finds: the blob that was put. */
  method PutThenGet(store: FsSha.Store, verb: string, blob: string, chunks: seq<string>, more: seq<string>)
      returns (bytes: Option<string>)
    requires store.Valid() && IsDigest(store.sha(blob)) && store.sha(blob) != store.empty && FsSha.PrefixFree(store.sha, blob)
    requires verb == "put" || verb == "give"
    requires forall i :: 0 <= i < |chunks| ==> 0 < |chunks[i]| <= 255
    requires forall i :: 0 <= i < |more| ==> 0 < |more[i]| <= 255
    requires Flatten(chunks) == RequestLine(verb, store.sha(blob)) + blob
    requires Flatten(more) == RequestLine("get", store.sha(blob))
    modifies store
    ensures store.Valid() && bytes == Some(blob)
  {
    var chat := ServePut(store, verb, blob, chunks);
    assert RequestLine("get", store.sha(blob)) + [] == RequestLine("get", store.sha(blob));
    UdigsAreServed("get", Sha, store.sha(blob), []);
    var o, scanBuf, read := ScanRequest(more);
    assert o.Ready?;
    bytes := store.GetBytes(o.digest);
  }
}
