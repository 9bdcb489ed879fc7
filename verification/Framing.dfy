/** Messages on a pipe: a length byte, then up to 255 bytes (bio4d/io.c). */
module Framing {
  import opened Text

  type Byte = b: int | 0 <= b < 256
  type Bytes = seq<Byte>

  const MSG_SIZE := 255

  // ---- The stream ----------------------------------------------------------------------------------

  ghost predicate Payload(p: Bytes) {
    0 < |p| <= 255
  }

  function Frame(p: Bytes): Bytes
    requires |p| <= MSG_SIZE
  {
    var count: Byte := |p|;
    [count] + p
  }

  ghost predicate Payloads(ps: seq<Bytes>) {
    forall i :: 0 <= i < |ps| ==> Payload(ps[i])
  }

  function Frames(ps: seq<Bytes>): Bytes
    requires forall i :: 0 <= i < |ps| ==> |ps[i]| <= MSG_SIZE
  {
    if ps == [] then [] else Frame(ps[0]) + Frames(ps[1..])
  }

  /** One read of a message from all that will ever come through the pipe. */
  datatype Reading = EndOfFile | Broken | Message(payload: Bytes, rest: Bytes)

  function TakeFrame(data: Bytes): Reading {
    if data == [] then EndOfFile
    else if data[0] == 0 || |data| - 1 < data[0] then Broken
    else Message(data[1..1 + data[0]], data[1 + data[0]..])
  }

  /** Reading messages until the end of the file, or until one is broken. */
  function TakeAll(data: Bytes): (r: (seq<Bytes>, bool))
    decreases |data|
  {
    match TakeFrame(data)
    case EndOfFile => ([], true)
    case Broken => ([], false)
    case Message(p, rest) =>
      var more := TakeAll(rest);
      ([p] + more.0, more.1)
  }

  lemma {:induction false} FramesPrepend(p: Bytes, more: seq<Bytes>)
    requires Payload(p) && Payloads(more)
    ensures Payloads([p] + more) && Frames([p] + more) == Frame(p) + Frames(more)
  {
    assert ([p] + more)[1..] == more;
  }

  /** What was written reads back, message by message. */
  lemma {:induction false} FramesReadBack(ps: seq<Bytes>)
    requires Payloads(ps)
    ensures TakeAll(Frames(ps)) == (ps, true)
  {
    if ps != [] {
      var p, rest := ps[0], Frames(ps[1..]);
      var data := Frame(p) + rest;
      assert data[0] == |p|;
      assert data[1..1 + |p|] == p && data[1 + |p|..] == rest;
      FramesReadBack(ps[1..]);
      assert ps == [p] + ps[1..];
    }
  }

  lemma {:induction false} TakenIsFrame(data: Bytes, p: Bytes, rest: Bytes)
    requires TakeFrame(data) == Message(p, rest)
    ensures Payload(p) && data == Frame(p) + rest
  {
  }

  /** And a stream that reads without a break was written that way. */
  lemma {:induction false} ReadBackIsFrames(data: Bytes)
    requires TakeAll(data).1
    ensures Payloads(TakeAll(data).0) && Frames(TakeAll(data).0) == data
    decreases |data|
  {
    match TakeFrame(data)
    case EndOfFile =>
    case Broken =>
    case Message(p, rest) =>
      TakenIsFrame(data, p, rest);
      ReadBackIsFrames(rest);
      FramesPrepend(p, TakeAll(rest).0);
  }

  // ---- The calls -----------------------------------------------------------------------------------

  class Pipe {
    var data: Bytes

    constructor ()
      ensures data == []
    {
      data := [];
    }

    /** read(): at least one byte if there is any, and any number up to what was asked for. */
    method Read(n: nat) returns (chunk: Bytes)
      requires n > 0
      modifies this
      ensures |chunk| <= n && (chunk == [] <==> old(data) == [])
      ensures old(data) == chunk + data
    {
      var k: nat :| k <= n && k <= |data| && (data != [] ==> k > 0);
      chunk := data[..k];
      data := data[k..];
    }

    /** io_msg_write: the size goes through an unsigned char, and the message is one atomic write. */
    method MsgWrite(payload: Bytes) returns (ok: bool)
      modifies this
      ensures ok <==> |payload| % 256 != 0
      ensures data == old(data) + if ok then Frame(payload[..|payload| % 256]) else []
      ensures ok ==> data[|old(data)|] == |payload| % 256 && data[|old(data)| + 1..] == payload[..|payload| % 256]
    {
      var count: Byte := |payload| % 256;
      if count == 0 {
        return false;
      }
      data := data + ([count] + payload[..count]);
      ok := true;
    }

    /** io_msg_read through short reads. */
    method MsgRead() returns (r: Reading)
      modifies this
      ensures r.EndOfFile? <==> TakeFrame(old(data)).EndOfFile?
      ensures r.Broken? <==> TakeFrame(old(data)).Broken?
      ensures r.Message? ==> r == TakeFrame(old(data)) && data == r.rest
    {
      var head := Read(1);
      if head == [] {
        return EndOfFile;
      }
      var len := head[0];
      if len == 0 {
        return Broken;
      }
      var payload: Bytes := [];
      while |payload| < len
        invariant |payload| <= len
        invariant old(data) == head + (payload + data)
      {
        var chunk := Read(len - |payload|);
        if chunk == [] {
          return Broken;
        }
        ghost var before := payload;
        payload := payload + chunk;
        assert payload + data == before + (chunk + data);
      }
      assert old(data)[1..1 + len] == payload && old(data)[1 + len..] == data;
      r := Message(payload, data);
    }
  }

  /** What reaches the reader of messages of any size: a multiple of 256 is refused, and a longer one is cut. */
  function Survivors(ps: seq<Bytes>): (out: seq<Bytes>)
    ensures Payloads(out) && |out| <= |ps|
  {
    if ps == [] then []
    else
      var p := ps[0];
      (if |p| % 256 == 0 then [] else [p[..|p| % 256]]) + Survivors(ps[1..])
  }

  lemma {:induction false} OneSurvives(p: Bytes)
    ensures |p| % 256 != 0 && p[..|p| % 256] == p <==> Payload(p)
  {
    assert |p[..|p| % 256]| == |p| % 256;
    assert p[..|p|] == p;
  }

  /** Messages all come through as they are exactly when each has 1 to 255 bytes. */
  lemma {:induction false} SurvivesExactly(ps: seq<Bytes>)
    ensures Survivors(ps) == ps <==> Payloads(ps)
  {
    if ps != [] {
      var p, rest := ps[0], ps[1..];
      OneSurvives(p);
      SurvivesExactly(rest);
      assert ps == [p] + rest;
      assert Payloads(ps) <==> Payload(p) && Payloads(rest);
      if |p| % 256 != 0 {
        assert Survivors(ps)[0] == p[..|p| % 256] && Survivors(ps)[1..] == Survivors(rest);
      }
    }
  }

  lemma {:induction false} SurvivorsSnoc(ps: seq<Bytes>, p: Bytes)
    ensures Survivors(ps + [p]) == Survivors(ps) + if |p| % 256 == 0 then [] else [p[..|p| % 256]]
  {
    if ps != [] {
      SurvivorsSnoc(ps[1..], p);
      assert (ps + [p])[1..] == ps[1..] + [p];
    }
  }

  lemma {:induction false} SurvivorsUpTo(ps: seq<Bytes>, i: nat)
    requires i < |ps|
    ensures Frames(Survivors(ps[..i + 1])) ==
      Frames(Survivors(ps[..i])) + if |ps[i]| % 256 == 0 then [] else Frame(ps[i][..|ps[i]| % 256])
  {
    var p := ps[i];
    SurvivorsSnoc(ps[..i], p);
    assert ps[..i + 1] == ps[..i] + [p];
    if |p| % 256 != 0 {
      FramesAppend(Survivors(ps[..i]), p[..|p| % 256]);
    } else {
      assert Survivors(ps[..i]) + [] == Survivors(ps[..i]);
    }
  }

  method WriteAll(pipe: Pipe, ps: seq<Bytes>)
    modifies pipe
    ensures pipe.data == old(pipe.data) + Frames(Survivors(ps))
  {
    for i := 0 to |ps|
      invariant pipe.data == old(pipe.data) + Frames(Survivors(ps[..i]))
    {
      SurvivorsUpTo(ps, i);
      var ok := pipe.MsgWrite(ps[i]);
    }
    assert ps[..|ps|] == ps;
  }

  /** Reading until a read gives no message. */
  method ReadAll(pipe: Pipe) returns (out: seq<Bytes>)
    modifies pipe
    ensures out == TakeAll(old(pipe.data)).0
  {
    out := [];
    var more := true;
    while more
      invariant out + (if more then TakeAll(pipe.data).0 else []) == TakeAll(old(pipe.data)).0
      decreases more, |pipe.data|
    {
      var r := pipe.MsgRead();
      more := r.Message?;
      if more {
        out := out + [r.payload];
      }
    }
  }

  /**
    Messages written one after the other and read back through any short reads: the survivors come out in
    order, and so all of the messages exactly when each has 1 to 255 bytes.
   */
  method RoundTrip(ps: seq<Bytes>) returns (out: seq<Bytes>)
    ensures out == Survivors(ps)
    ensures out == ps <==> Payloads(ps)
  {
    var pipe := new Pipe();
    WriteAll(pipe, ps);
    assert [] + Frames(Survivors(ps)) == Frames(Survivors(ps));
    FramesReadBack(Survivors(ps));
    SurvivesExactly(ps);
    out := ReadAll(pipe);
  }

  lemma {:induction false} FramesAppend(ps: seq<Bytes>, p: Bytes)
    requires Payloads(ps) && Payload(p)
    ensures Payloads(ps + [p]) && Frames(ps + [p]) == Frames(ps) + Frame(p)
  {
    if ps != [] {
      FramesAppend(ps[1..], p);
      assert (ps + [p])[1..] == ps[1..] + [p];
    }
  }
}
