/** The batching encoder: a resumable state machine that fills a buffer or hands out a message body in place. */
module Encoder {
  import opened Bytes
  import opened Wire

  datatype Next = SizeReady | MessageReady

  ghost predicate AllEncodable(ms: seq<Message>) { forall m :: m in ms ==> Encodable(m) }

  class Encoder {
    const buf: array<Byte>
    const tmpbuf: array<Byte>
    // The session the messages are read from; the environment may append to it between calls.
    var source: seq<Message>
    var inProgress: Message
    // write_pos points into tmpbuf or into the body of the message in progress.
    var inBody: bool
    var writePos: nat
    var toWrite: nat
    var next: Next
    var beginning: bool

    ghost predicate Valid()
      reads `inProgress, `inBody, `writePos, `toWrite, `next
    {
      && tmpbuf.Length == 10 && buf != tmpbuf
      && (inBody ==> next == MessageReady && writePos + toWrite <= |inProgress.body|)
      && (!inBody ==> writePos + toWrite <= 10)
    }

    /** The bytes `write_pos` and `to_write` describe. */
    ghost function Chunk(): seq<Byte>
      requires Valid()
      reads `inProgress, `inBody, `writePos, `toWrite, `next, tmpbuf
    {
      if inBody then inProgress.body[writePos..writePos + toWrite] else tmpbuf[writePos..writePos + toWrite]
    }

    /** What is left of the message in progress. */
    ghost function Unsent(): seq<Byte>
      requires Valid()
      reads `inProgress, `inBody, `writePos, `toWrite, `next, tmpbuf
    {
      Chunk() + if next == SizeReady then inProgress.body else []
    }

    /** Everything still to go over the wire. */
    ghost function Remaining(): seq<Byte>
      requires Valid()
      reads `inProgress, `inBody, `writePos, `toWrite, `next, `source, tmpbuf
    {
      Unsent() + Frames(source)
    }

    constructor (bufsize: nat)
      ensures Valid() && Remaining() == [] && source == [] && buf.Length == bufsize && fresh(buf) && fresh(tmpbuf)
    {
      buf := new Byte[bufsize](_ => 0);
      tmpbuf := new Byte[10](_ => 0);
      source, inProgress := [], Message(126, []);
      inBody, writePos, toWrite, next, beginning := false, 0, 0, MessageReady, true;
    }

    /** A message the session has ready is sent after everything before it. */
    method Supply(m: Message)
      requires Valid() && Encodable(m)
      modifies this`source
      ensures Valid() && source == old(source) + [m]
      ensures Remaining() == old(Remaining()) + Frame(m)
    {
      FramesAppend(source, m);
      assert Unsent() + (Frames(source) + Frame(m)) == Unsent() + Frames(source) + Frame(m);
      source := source + [m];
    }

    /** `message_ready`: fetches the next message and schedules its header; false when there is none. */
    method MessageReadyStep() returns (ok: bool)
      requires Valid() && toWrite == 0 && next == MessageReady && AllEncodable(source)
      modifies this, tmpbuf
      ensures Valid() && Remaining() == old(Remaining()) && AllEncodable(source)
      ensures ok <==> old(source) != []
      ensures ok ==> next == SizeReady && source == old(source)[1..] && toWrite > 0
      ensures !ok ==> next == MessageReady && source == [] && toWrite == 0 && Remaining() == []
    {
      if source == [] {
        inProgress := Message(126, []);
        inBody, writePos := false, 0;
        assert Chunk() == [];
        return false;
      }
      assert source[0] in source;
      inProgress := source[0];
      source := source[1..];
      toWrite := WriteHeader();
      inBody, writePos, next := false, 0, SizeReady;
      beginning := !HasMore(inProgress.flags);
      assert Unsent() == Frame(inProgress);
      ok := true;
    }

    /** Puts the header of the message in progress into `tmpbuf`. */
    method WriteHeader() returns (n: nat)
      requires tmpbuf.Length == 10 && Encodable(inProgress)
      modifies tmpbuf
      ensures n <= 10 && tmpbuf[0..n] == Header(inProgress)
    {
      var size := |inProgress.body| + 1;
      if size < 255 {
        tmpbuf[0] := size;
        tmpbuf[1] := WireFlags(inProgress.flags);
        return 2;
      }
      tmpbuf[0] := 255;
      PutUint64(tmpbuf, 1, size);
      tmpbuf[9] := WireFlags(inProgress.flags);
      assert tmpbuf[0..10] == [tmpbuf[0]] + tmpbuf[1..9] + [tmpbuf[9]];
      n := 10;
    }

    /** `size_ready`: schedules the body. */
    method SizeReadyStep()
      requires Valid() && toWrite == 0 && next == SizeReady
      modifies this
      ensures Valid() && Remaining() == old(Remaining())
      ensures next == MessageReady && source == old(source)
    {
      inBody, writePos, toWrite, next, beginning := true, 0, |inProgress.body|, MessageReady, false;
    }

    /**
     * Returns the next batch: what is returned and what remains is what there was. A short batch means
     * that nothing remains. A supplied buffer is always filled; without one, a chunk that would fill the
     * own buffer by itself is handed out in place.
     */
    method GetData(supplied: array?<Byte>) returns (data: seq<Byte>)
      requires Valid() && AllEncodable(source)
      requires supplied != tmpbuf
      modifies this, tmpbuf, buf, if supplied == null then {} else {supplied}
      ensures Valid() && AllEncodable(source)
      ensures old(Remaining()) == data + Remaining()
      ensures |data| < (if supplied == null then buf.Length else supplied.Length) ==> Remaining() == []
      ensures supplied != null ==> |data| <= supplied.Length && data == supplied[..|data|]
    {
      if supplied == null {
        data := FillBatch(buf, true);
      } else {
        data := FillBatch(supplied, false);
      }
    }

    /** Fills `buffer` from the state machine until it is full or there is nothing to send. */
    method FillBatch(buffer: array<Byte>, mayLend: bool) returns (data: seq<Byte>)
      requires Valid() && AllEncodable(source) && buffer != tmpbuf
      modifies this, tmpbuf, buffer
      ensures Valid() && AllEncodable(source)
      ensures old(Remaining()) == data + Remaining()
      ensures |data| < buffer.Length ==> Remaining() == []
      ensures !mayLend ==> |data| <= buffer.Length && data == buffer[..|data|]
    {
      var pos := 0;
      ghost var all := Remaining();
      assert buffer[..pos] + all == all;
      while true
        invariant Valid() && AllEncodable(source) && pos <= buffer.Length && (pos < buffer.Length || pos == 0)
        invariant all == buffer[..pos] + Remaining()
        decreases |source|, if next == SizeReady then 1 else 0, toWrite
      {
        var ok := FetchChunk(buffer, pos);
        if !ok { break; }
        if pos == 0 && mayLend && toWrite >= buffer.Length {
          assert all == Remaining();
          data := TakeChunk();
          return;
        }
        pos := CopyChunk(buffer, pos);
        if pos == buffer.Length { break; }
      }
      data := buffer[..pos];
    }

    /** If there is nothing to write, runs the state machine. */
    method FetchChunk(ghost buffer: array<Byte>, ghost pos: nat) returns (ok: bool)
      requires Valid() && AllEncodable(source)
      requires buffer != tmpbuf && pos <= buffer.Length
      modifies this, tmpbuf
      ensures Valid() && AllEncodable(source)
      ensures Remaining() == old(Remaining()) && buffer[..pos] == old(buffer[..pos])
      ensures !ok ==> Remaining() == []
      ensures ok && source == old(source) ==>
        (old(next) == SizeReady && next == MessageReady) || (next == old(next) && toWrite == old(toWrite) > 0)
      ensures source == old(source) || |source| < |old(source)|
    {
      if toWrite == 0 {
        ok := RunStateMachine(buffer, pos);
        beginning := false;
      } else {
        ok := true;
      }
    }

    /** One action of the state machine; the batch so far stays as it is. */
    method RunStateMachine(ghost buffer: array<Byte>, ghost pos: nat) returns (ok: bool)
      requires Valid() && toWrite == 0 && AllEncodable(source)
      requires buffer != tmpbuf && pos <= buffer.Length
      modifies this, tmpbuf
      ensures Valid() && AllEncodable(source)
      ensures Remaining() == old(Remaining()) && buffer[..pos] == old(buffer[..pos])
      ensures !ok ==> Remaining() == []
      ensures ok ==> |source| < |old(source)| || (source == old(source) && old(next) == SizeReady && next == MessageReady)
    {
      if next == MessageReady {
        ok := MessageReadyStep();
      } else {
        SizeReadyStep();
        ok := true;
      }
    }

    /** Zero-copy: hands out the chunk itself. */
    method TakeChunk() returns (data: seq<Byte>)
      requires Valid()
      modifies this`writePos, this`toWrite
      ensures Valid() && old(Remaining()) == data + Remaining() && data == old(Chunk())
    {
      data := if inBody then inProgress.body[writePos..writePos + toWrite] else tmpbuf[writePos..writePos + toWrite];
      ghost var tail := if next == SizeReady then inProgress.body else [];
      writePos, toWrite := 0, 0;
      assert Chunk() == [];
      assert data + (([] + tail) + Frames(source)) == data + tail + Frames(source);
    }

    /** Copies as much of the chunk into the batch as fits. */
    method CopyChunk(buffer: array<Byte>, pos: nat) returns (end: nat)
      requires Valid() && pos <= buffer.Length && buffer != tmpbuf
      modifies this`writePos, this`toWrite, buffer
      ensures Valid() && pos <= end <= buffer.Length && toWrite == old(toWrite) - (end - pos)
      ensures end < buffer.Length ==> toWrite == 0
      ensures buffer[..end] + Remaining() == old(buffer[..pos] + Remaining())
    {
      var n := if toWrite <= buffer.Length - pos then toWrite else buffer.Length - pos;
      end := pos + n;
      ghost var front, chunk, rest := buffer[..pos], Chunk(), Frames(source);
      ghost var tail := if next == SizeReady then inProgress.body else [];
      CopyBytes(buffer, pos, n);
      assert buffer[..end] == front + chunk[..n] && Remaining() == chunk[n..] + tail + rest;
      Regroup(front, chunk, n, tail, rest);
    }

    method CopyBytes(buffer: array<Byte>, pos: nat, n: nat)
      requires Valid() && pos + n <= buffer.Length && n <= toWrite && buffer != tmpbuf
      modifies this`writePos, this`toWrite, buffer
      ensures Valid() && toWrite == old(toWrite) - n
      ensures buffer[..pos + n] == old(buffer[..pos] + Chunk()[..n]) && Chunk() == old(Chunk()[n..])
    {
      var chunk := if inBody then inProgress.body[writePos..writePos + n] else tmpbuf[writePos..writePos + n];
      assert chunk == Chunk()[..n];
      CopyTo(buffer, pos, chunk);
      writePos, toWrite := writePos + n, toWrite - n;
    }
  }

  method CopyTo(buffer: array<Byte>, pos: nat, chunk: seq<Byte>)
    requires pos + |chunk| <= buffer.Length
    modifies buffer
    ensures buffer[..pos + |chunk|] == old(buffer[..pos]) + chunk
  {
    forall k | pos <= k < pos + |chunk| { buffer[k] := chunk[k - pos]; }
  }

  lemma Regroup(before: seq<Byte>, chunk: seq<Byte>, n: nat, tail: seq<Byte>, rest: seq<Byte>)
    requires n <= |chunk|
    ensures before + chunk[..n] + (chunk[n..] + tail + rest) == before + (chunk + tail + rest)
  {
    assert chunk == chunk[..n] + chunk[n..];
  }

  lemma {:induction false} FramesAppend(ms: seq<Message>, m: Message)
    ensures Frames(ms + [m]) == Frames(ms) + Frame(m)
  {
    if ms == [] {
      assert ms + [m] == [m];
      assert Frames([m]) == Frame(m) + Frames([]);
    } else {
      FramesAppend(ms[1..], m);
      assert (ms + [m])[1..] == ms[1..] + [m];
    }
  }
}
