/** The resumable decoder, with its copying and its zero-copy way in, against the byte parser of module Wire. */
module Decoder {
  import opened Bytes
  import opened Wire

  /** The scheduled action; `NoAction` is the NULL that an error leaves behind. */
  datatype Next = OneByteSizeReady | EightByteSizeReady | FlagsReady | MessageReady | NoAction

  /** An error met before the end of the data is the outcome for all of it. */
  lemma FailedStays(p: Parser, data: seq<Byte>, pos: nat)
    requires pos <= |data| && FeedAll(p, data[..pos]).phase == Failed
    ensures FeedAll(p, data) == FeedAll(p, data[..pos])
  {
    assert data == data[..pos] + data[pos..];
    FeedConcat(p, data[..pos], data[pos..]);
    OutputGrows(FeedAll(p, data[..pos]), data[pos..]);
  }

  class Decoder {
    const bufsize: nat
    const tmpbuf: array<Byte>
    // The body of the message in progress.
    var body: array<Byte>
    var flags: Byte
    // read_pos points into the body or into tmpbuf.
    var inBody: bool
    var readPos: nat
    var toRead: nat
    var next: Next
    // The messages the destination accepted, and how many more it accepts before it refuses.
    var delivered: seq<Message>
    var room: nat

    ghost predicate Valid()
      reads `body, `inBody, `readPos, `toRead, `next
    {
      && tmpbuf.Length == 8 && body != tmpbuf
      && (inBody <==> next == MessageReady)
      && match next
         case OneByteSizeReady => readPos + toRead == 1
         case EightByteSizeReady => readPos + toRead == 8
         case FlagsReady => readPos + toRead == 1
         case MessageReady => readPos + toRead == body.Length
         case NoAction => true
    }

    /** The decoder as a parser whose current field may be complete and not acted upon. */
    ghost function Raw(): Parser
      requires Valid()
      reads `body, `flags, `inBody, `readPos, `toRead, `next, `delivered, tmpbuf, body
    {
      match next
      case OneByteSizeReady => Parser(OneByteSize, tmpbuf[..readPos], 0, 0, delivered)
      case EightByteSizeReady => Parser(EightByteSize, tmpbuf[..readPos], 0, 0, delivered)
      case FlagsReady => Parser(FlagsByte, tmpbuf[..readPos], body.Length, 0, delivered)
      case MessageReady => Parser(Body, body[..readPos], body.Length, flags, delivered)
      case NoAction => Parser(Failed, [], 0, 0, delivered)
    }

    /** What was parsed: a complete message that the destination refuses for now counts as parsed. */
    ghost function Parsed(): Parser
      requires Valid()
      reads `body, `flags, `inBody, `readPos, `toRead, `next, `delivered, tmpbuf, body
    {
      Settle(Raw())
    }

    /** Between two calls the decoder waits for bytes, has failed, or holds a refused message. */
    ghost predicate Resting()
      reads `toRead, `next
    {
      toRead > 0 || next == MessageReady || next == NoAction
    }

    ghost predicate Refused()
      reads `toRead, `next
    {
      toRead == 0 && next == MessageReady
    }

    constructor (bufsize: nat)
      ensures Valid() && Resting() && !Refused() && Parsed() == START && delivered == []
      ensures this.bufsize == bufsize && fresh(tmpbuf) && fresh(body) && room == 0
    {
      this.bufsize := bufsize;
      tmpbuf := new Byte[8](_ => 0);
      body := new Byte[0];
      flags, inBody, readPos, toRead, next, delivered, room := 126, false, 0, 1, OneByteSizeReady, [], 0;
    }

    /** The destination is ready for `n` more messages. */
    method MakeRoom(n: nat)
      modifies this`room
      ensures room == old(room) + n
    {
      room := room + n;
    }

    /**
     * The scheduled action, when its bytes are complete. It answers false after an error and when the
     * destination does not take the message; then a later call tries again.
     */
    method Act() returns (ok: bool)
      requires Valid() && toRead == 0 && next != NoAction
      modifies this
      ensures Valid() && Parsed() == old(Parsed())
      ensures ok ==> next != NoAction && (toRead > 0 || (old(next) == FlagsReady && next == MessageReady))
      ensures !ok ==> next == NoAction || (next == old(next) == MessageReady && toRead == 0)
      ensures body == old(body) || fresh(body)
      ensures old(delivered) <= delivered
      ensures next != NoAction && delivered != old(delivered) ==> toRead > 0
      ensures room + |delivered| == old(room + |delivered|)
      ensures old(next) == MessageReady ==> (ok <==> old(room) > 0) && (ok ==> |delivered| == |old(delivered)| + 1)
      ensures !ok && next == MessageReady ==> room == 0
    {
      ghost var before := Raw();
      assert Full(before);
      match next
      case OneByteSizeReady =>
        if tmpbuf[0] == 255 {
          readPos, toRead, next := 0, 8, EightByteSizeReady;
        } else if tmpbuf[0] == 0 {
          next := NoAction;
          assert Raw() == Complete(before);
          return false;
        } else {
          body := new Byte[tmpbuf[0] - 1](_ => 0);
          readPos, toRead, next := 0, 1, FlagsReady;
        }
        ok := true;
      case EightByteSizeReady =>
        var size := GetUint64();
        assert tmpbuf[..8] == tmpbuf[..];
        if size == 0 {
          next := NoAction;
          assert Raw() == Complete(before);
          return false;
        }
        body := new Byte[size - 1](_ => 0);
        readPos, toRead, next := 0, 1, FlagsReady;
        ok := true;
        assert Raw() == Complete(before);
      case FlagsReady =>
        flags := MessageFlags(tmpbuf[0]);
        inBody, readPos, toRead, next := true, 0, body.Length, MessageReady;
        ok := true;
      case MessageReady =>
        ok := room > 0;
        if ok {
          assert body[..readPos] == body[..];
          room := room - 1;
          delivered := delivered + [Message(flags, body[..])];
          inBody, readPos, toRead, next := false, 0, 1, OneByteSizeReady;
        }
    }

    /** `get_uint64` over the whole of `tmpbuf`. */
    method GetUint64() returns (n: nat)
      requires tmpbuf.Length == 8
      ensures n == FromBE(tmpbuf[..])
    {
      n := 0;
      var i := 0;
      while i < 8
        invariant 0 <= i <= 8 && n == FromBE(tmpbuf[..i])
      {
        assert tmpbuf[..i + 1][..i] == tmpbuf[..i];
        n := n * 256 + tmpbuf[i];
        i := i + 1;
      }
      assert tmpbuf[..8] == tmpbuf[..];
    }

    /** Runs the actions whose bytes are complete, until more bytes are needed; false when an action refuses. */
    method Advance() returns (ok: bool)
      requires Valid() && next != NoAction
      modifies this
      ensures Valid() && Parsed() == old(Parsed())
      ensures ok ==> toRead > 0 && next != NoAction
      ensures !ok ==> next == NoAction || (Refused() && room == 0)
      ensures body == old(body) || fresh(body)
      ensures old(delivered) <= delivered && room + |delivered| == old(room + |delivered|)
    {
      ok := true;
      while toRead == 0 && ok
        invariant Valid() && Parsed() == old(Parsed()) && old(delivered) <= delivered
        invariant room + |delivered| == old(room + |delivered|)
        invariant body == old(body) || fresh(body)
        invariant ok ==> next != NoAction
        invariant !ok ==> next == NoAction || (Refused() && room == 0)
        decreases ok, if toRead > 0 then 0 else if next == MessageReady then 1 else 2
      {
        ok := Act();
      }
    }

    /**
     * `get_buffer`: where to read to, and how much. In place that is exactly the rest of the field in
     * progress, so nothing of the next one can get there; the buffer takes more than that rest.
     */
    method GetBuffer() returns (direct: bool, size: nat)
      requires Valid()
      ensures size >= bufsize
      ensures direct && next != NoAction ==> |Raw().got| + size == Need(Raw())
      ensures !direct ==> size == bufsize
      ensures !direct && next != NoAction ==> |Raw().got| + size > Need(Raw())
    {
      direct := toRead >= bufsize;
      size := if direct then toRead else bufsize;
    }

    /** Puts bytes where `read_pos` points. */
    method Place(data: seq<Byte>)
      requires Valid() && |data| <= toRead && next != NoAction
      modifies tmpbuf, body
      ensures Raw() == old(Raw())
      ensures (if inBody then body else tmpbuf)[readPos..readPos + |data|] == data
    {
      if inBody {
        forall k | 0 <= k < |data| { body[readPos + k] := data[k]; }
      } else {
        forall k | 0 <= k < |data| { tmpbuf[readPos + k] := data[k]; }
      }
    }

    /** Moves `read_pos` over bytes already in place; the parser has then taken them into its field. */
    method Accept(n: nat, ghost data: seq<Byte>)
      requires Valid() && n == |data| <= toRead && next != NoAction
      requires (if inBody then body else tmpbuf)[readPos..readPos + n] == data
      modifies this`readPos, this`toRead
      ensures Valid() && toRead == old(toRead) - n
      ensures old(toRead) > 0 ==> Parsed() == FeedAll(old(Parsed()), data)
      ensures n == 0 ==> Parsed() == old(Parsed())
    {
      ghost var before := Raw();
      if toRead > 0 { FeedField(before, data); }
      MoveReadPos(n, data);
      assert before.got + [] == before.got;
    }

    method MoveReadPos(n: nat, ghost data: seq<Byte>)
      requires Valid() && n == |data| <= toRead && next != NoAction
      requires (if inBody then body else tmpbuf)[readPos..readPos + n] == data
      modifies this`readPos, this`toRead
      ensures Valid() && toRead == old(toRead) - n
      ensures Raw() == old(Raw()).(got := old(Raw()).got + data)
    {
      readPos, toRead := readPos + n, toRead - n;
    }

    /** Copies bytes to `read_pos` and moves it over them. */
    method Copy(run: seq<Byte>)
      requires Valid() && 0 < |run| <= toRead && next != NoAction
      modifies tmpbuf, body, this`readPos, this`toRead
      ensures Valid() && toRead == old(toRead) - |run|
      ensures Parsed() == FeedAll(old(Parsed()), run)
    {
      Place(run);
      Accept(|run|, run);
    }

    /** Copies as much of the data as the current field takes. */
    method CopySome(data: seq<Byte>, pos: nat, ghost start: Parser) returns (end: nat)
      requires Valid() && toRead > 0 && next != NoAction && pos < |data|
      requires Parsed() == FeedAll(start, data[..pos])
      modifies tmpbuf, body, this`readPos, this`toRead
      ensures Valid() && pos < end <= |data|
      ensures Parsed() == FeedAll(start, data[..end])
    {
      var toCopy := if toRead <= |data| - pos then toRead else |data| - pos;
      end := pos + toCopy;
      assert data[..end] == data[..pos] + data[pos..end];
      FeedConcat(start, data[..pos], data[pos..end]);
      Copy(data[pos..end]);
    }

    /** `process_buffer` for bytes that were read straight to `read_pos`: all of them are processed. */
    method ProcessDirect(size: nat, ghost data: seq<Byte>) returns (processed: int)
      requires Valid() && Resting() && size == |data|
      requires next != NoAction ==>
        size <= toRead && toRead > 0 && (if inBody then body else tmpbuf)[readPos..readPos + size] == data
      modifies this
      ensures Valid() && Resting() && old(delivered) <= delivered
      ensures processed == -1 <==> next == NoAction
      ensures processed != -1 ==> processed == size
      ensures room + |delivered| == old(room + |delivered|) && (Refused() ==> room == 0)
      ensures Parsed() == FeedAll(old(Parsed()), data)
      ensures body == old(body) || fresh(body)
    {
      if next == NoAction {
        OutputGrows(Parsed(), data);
        return -1;
      }
      Accept(size, data);
      var ok := Advance();
      processed := if next == NoAction then -1 else size;
    }

    /**
     * `process_buffer` for bytes in the decoder's own buffer. Unless there is an error, exactly the bytes
     * reported as processed were parsed, and fewer than all only when a message was refused, so the rest
     * can be presented again.
     */
    method ProcessCopy(data: seq<Byte>) returns (processed: int)
      requires Valid() && Resting()
      modifies this, tmpbuf, body
      ensures Valid() && Resting() && old(delivered) <= delivered
      ensures processed == -1 <==> next == NoAction
      ensures processed != -1 ==> 0 <= processed <= |data|
      ensures processed != -1 ==> Parsed() == FeedAll(old(Parsed()), data[..processed])
      ensures processed == -1 ==> Parsed() == FeedAll(old(Parsed()), data)
      ensures processed != -1 && processed < |data| ==> Refused()
      ensures room + |delivered| == old(room + |delivered|) && (Refused() ==> room == 0)
      ensures body == old(body) || fresh(body)
    {
      if next == NoAction {
        OutputGrows(Parsed(), data);
        return -1;
      }
      var pos := 0;
      ghost var start := Parsed();
      assert data[..0] == [];
      while true
        invariant Valid() && next != NoAction && 0 <= pos <= |data| && old(delivered) <= delivered
        invariant room + |delivered| == old(room + |delivered|)
        invariant Parsed() == FeedAll(start, data[..pos])
        invariant body == old(body) || fresh(body)
        decreases |data| - pos
      {
        var ok := Advance();
        if !ok {
          if next == NoAction {
            FailedStays(start, data, pos);
            return -1;
          }
          return pos;
        }
        if pos == |data| {
          return pos;
        }
        pos := CopySome(data, pos, start);
      }
      processed := pos;
    }
  }
}
