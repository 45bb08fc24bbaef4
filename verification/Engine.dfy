/** Encoder and decoder end to end, over a stream that cuts the bytes anywhere and a destination that refuses at will. */
module Engine {
  import opened Bytes
  import opened Wire
  import E = Encoder
  import D = Decoder

  /** Taking bytes off the front of what is underway only moves the cut. */
  lemma MoveCut(parsed: seq<Byte>, held: seq<Byte>, rest: seq<Byte>, left: seq<Byte>,
                taken: seq<Byte>, held': seq<Byte>, rest': seq<Byte>)
    requires held + rest == taken + held' + rest'
    ensures parsed + taken + (held' + (rest' + left)) == parsed + (held + (rest + left))
  {
    assert held + (rest + left) == held + rest + left;
    assert taken + held' + rest' + left == taken + (held' + (rest' + left));
  }

  lemma CutAt(parsed: seq<Byte>, held: seq<Byte>, left: seq<Byte>, taken: seq<Byte>)
    requires taken <= held
    ensures parsed + (held + left) == parsed + taken + (held[|taken|..] + left)
  {
    assert held == taken + held[|taken|..];
  }

  /** No part of what is underway can make the decoder fail. */
  lemma NoError(ms: seq<Message>, parsed: seq<Byte>, held: seq<Byte>, rest: seq<Byte>, left: seq<Byte>, taken: seq<Byte>)
    requires E.AllEncodable(ms) && parsed + (held + (rest + left)) == Frames(ms) && taken <= held + rest
    ensures FeedAll(START, parsed + taken).phase != Failed
  {
    assert held + (rest + left) == (held + rest) + left;
    CutAt(parsed, held + rest, left, taken);
    assert parsed + taken <= Frames(ms);
    PrefixDelivered(ms, parsed + taken);
  }

  function Min(a: nat, b: nat): nat { if a <= b then a else b }

  /** Hands data to the decoder, in place or from its buffer; `taken` is what the parser consumed. */
  method Push(dec: D.Decoder, data: seq<Byte>, direct: bool) returns (left: seq<Byte>, ghost taken: seq<Byte>)
    requires dec.Valid() && dec.Resting() && dec.next != D.NoAction
    requires direct ==> 0 < dec.toRead && |data| <= dec.toRead
    modifies dec, dec.tmpbuf, dec.body
    ensures dec.Valid() && dec.Resting() && (dec.body == old(dec.body) || fresh(dec.body))
    ensures dec.Parsed() == FeedAll(old(dec.Parsed()), taken)
    ensures taken <= data && (dec.next != D.NoAction ==> data == taken + left)
    ensures dec.room + |dec.delivered| == old(dec.room + |dec.delivered|) && (dec.Refused() ==> dec.room == 0)
    ensures dec.next != D.NoAction && !dec.Refused() ==> left == [] && taken == data
  {
    var processed;
    if direct {
      dec.Place(data);
      processed := dec.ProcessDirect(|data|, data);
    } else {
      processed := dec.ProcessCopy(data);
    }
    assert data[..|data|] == data;
    if processed == -1 {
      taken, left := data, [];
    } else {
      taken, left := data[..processed], data[processed..];
    }
  }

  /**
   * One read event: unprocessed bytes are presented again, otherwise a run is read where the decoder wants
   * it, of the `arrived` bytes that the socket has. Unless the destination refuses, bytes that are there are parsed.
   */
  method InEvent(dec: D.Decoder, stream: seq<Byte>, unprocessed: seq<Byte>, arrived: nat)
    returns (stream': seq<Byte>, unprocessed': seq<Byte>, ghost taken: seq<Byte>)
    requires dec.Valid() && dec.Resting() && dec.bufsize > 0 && dec.next != D.NoAction
    modifies dec, dec.tmpbuf, dec.body
    ensures dec.Valid() && dec.Resting() && (dec.body == old(dec.body) || fresh(dec.body))
    ensures dec.Parsed() == FeedAll(old(dec.Parsed()), taken)
    ensures taken <= unprocessed + stream
    ensures dec.next != D.NoAction ==> unprocessed + stream == taken + unprocessed' + stream'
    ensures dec.room + |dec.delivered| == old(dec.room + |dec.delivered|) && (dec.Refused() ==> dec.room == 0)
    ensures dec.next != D.NoAction && !dec.Refused() && arrived > 0 && unprocessed + stream != [] ==> taken != []
  {
    if unprocessed == [] {
      var direct, size := dec.GetBuffer();
      var n := Min(arrived, Min(size, |stream|));
      stream' := stream[n..];
      assert unprocessed + stream == stream[..n] + stream';
      unprocessed', taken := Push(dec, stream[..n], direct);
    } else {
      stream' := stream;
      unprocessed', taken := Push(dec, unprocessed, false);
    }
  }

  ghost predicate Sends(enc: E.Encoder)
    reads enc, enc.tmpbuf
  {
    enc.Valid() && E.AllEncodable(enc.source)
  }

  /** The decoder has parsed `parsed` and waits for more, or has a message refused. */
  ghost predicate Receives(dec: D.Decoder, parsed: seq<Byte>)
    reads dec`body, dec`flags, dec`inBody, dec`readPos, dec`toRead, dec`next, dec`delivered, dec.tmpbuf, dec.body
  {
    dec.Valid() && dec.Resting() && dec.bufsize > 0 && dec.next != D.NoAction && dec.Parsed() == FeedAll(START, parsed)
  }

  /** What is parsed and what is underway make up all the frames. */
  ghost predicate Accounted(ms: seq<Message>, parsed: seq<Byte>, unprocessed: seq<Byte>, stream: seq<Byte>, left: seq<Byte>) {
    E.AllEncodable(ms) && parsed + (unprocessed + (stream + left)) == Frames(ms)
  }

  ghost predicate InSync(enc: E.Encoder, dec: D.Decoder, ms: seq<Message>, parsed: seq<Byte>, stream: seq<Byte>, unprocessed: seq<Byte>)
    reads enc, enc.tmpbuf, dec`body, dec`flags, dec`inBody, dec`readPos, dec`toRead, dec`next, dec`delivered, dec.tmpbuf, dec.body
  {
    Sends(enc) && Receives(dec, parsed) && Accounted(ms, parsed, unprocessed, stream, enc.Remaining())
  }

  /** The two sides share no buffer. */
  ghost predicate Apart(enc: E.Encoder, dec: D.Decoder)
    reads dec`body
  {
    enc.tmpbuf != dec.tmpbuf && enc.tmpbuf != dec.body && enc.buf != dec.tmpbuf && enc.buf != dec.body
  }

  /** What the destination has accepted or still has room for. */
  ghost function Capacity(dec: D.Decoder): nat
    reads dec`room, dec`delivered
  {
    dec.room + |dec.delivered|
  }

  /** One event on each side. With room for all messages something more is parsed, until everything is. */
  method Round(enc: E.Encoder, dec: D.Decoder, ghost ms: seq<Message>, ghost parsed: seq<Byte>, stream: seq<Byte>, unprocessed: seq<Byte>, arrived: nat)
    returns (ghost parsed': seq<Byte>, stream': seq<Byte>, unprocessed': seq<Byte>)
    requires InSync(enc, dec, ms, parsed, stream, unprocessed) && enc.buf.Length > 0
    requires Apart(enc, dec)
    modifies enc, enc.tmpbuf, enc.buf, dec, dec.tmpbuf, dec.body
    ensures InSync(enc, dec, ms, parsed', stream', unprocessed')
    ensures dec.body == old(dec.body) || fresh(dec.body)
    ensures Capacity(dec) == old(Capacity(dec))
    ensures Capacity(dec) >= |ms| && arrived > 0 ==> !dec.Refused() && (parsed' == Frames(ms) || |parsed'| > |parsed|)
  {
    var wire := Send(enc, dec, ms, parsed, stream, unprocessed);
    parsed', stream', unprocessed' := Receive(enc, dec, ms, parsed, wire, unprocessed, arrived);
  }

  /** With nothing left to read, the next batch is put on the wire. */
  method Send(enc: E.Encoder, ghost dec: D.Decoder, ghost ms: seq<Message>, ghost parsed: seq<Byte>, stream: seq<Byte>, ghost unprocessed: seq<Byte>)
    returns (wire: seq<Byte>)
    requires InSync(enc, dec, ms, parsed, stream, unprocessed) && enc.buf.Length > 0
    requires Apart(enc, dec)
    modifies enc, enc.tmpbuf, enc.buf
    ensures InSync(enc, dec, ms, parsed, wire, unprocessed)
    ensures stream <= wire && (wire == [] ==> enc.Remaining() == [])
  {
    wire := stream;
    if stream == [] {
      assert stream + enc.Remaining() == enc.Remaining();
      wire := enc.GetData(null);
    }
  }

  /** The event on the receiving side; no part of the stream makes the decoder fail. */
  method Receive(ghost enc: E.Encoder, dec: D.Decoder, ghost ms: seq<Message>, ghost parsed: seq<Byte>, stream: seq<Byte>, unprocessed: seq<Byte>, arrived: nat)
    returns (ghost parsed': seq<Byte>, stream': seq<Byte>, unprocessed': seq<Byte>)
    requires InSync(enc, dec, ms, parsed, stream, unprocessed) && (stream == [] ==> enc.Remaining() == [])
    requires Apart(enc, dec)
    modifies dec, dec.tmpbuf, dec.body
    ensures InSync(enc, dec, ms, parsed', stream', unprocessed')
    ensures dec.body == old(dec.body) || fresh(dec.body)
    ensures Capacity(dec) == old(Capacity(dec))
    ensures Capacity(dec) >= |ms| && arrived > 0 ==> !dec.Refused() && (parsed' == Frames(ms) || |parsed'| > |parsed|)
  {
    ghost var left := enc.Remaining();
    ghost var taken;
    stream', unprocessed', taken := InEvent(dec, stream, unprocessed, arrived);
    parsed' := parsed + taken;
    FeedConcat(START, parsed, taken);
    NoError(ms, parsed, unprocessed, stream, left, taken);
    DeliveredIsParsed(dec);
    MoveCut(parsed, unprocessed, stream, left, taken, unprocessed', stream');
    if Capacity(dec) >= |ms| && arrived > 0 {
      RoomForAll(dec, ms, parsed', unprocessed', stream', left);
      if taken == [] { NothingUnderway(ms, parsed, unprocessed, stream, left); }
    }
  }

  /** A destination with room for all messages refuses none. */
  lemma RoomForAll(dec: D.Decoder, ms: seq<Message>, parsed: seq<Byte>, unprocessed: seq<Byte>, stream: seq<Byte>, left: seq<Byte>)
    requires Receives(dec, parsed) && Accounted(ms, parsed, unprocessed, stream, left)
    requires Capacity(dec) >= |ms| && (dec.Refused() ==> dec.room == 0)
    ensures !dec.Refused()
  {
    PrefixDelivered(ms, parsed);
    DeliveredIsParsed(dec);
    AsManyReceived(ms);
  }

  lemma {:induction false} AsManyReceived(ms: seq<Message>)
    ensures |AllReceived(ms)| == |ms|
  {
    if ms != [] { AsManyReceived(ms[1..]); }
  }

  lemma NothingUnderway(ms: seq<Message>, parsed: seq<Byte>, unprocessed: seq<Byte>, stream: seq<Byte>, left: seq<Byte>)
    requires Accounted(ms, parsed, unprocessed, stream, left) && unprocessed + stream == [] && left == []
    ensures parsed == Frames(ms)
  {
    assert unprocessed == [] && stream == [];
    assert parsed + ([] + ([] + [])) == parsed;
  }

  /** What happens in a round: how many bytes the socket has, and for how many more messages the destination gets room before it. */
  datatype Event = Event(arrived: nat, room: nat)

  function Room(events: seq<Event>): nat {
    if events == [] then 0 else Room(events[..|events| - 1]) + events[|events| - 1].room
  }

  /** From event `k` on there is room for everything, and some bytes arrive each time. */
  ghost predicate WillingFrom(events: seq<Event>, k: nat, n: int) {
    k <= |events| && Room(events[..k]) >= n && forall i :: k <= i < |events| ==> events[i].arrived > 0
  }

  lemma {:induction false} RoomGrows(events: seq<Event>, i: nat, j: nat)
    requires i <= j <= |events|
    ensures Room(events[..i]) <= Room(events[..j])
    decreases j
  {
    if i < j {
      RoomGrows(events, i, j - 1);
      assert events[..j][..j - 1] == events[..j - 1];
    }
  }

  /**
   * Whatever the sizes of the two buffers, the places where the stream is cut and the messages that are
   * refused for a while: what is delivered is a prefix of the messages sent and there is no error. Once
   * nothing is underway and nothing is refused, exactly the messages sent were delivered, in order; and
   * that is so at the latest when, with room for them, as many rounds were made as there are bytes to send.
   */
  method Transfer(enc: E.Encoder, dec: D.Decoder, ghost ms: seq<Message>, events: seq<Event>, ghost k: nat)
    returns (stream: seq<Byte>, unprocessed: seq<Byte>)
    requires InSync(enc, dec, ms, [], [], []) && enc.buf.Length > 0 && dec.delivered == []
    requires Apart(enc, dec)
    modifies enc, enc.tmpbuf, enc.buf, dec, dec.tmpbuf, dec.body
    ensures enc.Valid() && dec.Valid() && dec.next != D.NoAction
    ensures dec.delivered <= AllReceived(ms)
    ensures unprocessed == [] && stream == [] && enc.Remaining() == [] && !dec.Refused() ==> dec.delivered == AllReceived(ms)
    ensures WillingFrom(events, k, |ms| - old(dec.room)) && |events| >= k + |Frames(ms)| ==> dec.delivered == AllReceived(ms)
  {
    stream, unprocessed := [], [];
    ghost var parsed: seq<Byte> := [];
    ghost var willing := WillingFrom(events, k, |ms| - dec.room);
    ghost var room := dec.room;
    var i := 0;
    while i < |events|
      invariant 0 <= i <= |events|
      invariant InSync(enc, dec, ms, parsed, stream, unprocessed)
      invariant Apart(enc, dec)
      invariant dec.body == old(dec.body) || fresh(dec.body)
      invariant Capacity(dec) == room + Room(events[..i])
      invariant willing ==> Progress(ms, parsed, dec.Refused(), i - k)
    {
      RoomAt(events, i, k);
      parsed, stream, unprocessed := Turn(enc, dec, ms, parsed, stream, unprocessed, events[i], i - k);
      i := i + 1;
    }
    Outcome(enc, dec, ms, parsed, stream, unprocessed);
  }

  /** After `n` rounds with room: nothing is refused, and everything is parsed or at least a byte in each round. */
  ghost predicate Progress(ms: seq<Message>, parsed: seq<Byte>, refused: bool, n: int) {
    (n > 0 ==> !refused) && (parsed == Frames(ms) || |parsed| >= n)
  }

  /** One round of the transfer, which has `n` rounds with room behind it. */
  method Turn(enc: E.Encoder, dec: D.Decoder, ghost ms: seq<Message>, ghost parsed: seq<Byte>, stream: seq<Byte>, unprocessed: seq<Byte>,
              event: Event, ghost n: int)
    returns (ghost parsed': seq<Byte>, stream': seq<Byte>, unprocessed': seq<Byte>)
    requires InSync(enc, dec, ms, parsed, stream, unprocessed) && enc.buf.Length > 0
    requires Apart(enc, dec)
    modifies enc, enc.tmpbuf, enc.buf, dec, dec.tmpbuf, dec.body
    ensures InSync(enc, dec, ms, parsed', stream', unprocessed')
    ensures dec.body == old(dec.body) || fresh(dec.body)
    ensures Capacity(dec) == old(Capacity(dec)) + event.room
    ensures old(Progress(ms, parsed, dec.Refused(), n)) && (n >= 0 ==> Capacity(dec) >= |ms| && event.arrived > 0) ==>
      Progress(ms, parsed', dec.Refused(), n + 1)
  {
    Open(enc, dec, ms, parsed, stream, unprocessed, event.room);
    parsed', stream', unprocessed' := Round(enc, dec, ms, parsed, stream, unprocessed, event.arrived);
  }

  /** The destination gets room for more messages; what is underway is as before. */
  method Open(ghost enc: E.Encoder, dec: D.Decoder, ghost ms: seq<Message>, ghost parsed: seq<Byte>, ghost stream: seq<Byte>, ghost unprocessed: seq<Byte>, n: nat)
    requires InSync(enc, dec, ms, parsed, stream, unprocessed)
    modifies dec`room
    ensures InSync(enc, dec, ms, parsed, stream, unprocessed)
    ensures Capacity(dec) == old(Capacity(dec)) + n && dec.Refused() == old(dec.Refused())
  {
    ghost var before, left := dec.Parsed(), enc.Remaining();
    dec.MakeRoom(n);
    assert dec.Parsed() == before && enc.Remaining() == left;
  }

  lemma RoomAt(events: seq<Event>, i: nat, k: nat)
    requires i < |events|
    ensures Room(events[..i + 1]) == Room(events[..i]) + events[i].room
    ensures k <= i ==> Room(events[..k]) <= Room(events[..i + 1])
  {
    assert events[..i + 1][..i] == events[..i];
    if k <= i { RoomGrows(events, k, i + 1); }
  }

  /** Everything parsed and nothing refused means everything delivered. */
  lemma Outcome(enc: E.Encoder, dec: D.Decoder, ms: seq<Message>, parsed: seq<Byte>, stream: seq<Byte>, unprocessed: seq<Byte>)
    requires InSync(enc, dec, ms, parsed, stream, unprocessed)
    ensures dec.delivered <= AllReceived(ms)
    ensures parsed == Frames(ms) && (!dec.Refused() || Frames(ms) == []) ==> dec.delivered == AllReceived(ms)
    ensures |parsed| >= |Frames(ms)| ==> parsed == Frames(ms)
    ensures unprocessed == [] && stream == [] && enc.Remaining() == [] ==> parsed == Frames(ms)
  {
    AllParsed(ms, parsed, unprocessed, stream, enc.Remaining());
    PrefixDelivered(ms, parsed);
    DeliveredIsParsed(dec);
    if ms != [] { assert Frames(ms) == Frame(ms[0]) + Frames(ms[1..]) && Frame(ms[0]) != []; }
  }

  lemma AllParsed(ms: seq<Message>, parsed: seq<Byte>, unprocessed: seq<Byte>, stream: seq<Byte>, left: seq<Byte>)
    requires Accounted(ms, parsed, unprocessed, stream, left)
    ensures parsed <= Frames(ms) && (|parsed| >= |Frames(ms)| ==> parsed == Frames(ms))
    ensures unprocessed == [] && stream == [] && left == [] ==> parsed == Frames(ms)
  {
    assert parsed + (unprocessed + (stream + left)) == Frames(ms);
  }

  /** Messages parsed and messages delivered differ only by one that is being refused. */
  lemma DeliveredIsParsed(dec: D.Decoder)
    requires dec.Valid() && dec.Resting()
    ensures dec.delivered <= dec.Parsed().out
    ensures dec.toRead > 0 ==> dec.delivered == dec.Parsed().out
    ensures dec.Refused() ==> |dec.Parsed().out| == |dec.delivered| + 1
    ensures dec.next == D.NoAction <==> dec.Parsed().phase == Failed
  {
    SettleGrows(dec.Raw());
  }
}
