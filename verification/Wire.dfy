/** ZMTP 1.0 framing as byte sequences: what a list of messages looks like on the wire, and how bytes are parsed back. */
module Wire {
  import opened Bytes

  /** The `k` low bytes of `n` in network byte order. */
  function ToBE(n: nat, k: nat): (s: seq<Byte>)
    ensures |s| == k
  {
    if k == 0 then [] else ToBE(n / 256, k - 1) + [n % 256]
  }

  function FromBE(s: seq<Byte>): nat {
    if s == [] then 0 else FromBE(s[..|s| - 1]) * 256 + s[|s| - 1]
  }

  lemma {:induction false} BERoundTrip(n: nat, k: nat)
    requires n < Pow256(k)
    ensures FromBE(ToBE(n, k)) == n
  {
    if k == 0 {
    } else {
      BERoundTrip(n / 256, k - 1);
      assert ToBE(n, k)[..k - 1] == ToBE(n / 256, k - 1);
    }
  }

  lemma {:induction false} BEUnique(s: seq<Byte>)
    ensures FromBE(s) < Pow256(|s|) && ToBE(FromBE(s), |s|) == s
  {
    if s == [] {
    } else {
      var init, last := s[..|s| - 1], s[|s| - 1];
      BEUnique(init);
      assert FromBE(s) / 256 == FromBE(init) && FromBE(s) % 256 == last;
      assert init + [last] == s;
    }
  }

  /** `put_uint64`, byte by byte from the most significant end. */
  method PutUint64(buffer: array<Byte>, at: nat, value: nat)
    requires at + 8 <= buffer.Length && value < Pow256(8)
    modifies buffer
    ensures buffer[at..at + 8] == ToBE(value, 8)
    ensures forall k :: 0 <= k < buffer.Length && !(at <= k < at + 8) ==> buffer[k] == old(buffer[k])
  {
    var i, rest := 8, value;
    while i > 0
      invariant 0 <= i <= 8
      invariant ToBE(value, 8) == ToBE(rest, i) + buffer[at + i..at + 8]
      invariant forall k :: 0 <= k < buffer.Length && !(at <= k < at + 8) ==> buffer[k] == old(buffer[k])
    {
      ghost var tail := buffer[at + i..at + 8];
      buffer[at + i - 1] := rest % 256;
      assert buffer[at + i - 1..at + 8] == [rest % 256] + tail;
      assert ToBE(rest, i) + tail == ToBE(rest / 256, i - 1) + ([rest % 256] + tail);
      i, rest := i - 1, rest / 256;
    }
  }

  /** Only the MORE bit of the flags goes over the wire. */
  function WireFlags(flags: Byte): Byte { flags % 2 }

  /** A frame: length of flags and body, in one byte or escaped in nine, then flags and body. */
  function Header(m: Message): seq<Byte>
  {
    if |m.body| + 1 < 255 then [|m.body| + 1, WireFlags(m.flags)]
    else [255] + ToBE(|m.body| + 1, 8) + [WireFlags(m.flags)]
  }

  function Frame(m: Message): seq<Byte> { Header(m) + m.body }

  function Frames(ms: seq<Message>): seq<Byte> {
    if ms == [] then [] else Frame(ms[0]) + Frames(ms[1..])
  }

  /** The flags a message gets from the wire: bits 0 and 7 as sent, all others set. */
  function MessageFlags(wire: Byte): Byte { 126 + wire % 2 + wire / 128 * 128 }

  // ---- Parsing

  datatype Phase = OneByteSize | EightByteSize | FlagsByte | Body | Failed

  /** A parser between two bytes: the current field, what it has of it, and the messages completed so far. */
  datatype Parser = Parser(phase: Phase, got: seq<Byte>, size: nat, flags: Byte, out: seq<Message>)

  const START := Parser(OneByteSize, [], 0, 0, [])

  function Need(p: Parser): nat {
    match p.phase
    case OneByteSize => 1
    case EightByteSize => 8
    case FlagsByte => 1
    case Body => p.size
    case Failed => 1
  }

  predicate Full(p: Parser) { p.phase != Failed && |p.got| >= Need(p) }

  /** What a complete field leads to. A size of zero is an error, since the flags byte counts. */
  function Complete(p: Parser): Parser
    requires Full(p)
  {
    match p.phase
    case OneByteSize =>
      if p.got[0] == 255 then p.(phase := EightByteSize, got := [])
      else if p.got[0] == 0 then p.(phase := Failed, got := [])
      else p.(phase := FlagsByte, got := [], size := p.got[0] - 1)
    case EightByteSize =>
      if FromBE(p.got) == 0 then p.(phase := Failed, got := [])
      else p.(phase := FlagsByte, got := [], size := FromBE(p.got) - 1)
    case FlagsByte => p.(phase := Body, got := [], flags := MessageFlags(p.got[0]))
    case Body => Parser(OneByteSize, [], 0, 0, p.out + [Message(p.flags, p.got)])
  }

  /** Runs on over complete fields, of which an empty body is one. */
  function Settle(p: Parser): Parser
    decreases if !Full(p) then 0 else match p.phase case Body => 1 case FlagsByte => 2 case EightByteSize => 3 case _ => 4
  {
    if Full(p) then Settle(Complete(p)) else p
  }

  function Feed(p: Parser, b: Byte): Parser {
    if p.phase == Failed then p else Settle(p.(got := p.got + [b]))
  }

  function FeedAll(p: Parser, s: seq<Byte>): Parser
    decreases |s|
  {
    if s == [] then p else FeedAll(Feed(p, s[0]), s[1..])
  }

  /** Parsing does not depend on where the bytes are cut. */
  lemma {:induction false} FeedConcat(p: Parser, a: seq<Byte>, b: seq<Byte>)
    ensures FeedAll(p, a + b) == FeedAll(FeedAll(p, a), b)
    decreases |a|
  {
    if a == [] {
      assert a + b == b;
    } else {
      FeedConcat(Feed(p, a[0]), a[1..], b);
      assert (a + b)[1..] == a[1..] + b;
    }
  }

  /** Bytes that do not complete the current field, or just do, simply accumulate. */
  lemma {:induction false} FeedField(p: Parser, s: seq<Byte>)
    requires p.phase != Failed && !Full(p) && |p.got| + |s| <= Need(p)
    ensures FeedAll(p, s) == Settle(p.(got := p.got + s))
    decreases |s|
  {
    if s == [] {
      assert p.got + s == p.got;
    } else if |s| == 1 {
      assert s == [s[0]];
      assert FeedAll(Feed(p, s[0]), s[1..]) == Feed(p, s[0]);
    } else {
      FeedField(p.(got := p.got + [s[0]]), s[1..]);
      assert p.got + [s[0]] + s[1..] == p.got + s;
    }
  }

  /** The message as the other side gets it: same body, MORE kept, the remaining flag bits set to their defaults. */
  function Received(m: Message): Message { Message(MessageFlags(WireFlags(m.flags)), m.body) }

  function AllReceived(ms: seq<Message>): seq<Message> {
    if ms == [] then [] else [Received(ms[0])] + AllReceived(ms[1..])
  }

  predicate Encodable(m: Message) { |m.body| + 1 < Pow256(8) }

  /** A parser at a message boundary that has completed `out`. */
  function Ready(out: seq<Message>): Parser { START.(out := out) }

  lemma FeedHeader(m: Message, out: seq<Message>)
    requires Encodable(m)
    ensures FeedAll(Ready(out), Header(m)) == Settle(Parser(Body, [], |m.body|, MessageFlags(WireFlags(m.flags)), out))
  {
    var p := Ready(out);
    var n := |m.body| + 1;
    var flags := [WireFlags(m.flags)];
    var ready := Parser(FlagsByte, [], |m.body|, 0, out);
    FeedField(ready, flags);
    assert Settle(ready.(got := flags)) == Settle(ready.(phase := Body, flags := MessageFlags(flags[0])));
    if n < 255 {
      FeedField(p, [n]);
      assert Settle(p.(got := [n])) == ready;
      FeedConcat(p, [n], flags);
      assert Header(m) == [n] + flags;
    } else {
      var escaped := Parser(EightByteSize, [], 0, 0, out);
      FeedField(p, [255]);
      assert Settle(p.(got := [255])) == escaped;
      FeedField(escaped, ToBE(n, 8));
      BERoundTrip(n, 8);
      assert escaped.got + ToBE(n, 8) == ToBE(n, 8);
      assert Settle(escaped.(got := ToBE(n, 8))) == ready;
      FeedConcat(p, [255], ToBE(n, 8));
      FeedConcat(p, [255] + ToBE(n, 8), flags);
      assert Header(m) == [255] + ToBE(n, 8) + flags;
    }
  }

  lemma {:induction false} FeedFrame(m: Message, out: seq<Message>)
    requires Encodable(m)
    ensures FeedAll(Ready(out), Frame(m)) == Ready(out + [Received(m)])
  {
    var p := Parser(Body, [], |m.body|, MessageFlags(WireFlags(m.flags)), out);
    FeedHeader(m, out);
    FeedConcat(Ready(out), Header(m), m.body);
    if m.body == [] {
      assert Settle(p) == Ready(out + [Received(m)]);
    } else {
      FeedField(p, m.body);
      assert p.got + m.body == m.body;
      assert Settle(p.(got := m.body)) == Ready(out + [Received(m)]);
    }
  }

  /** Parsing the frames of any list of messages gives back the messages, in order. */
  lemma {:induction false} RoundTrip(ms: seq<Message>, out: seq<Message>)
    requires forall m :: m in ms ==> Encodable(m)
    ensures FeedAll(Ready(out), Frames(ms)) == Ready(out + AllReceived(ms))
  {
    if ms == [] {
      assert out + AllReceived(ms) == out;
    } else {
      RoundTrip(ms[1..], out + [Received(ms[0])]);
      RoundTripMore(ms[0], ms[1..], out);
    }
  }

  lemma {:induction false} RoundTripMore(m: Message, rest: seq<Message>, out: seq<Message>)
    requires Encodable(m)
    requires FeedAll(Ready(out + [Received(m)]), Frames(rest)) == Ready(out + [Received(m)] + AllReceived(rest))
    ensures FeedAll(Ready(out), Frame(m) + Frames(rest)) == Ready(out + ([Received(m)] + AllReceived(rest)))
  {
    FeedFrameThen(m, out, Frames(rest));
    assert out + [Received(m)] + AllReceived(rest) == out + ([Received(m)] + AllReceived(rest));
  }

  lemma {:induction false} FeedFrameThen(m: Message, out: seq<Message>, rest: seq<Byte>)
    requires Encodable(m)
    ensures FeedAll(Ready(out), Frame(m) + rest) == FeedAll(Ready(out + [Received(m)]), rest)
  {
    FeedFrame(m, out);
    FeedConcat(Ready(out), Frame(m), rest);
  }

  lemma {:induction false} OutputGrows(p: Parser, s: seq<Byte>)
    ensures p.out <= FeedAll(p, s).out
    ensures p.phase == Failed ==> FeedAll(p, s) == p
    decreases |s|
  {
    if s != [] {
      SettleGrows(p.(got := p.got + [s[0]]));
      OutputGrows(Feed(p, s[0]), s[1..]);
    }
  }

  lemma {:induction false} SettleGrows(p: Parser)
    ensures p.out <= Settle(p).out
    ensures !Full(Settle(p))
    decreases if !Full(p) then 0 else match p.phase case Body => 1 case FlagsByte => 2 case EightByteSize => 3 case _ => 4
  {
    if Full(p) { SettleGrows(Complete(p)); }
  }

  /** While a valid stream is on its way, what came out is a prefix of what was sent, and there is no error. */
  lemma PrefixDelivered(ms: seq<Message>, sofar: seq<Byte>)
    requires forall m :: m in ms ==> Encodable(m)
    requires sofar <= Frames(ms)
    ensures FeedAll(START, sofar).phase != Failed
    ensures FeedAll(START, sofar).out <= AllReceived(ms)
    ensures sofar == Frames(ms) ==> FeedAll(START, sofar).out == AllReceived(ms)
  {
    var rest := Frames(ms)[|sofar|..];
    assert Frames(ms) == sofar + rest;
    FeedConcat(START, sofar, rest);
    RoundTrip(ms, []);
    assert [] + AllReceived(ms) == AllReceived(ms);
    OutputGrows(FeedAll(START, sofar), rest);
  }

  lemma {:induction false} ReceivedKeeps(ms: seq<Message>, i: nat)
    requires i < |ms|
    ensures |AllReceived(ms)| == |ms|
    ensures AllReceived(ms)[i].body == ms[i].body && HasMore(AllReceived(ms)[i].flags) == HasMore(ms[i].flags)
  {
    if i > 0 {
      ReceivedKeeps(ms[1..], i - 1);
    } else if |ms| > 1 {
      ReceivedKeeps(ms[1..], 0);
    }
  }
}
