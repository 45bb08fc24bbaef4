/**
 * What the parser accepts: any stream of frames, whichever of the two forms each length has; and what it
 * rejects: exactly a length of zero.
 */
module WireLanguage {
  import opened Bytes
  import opened Wire

  /** A frame as some peer may send it: a small length may be escaped too, and all bits of the flags byte are its own. */
  datatype Piece = Piece(escaped: bool, wire: Byte, body: seq<Byte>)

  function Length(escaped: bool, n: nat): seq<Byte>
    requires LengthFits(escaped, n)
  {
    if escaped then [255] + ToBE(n, 8) else [n]
  }

  predicate LengthFits(escaped: bool, n: nat) { n > 0 && if escaped then n < Pow256(8) else n < 255 }

  predicate Fits(f: Piece) { LengthFits(f.escaped, |f.body| + 1) }

  ghost predicate AllFit(fs: seq<Piece>) { forall f :: f in fs ==> Fits(f) }

  function Text(f: Piece): seq<Byte>
    requires Fits(f)
  {
    Length(f.escaped, |f.body| + 1) + [f.wire] + f.body
  }

  function Content(f: Piece): Message { Message(MessageFlags(f.wire), f.body) }

  ghost function Texts(fs: seq<Piece>): seq<Byte>
    requires AllFit(fs)
  {
    if fs == [] then [] else Texts(fs[..|fs| - 1]) + Text(fs[|fs| - 1])
  }

  function Contents(fs: seq<Piece>): seq<Message> {
    if fs == [] then [] else Contents(fs[..|fs| - 1]) + [Content(fs[|fs| - 1])]
  }

  /** `rest` is what the parser has of a frame that is not complete, or begins with the length that made it fail. */
  ghost predicate Begun(p: Parser, rest: seq<Byte>) {
    match p.phase
    case OneByteSize => rest == []
    case EightByteSize => rest == [255] + p.got && |p.got| < 8
    case FlagsByte => exists e :: BegunFlags(p, rest, e)
    case Body => |p.got| < p.size && exists e, w :: BegunBody(p, rest, e, w)
    case Failed => ZeroLength(rest)
  }

  ghost predicate BegunFlags(p: Parser, rest: seq<Byte>, e: bool) { LengthFits(e, p.size + 1) && rest == Length(e, p.size + 1) }

  ghost predicate BegunBody(p: Parser, rest: seq<Byte>, e: bool, w: Byte) {
    LengthFits(e, p.size + 1) && rest == Length(e, p.size + 1) + [w] + p.got && p.flags == MessageFlags(w)
  }

  /** A length of zero, in either form, with anything after it. */
  ghost predicate ZeroLength(rest: seq<Byte>) {
    || (rest != [] && rest[0] == 0)
    || (|rest| >= 9 && rest[..9] == [255] + ToBE(0, 8))
  }

  /** Between bytes the field in progress is not complete. */
  predicate Tidy(p: Parser) {
    match p.phase
    case OneByteSize => p == Ready(p.out)
    case EightByteSize => |p.got| < 8 && p.size == p.flags == 0
    case FlagsByte => p.got == []
    case Body => |p.got| < p.size
    case Failed => true
  }

  /** The bytes since the last complete frame, with one more: still incomplete, or the frame of one more message. */
  ghost predicate Advanced(p: Parser, q: Parser, rest: seq<Byte>) {
    || (q.out == p.out && Begun(q, rest))
    || (q.phase == OneByteSize && exists f :: Fits(f) && rest == Text(f) && q.out == p.out + [Content(f)])
  }

  /** The last byte of a field leads to the next field, or through an empty body to the next frame. */
  lemma FeedCompletes(p: Parser, b: Byte)
    requires p.phase != Failed && Full(p.(got := p.got + [b]))
    ensures var q := Complete(p.(got := p.got + [b])); Feed(p, b) == if Full(q) then Settle(Complete(q)) else q
  {
    var r := p.(got := p.got + [b]);
    assert Settle(r) == Settle(Complete(r));
  }

  lemma FeedOneByteSize(p: Parser, b: Byte)
    requires p.phase == OneByteSize && Tidy(p)
    ensures Tidy(Feed(p, b)) && Advanced(p, Feed(p, b), [b])
  {
    assert p.got + [b] == [b];
    FeedCompletes(p, b);
    if 0 < b < 255 {
      assert BegunFlags(Feed(p, b), [b], false);
    }
  }

  lemma FeedEightByteSize(p: Parser, rest: seq<Byte>, b: Byte)
    requires p.phase == EightByteSize && Tidy(p) && Begun(p, rest)
    ensures Tidy(Feed(p, b)) && Advanced(p, Feed(p, b), rest + [b])
  {
    var got := p.got + [b];
    assert rest + [b] == [255] + got;
    if |got| == 8 {
      BEUnique(got);
      FeedCompletes(p, b);
      if FromBE(got) == 0 {
        assert (rest + [b])[..9] == [255] + ToBE(0, 8);
      } else {
        assert BegunFlags(Feed(p, b), rest + [b], true);
      }
    }
  }

  lemma FeedFlags(p: Parser, rest: seq<Byte>, b: Byte)
    requires p.phase == FlagsByte && Tidy(p) && Begun(p, rest)
    ensures Tidy(Feed(p, b)) && Advanced(p, Feed(p, b), rest + [b])
  {
    var e :| BegunFlags(p, rest, e);
    FlagsComplete(p, b);
    if p.size == 0 {
      NoBody(rest, e, b);
      assert Feed(p, b).out == p.out + [Content(Piece(e, b, []))];
    } else {
      var q := Feed(p, b);
      assert Length(e, p.size + 1) + [b] + q.got == rest + [b];
      assert BegunBody(q, rest + [b], e, b);
    }
  }

  /** The flags byte leads to the body, and an empty body to the next frame. */
  lemma FlagsComplete(p: Parser, b: Byte)
    requires p.phase == FlagsByte && p.got == []
    ensures Feed(p, b) ==
      if p.size == 0 then Ready(p.out + [Message(MessageFlags(b), [])]) else p.(phase := Body, got := [], flags := MessageFlags(b))
  {
    assert p.got + [b] == [b];
    FeedCompletes(p, b);
  }

  lemma NoBody(rest: seq<Byte>, e: bool, b: Byte)
    requires LengthFits(e, 1) && rest == Length(e, 1)
    ensures Fits(Piece(e, b, [])) && rest + [b] == Text(Piece(e, b, []))
  {
  }

  lemma FeedBody(p: Parser, rest: seq<Byte>, b: Byte)
    requires p.phase == Body && Tidy(p) && Begun(p, rest)
    ensures Tidy(Feed(p, b)) && Advanced(p, Feed(p, b), rest + [b])
  {
    var e, w :| BegunBody(p, rest, e, w);
    var got := p.got + [b];
    assert rest + [b] == Length(e, p.size + 1) + [w] + got;
    if |got| == p.size {
      FeedCompletes(p, b);
      var f := Piece(e, w, got);
      assert rest + [b] == Text(f) && Content(f) == Message(p.flags, got);
      assert Feed(p, b) == Ready(p.out + [Content(f)]);
    } else {
      assert BegunBody(Feed(p, b), rest + [b], e, w);
    }
  }

  lemma FeedAdvances(p: Parser, rest: seq<Byte>, b: Byte)
    requires Tidy(p) && Begun(p, rest)
    ensures Tidy(Feed(p, b)) && Advanced(p, Feed(p, b), rest + [b])
  {
    match p.phase
    case OneByteSize =>
      assert rest + [b] == [b];
      FeedOneByteSize(p, b);
    case EightByteSize => FeedEightByteSize(p, rest, b);
    case FlagsByte => FeedFlags(p, rest, b);
    case Body => FeedBody(p, rest, b);
    case Failed =>
      if |rest| >= 9 { assert (rest + [b])[..9] == rest[..9]; }
  }

  lemma FeedOne(p: Parser, b: Byte)
    ensures FeedAll(p, [b]) == Feed(p, b)
  {
    assert FeedAll(p, [b]) == FeedAll(Feed(p, b), [b][1..]);
  }

  lemma FeedLast(s: seq<Byte>)
    requires s != []
    ensures FeedAll(START, s) == Feed(FeedAll(START, s[..|s| - 1]), s[|s| - 1])
  {
    var n := |s| - 1;
    FeedConcat(START, s[..n], [s[n]]);
    FeedOne(FeedAll(START, s[..n]), s[n]);
    assert s == s[..n] + [s[n]];
  }

  lemma OneMore(fs: seq<Piece>, f: Piece)
    requires AllFit(fs) && Fits(f)
    ensures AllFit(fs + [f]) && Texts(fs + [f]) == Texts(fs) + Text(f) && Contents(fs + [f]) == Contents(fs) + [Content(f)]
  {
    assert (fs + [f])[..|fs|] == fs;
  }

  /**
   * Whatever bytes come in, they are some frames, of which exactly the messages were delivered, and the
   * beginning of a frame that is not complete yet, or a length of zero at which the parser gave up.
   */
  lemma {:induction false} EveryStreamIsFrames(s: seq<Byte>) returns (fs: seq<Piece>, rest: seq<Byte>)
    ensures AllFit(fs) && s == Texts(fs) + rest
    ensures var p := FeedAll(START, s); Tidy(p) && p.out == Contents(fs) && Begun(p, rest)
    decreases |s|
  {
    if s == [] {
      fs, rest := [], [];
    } else {
      var n := |s| - 1;
      fs, rest := EveryStreamIsFrames(s[..n]);
      ParsedMore(s, rest);
      LastByte(s, Texts(fs), rest);
      fs, rest := Regrouped(FeedAll(START, s[..n]), FeedAll(START, s), fs, rest + [s[n]]);
    }
  }

  lemma ParsedMore(s: seq<Byte>, rest: seq<Byte>)
    requires s != [] && Tidy(FeedAll(START, s[..|s| - 1])) && Begun(FeedAll(START, s[..|s| - 1]), rest)
    ensures Tidy(FeedAll(START, s)) && Advanced(FeedAll(START, s[..|s| - 1]), FeedAll(START, s), rest + [s[|s| - 1]])
  {
    FeedLast(s);
    FeedAdvances(FeedAll(START, s[..|s| - 1]), rest, s[|s| - 1]);
  }

  lemma LastByte(s: seq<Byte>, done: seq<Byte>, rest: seq<Byte>)
    requires s != [] && s[..|s| - 1] == done + rest
    ensures s == done + (rest + [s[|s| - 1]])
  {
  }

  /** A frame that has become complete joins the others. */
  lemma Regrouped(p: Parser, q: Parser, fs: seq<Piece>, rest: seq<Byte>) returns (gs: seq<Piece>, more: seq<Byte>)
    requires AllFit(fs) && p.out == Contents(fs) && Tidy(q) && Advanced(p, q, rest)
    ensures AllFit(gs) && Texts(gs) + more == Texts(fs) + rest && q.out == Contents(gs) && Begun(q, more)
  {
    gs, more := fs, rest;
    if !(q.out == p.out && Begun(q, rest)) {
      var f :| Fits(f) && rest == Text(f) && q.out == p.out + [Content(f)];
      OneMore(fs, f);
      gs, more := fs + [f], [];
      assert Texts(gs) + [] == Texts(gs);
    }
  }

  // ---- Conversely

  lemma FeedLength(out: seq<Message>, escaped: bool, n: nat)
    requires LengthFits(escaped, n)
    ensures FeedAll(Ready(out), Length(escaped, n)) == Parser(FlagsByte, [], n - 1, 0, out)
  {
    var p := Ready(out);
    if escaped {
      var q := Parser(EightByteSize, [], 0, 0, out);
      FeedField(p, [255]);
      assert Settle(p.(got := [255])) == q;
      FeedField(q, ToBE(n, 8));
      BERoundTrip(n, 8);
      assert q.got + ToBE(n, 8) == ToBE(n, 8);
      FeedConcat(p, [255], ToBE(n, 8));
    } else {
      FeedField(p, [n]);
      assert p.got + [n] == [n];
    }
  }

  lemma FeedText(out: seq<Message>, f: Piece)
    requires Fits(f)
    ensures FeedAll(Ready(out), Text(f)) == Ready(out + [Content(f)])
  {
    var n := |f.body| + 1;
    var p, q := Parser(FlagsByte, [], |f.body|, 0, out), Parser(Body, [], |f.body|, MessageFlags(f.wire), out);
    FeedLength(out, f.escaped, n);
    FeedField(p, [f.wire]);
    assert p.got + [f.wire] == [f.wire];
    assert Complete(p.(got := [f.wire])) == q;
    assert Settle(p.(got := [f.wire])) == Settle(q);
    FeedConcat(Ready(out), Length(f.escaped, n), [f.wire]);
    FeedConcat(Ready(out), Length(f.escaped, n) + [f.wire], f.body);
    if f.body != [] {
      FeedField(q, f.body);
      assert q.got + f.body == f.body;
    }
    assert Settle(q.(got := f.body)) == Settle(Complete(q.(got := f.body)));
  }

  /** Every list of such frames is parsed to the list of its messages. */
  lemma {:induction false} FramesAreAccepted(fs: seq<Piece>)
    requires AllFit(fs)
    ensures FeedAll(START, Texts(fs)) == Ready(Contents(fs))
    decreases |fs|
  {
    if fs != [] {
      var n := |fs| - 1;
      FramesAreAccepted(fs[..n]);
      FeedText(Contents(fs[..n]), fs[n]);
      FeedConcat(START, Texts(fs[..n]), Text(fs[n]));
    }
  }

  lemma ZeroByteFails(out: seq<Message>)
    ensures FeedAll(Ready(out), [0]) == Parser(Failed, [], 0, 0, out)
  {
    var p := Ready(out);
    FeedField(p, [0]);
    assert p.got + [0] == [0];
    assert Settle(p.(got := [0])) == Settle(Complete(p.(got := [0])));
  }

  lemma EscapedZeroFails(out: seq<Message>)
    ensures FeedAll(Ready(out), [255] + ToBE(0, 8)) == Parser(Failed, [], 0, 0, out)
  {
    var p, q := Ready(out), Parser(EightByteSize, [], 0, 0, out);
    FeedField(p, [255]);
    assert Settle(p.(got := [255])) == q;
    FeedField(q, ToBE(0, 8));
    BERoundTrip(0, 8);
    assert q.got + ToBE(0, 8) == ToBE(0, 8);
    assert Settle(q.(got := ToBE(0, 8))) == Settle(Complete(q.(got := ToBE(0, 8))));
    FeedConcat(p, [255], ToBE(0, 8));
  }

  lemma ZeroLengthFails(out: seq<Message>, rest: seq<Byte>)
    requires ZeroLength(rest)
    ensures FeedAll(Ready(out), rest) == Parser(Failed, [], 0, 0, out)
  {
    var n := if rest[0] == 0 then 1 else 9;
    if n == 1 {
      ZeroByteFails(out);
      assert rest[..1] == [0];
    } else {
      EscapedZeroFails(out);
    }
    FeedConcat(Ready(out), rest[..n], rest[n..]);
    assert rest == rest[..n] + rest[n..];
    OutputGrows(Parser(Failed, [], 0, 0, out), rest[n..]);
  }

  /** The parser fails exactly on streams that have a length of zero after some frames. */
  lemma FailsExactlyAtZeroLength(s: seq<Byte>)
    ensures FeedAll(START, s).phase == Failed <==>
      exists fs: seq<Piece>, rest: seq<Byte> :: AllFit(fs) && s == Texts(fs) + rest && ZeroLength(rest)
  {
    var fs, rest := EveryStreamIsFrames(s);
    if gs: seq<Piece>, more: seq<Byte> :| AllFit(gs) && s == Texts(gs) + more && ZeroLength(more) {
      FramesAreAccepted(gs);
      FeedConcat(START, Texts(gs), more);
      ZeroLengthFails(Contents(gs), more);
    }
  }

  /** Bits 0 and 7 of the flags byte are taken over, and the other bits are set. */
  lemma FlagsTaken(wire: Byte)
    ensures var f := MessageFlags(wire); f % 2 == wire % 2 && f / 128 == wire / 128 && f % 128 / 2 == 63
  {
  }

  // ---- The frames that are sent

  /** A frame has the short form exactly when body and flags are less than 255 bytes; only the MORE bit goes out. */
  lemma HeaderForm(m: Message)
    requires Encodable(m)
    ensures var h, f := Header(m), Piece(|m.body| > 253, if HasMore(m.flags) then 1 else 0, m.body);
      && Fits(f) && Frame(m) == Text(f)
      && |h| == (if |m.body| > 253 then 10 else 2) && h[0] == (if |m.body| > 253 then 255 else |m.body| + 1)
      && (|m.body| > 253 ==> FromBE(h[1..9]) == |m.body| + 1)
  {
    BERoundTrip(|m.body| + 1, 8);
    if |m.body| > 253 { assert Header(m)[1..9] == ToBE(|m.body| + 1, 8); }
  }
}
