/**
 * When rolling back the swap is right: exactly then, whatever the contents, all that is stored and fetched
 * afterwards is as if what was dropped had never been stored.
 */
module SwapRollback {
  import opened Bytes
  import opened Swap

  /** A call of `copy_to_file` or `copy_from_file` that stays in one block. Longer calls are several of these. */
  datatype Op = Put(run: seq<Byte>) | Get(n: nat)

  function Gets(n: nat): seq<Op> { if n == 0 then [] else [Get(1)] + Gets(n - 1) }

  ghost function Out(s: Storage, n: nat): seq<Byte>
    requires s.CanRead(n)
  {
    s.readBuf[s.readPos - s.readBlock..s.readPos - s.readBlock + n]
  }

  /**
   * The storage is a queue with the bytes `pending` as far as these operations show: it gives them out in
   * order and loads no block that is not in the file. Operations that are not possible are passed over.
   */
  ghost predicate Follows(s: Storage, pending: seq<Byte>, ops: seq<Op>)
    decreases |ops|
  {
    if ops == [] then true
    else
      match ops[0]
      case Put(run) =>
        s.CanWrite(run) && |pending| + |run| < s.filesize ==> Follows(s.Write(run), pending + run, ops[1..])
      case Get(n) =>
        s.CanRead(n) && n <= |pending| ==>
          && (s.AtEnd(n) ==> s.CanEnter(s.Next(n)))
          && Out(s, n) == pending[..n]
          && Follows(s.Read(n), pending[n..], ops[1..])
  }

  /** Whatever is done with it, the storage is a queue that begins with the bytes `pending`. */
  ghost predicate Queue(s: Storage, pending: seq<Byte>) { forall ops :: Follows(s, pending, ops) }

  lemma {:induction false} CoherentFollows(s: Storage, pending: seq<Byte>, ops: seq<Op>)
    requires s.Coherent(pending)
    ensures Follows(s, pending, ops)
    decreases |ops|
  {
    if ops != [] {
      match ops[0]
      case Put(run) =>
        if s.CanWrite(run) && |pending| + |run| < s.filesize {
          WriteKeepsCoherent(s, pending, run);
          CoherentFollows(s.Write(run), pending + run, ops[1..]);
        }
      case Get(n) =>
        if s.CanRead(n) && n <= |pending| {
          ReadBufHolds(s, pending, n);
          ReadKeepsCoherent(s, pending, n);
          CoherentFollows(s.Read(n), pending[n..], ops[1..]);
        }
    }
  }

  /** What can be read shows what is stored. */
  lemma {:induction false} GetsShow(s: Storage, stored: seq<Byte>, expected: seq<Byte>, n: nat)
    requires s.Coherent(stored) && n <= |stored| == |expected| && Follows(s, expected, Gets(n))
    ensures forall i :: 0 <= i < n ==> stored[i] == expected[i]
    decreases n
  {
    if n > 0 {
      assert Gets(n)[1..] == Gets(n - 1);
      ReadBufHolds(s, stored, 1);
      ReadKeepsCoherent(s, stored, 1);
      GetsShow(s.Read(1), stored[1..], expected[1..], n - 1);
      forall i | 0 <= i < n ensures stored[i] == expected[i] {
        if i == 0 { assert stored[..1][0] == expected[..1][0]; } else { assert stored[1..][i - 1] == expected[1..][i - 1]; }
      }
    }
  }

  // ---- A place in a block that is neither the reader's nor the writer's

  /** Everything but the contents of pending bytes that `Coherent` asks for. */
  ghost predicate Sound(s: Storage) {
    && s.Shape() && s.Sharing()
    && forall i: nat :: i < s.Used() && !s.InReadBuf(s.Position(i)) && !(s.writeBlock <= s.Position(i) < s.writePos) ==>
      s.Position(i) < s.fileLen
  }

  ghost function Held(s: Storage, p: nat): Byte
    requires s.Shape() && p < s.filesize
  {
    if s.InReadBuf(p) then s.readBuf[p - s.readBlock]
    else if s.writeBlock <= p < s.writePos then s.WriteBuf()[p - s.writeBlock]
    else s.file[p]
  }

  /** A sound storage holds some bytes. */
  lemma SoundIsCoherent(s: Storage) returns (stored: seq<Byte>)
    requires Sound(s)
    ensures s.Coherent(stored)
    ensures forall i :: 0 <= i < |stored| ==> s.Position(i) < s.filesize && stored[i] == Held(s, s.Position(i))
  {
    stored := seq(s.Used(), i requires 0 <= i < s.Used() => Held(s, s.Position(i)));
  }

  /** The rest of the block from the position `c` on, which lies in a block that the writer went through. */
  function Rest(s: Storage, c: nat, b: nat): nat
    requires b <= c < s.filesize && c < b + s.blockSize
  {
    Min(s.filesize - c, b + s.blockSize - c)
  }

  /** The block was filled, and is in the file. */
  lemma RestIsSaved(s: Storage, pending: seq<Byte>, kept: nat, b: nat)
    requires s.Coherent(pending) && kept <= |pending| && Holds(b, s.Position(kept), s.blockSize)
    requires b != s.readBlock && b != s.writeBlock
    ensures var c := s.Position(kept);
      && !s.shared && kept + Rest(s, c, b) <= |pending| && c + Rest(s, c, b) <= s.fileLen
      && c != s.writePos && s.readPos != s.writePos
  {
    var c := s.Position(kept);
    var last := kept + Rest(s, c, b) - 1;
    OverlapIsSame(b, s.readBlock, s.blockSize);
    OverlapIsSame(b, s.writeBlock, s.blockSize);
    assert last < |pending|;
    assert s.Position(last) == c + Rest(s, c, b) - 1;
    assert s.Holding(s.Position(last), pending[last], s.writePos);
  }

  /** What is kept is not in the writer's block. */
  lemma KeptIsBehind(s: Storage, pending: seq<Byte>, kept: nat, b: nat, i: nat)
    requires s.Coherent(pending) && i < kept <= |pending| && Holds(b, s.Position(kept), s.blockSize)
    requires b != s.readBlock && b != s.writeBlock
    ensures s.InReadBuf(s.Position(i)) || s.Position(i) < s.fileLen
  {
    OverlapIsSame(b, s.readBlock, s.blockSize);
    OverlapIsSame(b, s.writeBlock, s.blockSize);
    assert s.Holding(s.Position(i), pending[i], s.writePos);
  }

  /** The reader's side of `u` is that of `s`, and its writer is at the start of the block after that of `c`. */
  ghost predicate Beyond(s: Storage, u: Storage, c: nat, b: nat)
    requires b <= c < s.filesize && c < b + s.blockSize
  {
    && u.Shape() && !u.shared && u.filesize == s.filesize && u.blockSize == s.blockSize && u.fileLen >= s.fileLen
    && u.readPos == s.readPos && u.readBlock == s.readBlock && u.readBuf == s.readBuf
    && u.writePos == u.writeBlock == u.start == (if c + Rest(s, c, b) == s.filesize then 0 else c + Rest(s, c, b))
  }

  /** Filling the block up after the rollback: it is saved at the wrong address, and at `c` the file keeps what was dropped. */
  lemma FilledUp(s: Storage, c: nat, b: nat, run: seq<Byte>)
    requires s.Shape() && !s.shared && Holds(b, c, s.blockSize) && 0 < c < s.filesize && c != s.writePos && s.readPos != s.writePos
    requires b != s.readBlock && b != s.writeBlock && |run| == Rest(s, c, b)
    ensures var t := s.RolledBack(c, b);
      t.CanWrite(run) && Beyond(s, t.Write(run), c, b) && t.Write(run).file[c] == s.file[c]
  {
    var t := s.RolledBack(c, b);
    assert t.Shape() && t.CanWrite(run) && t.Fills(|run|);
    var f := t.Fill(run);
    assert BlockStart(if c + |run| == s.filesize then 0 else c + |run|, s.blockSize);
    if 0 < b < s.blockSize { BlockStartNonnegative(b - s.blockSize, s.blockSize); }
    assert b == 0 ==> f.otherBuf[0] == s.file[c];
  }

  lemma BeyondIsSound(s: Storage, pending: seq<Byte>, kept: nat, b: nat, u: Storage)
    requires s.Coherent(pending) && kept <= |pending| && Holds(b, s.Position(kept), s.blockSize)
    requires b != s.readBlock && b != s.writeBlock && Beyond(s, u, s.Position(kept), b)
    ensures Sound(u) && u.Used() == kept + Rest(s, s.Position(kept), b)
  {
    var c := s.Position(kept);
    RestIsSaved(s, pending, kept, b);
    OverlapIsSame(b, s.readBlock, s.blockSize);
    OverlapIsSame(u.writeBlock, s.readBlock, s.blockSize);
    forall i: nat | i < u.Used() && !u.InReadBuf(u.Position(i)) ensures u.Position(i) < u.fileLen {
      assert u.Position(i) == s.Position(i);
      if i < kept { KeptIsBehind(s, pending, kept, b, i); }
    }
  }

  /** After all that is kept, the storage then has the byte that was dropped. */
  lemma FilledUpShowsOldByte(s: Storage, pending: seq<Byte>, kept: nat, b: nat, run: seq<Byte>) returns (u: Storage)
    requires s.Coherent(pending) && kept <= |pending| && Holds(b, s.Position(kept), s.blockSize)
    requires b != s.readBlock && b != s.writeBlock && s.Position(kept) != 0 && |run| == Rest(s, s.Position(kept), b)
    ensures var c := s.Position(kept);
      && s.RolledBack(c, b).CanWrite(run) && u == s.RolledBack(c, b).Write(run)
      && Sound(u) && u.Used() == kept + |run| < u.filesize == s.filesize
      && Held(u, u.Position(kept)) == s.file[c]
  {
    var c := s.Position(kept);
    RestIsSaved(s, pending, kept, b);
    FilledUp(s, c, b, run);
    u := s.RolledBack(c, b).Write(run);
    BeyondIsSound(s, pending, kept, b, u);
    FileHolds(s, u, kept, b);
  }

  lemma FileHolds(s: Storage, u: Storage, kept: nat, b: nat)
    requires s.Shape() && s.Position(kept) < s.filesize && Holds(b, s.Position(kept), s.blockSize) && b != s.readBlock
    requires Beyond(s, u, s.Position(kept), b)
    ensures u.Position(kept) == s.Position(kept) && Held(u, s.Position(kept)) == u.file[s.Position(kept)]
  {
    OverlapIsSame(b, s.readBlock, s.blockSize);
  }

  /** So a continuation shows it, whatever was stored. */
  lemma RollbackElsewhere(s: Storage, pending: seq<Byte>, kept: nat, b: nat) returns (ops: seq<Op>)
    requires s.Coherent(pending) && kept <= |pending| && Holds(b, s.Position(kept), s.blockSize)
    requires b != s.readBlock && b != s.writeBlock && s.Position(kept) != 0
    ensures !Follows(s.RolledBack(s.Position(kept), b), pending[..kept], ops)
  {
    var c := s.Position(kept);
    var other: Byte := if s.file[c] == 0 then 1 else 0;
    var run: seq<Byte> := seq(Rest(s, c, b), _ => other);
    var u := FilledUpShowsOldByte(s, pending, kept, b, run);
    DroppedByteShows(u, pending[..kept], run);
    ops := PutFirst(s.RolledBack(c, b), pending[..kept], run, Gets(kept + 1));
  }

  lemma PutFirst(t: Storage, kept: seq<Byte>, run: seq<Byte>, more: seq<Op>) returns (ops: seq<Op>)
    requires t.CanWrite(run) && |kept| + |run| < t.filesize && !Follows(t.Write(run), kept + run, more)
    ensures !Follows(t, kept, ops)
  {
    ops := [Put(run)] + more;
    assert ops[1..] == more;
  }

  lemma DroppedByteShows(u: Storage, kept: seq<Byte>, run: seq<Byte>)
    requires Sound(u) && u.Used() == |kept| + |run| && run != []
    requires Held(u, u.Position(|kept|)) != run[0]
    ensures !Follows(u, kept + run, Gets(|kept| + 1))
  {
    var n := |kept|;
    var stored := SoundIsCoherent(u);
    assert stored[n] != (kept + run)[n];
    if Follows(u, kept + run, Gets(n + 1)) {
      GetsShow(u, stored, kept + run, n + 1);
    }
  }

  // ---- A place in the reader's block that the reader has passed

  /** The one buffer in use and the file hold nothing but zeros, but perhaps for the first byte of the buffer while the reader is past it. */
  ghost predicate Blank(s: Storage) {
    && s.Shape() && s.shared
    && (forall k :: 0 <= k < s.filesize ==> s.file[k] == 0)
    && (forall k :: 0 < k < s.blockSize ==> s.readBuf[k] == 0)
    && (s.readBuf[0] == 0 || (s.readBlock < s.readPos && s.readBlock == s.writeBlock && s.blockSize < s.filesize))
  }

  lemma ReadKeepsBlank(s: Storage)
    requires Blank(s)
    ensures s.CanRead(1) && Out(s, 1) == [0] && Blank(s.Read(1))
  {
    if s.AtEnd(1) { NextBlockBlank(s); }
  }

  lemma NextBlockBlank(s: Storage)
    requires Blank(s) && s.CanRead(1) && s.AtEnd(1)
    ensures Blank(s.Read(1))
  {
    var next := s.Next(1);
    assert BlockStart(next, s.blockSize);
    assert s.readBuf[0] != 0 ==> next != s.writeBlock;
    if next != s.writeBlock {
      assert s.Read(1).readBuf == Splice(s.readBuf, 0, s.file[next..next + Min(s.blockSize, s.filesize - next)]);
    }
  }

  /** Then only zeros are read. */
  lemma {:induction false} BlankShowsZeros(s: Storage, expected: seq<Byte>, n: nat)
    requires Blank(s) && n <= |expected| && Follows(s, expected, Gets(n))
    ensures forall i :: 0 <= i < n ==> expected[i] == 0
    decreases n
  {
    if n > 0 {
      assert Gets(n)[1..] == Gets(n - 1);
      ReadKeepsBlank(s);
      BlankShowsZeros(s.Read(1), expected[1..], n - 1);
      forall i | 0 <= i < n ensures expected[i] == 0 {
        if i == 0 { assert expected[..1][0] == 0; } else { assert expected[1..][i - 1] == 0; }
      }
    }
  }

  /** The same positions and buffers; only the contents may differ. */
  ghost predicate SameLayout(s: Storage, t: Storage) { t == s.(readBuf := t.readBuf, otherBuf := t.otherBuf, file := t.file) }

  /** Zeros everywhere, but for a one at the start of the writer's block. */
  ghost function WithOne(s: Storage, one: bool): Storage
    requires s.blockSize > 0
  {
    s.(readBuf := Zeros(s.blockSize), file := Zeros(s.filesize),
       otherBuf := if one then Zeros(s.blockSize)[0 := 1] else Zeros(s.blockSize))
  }

  /** When the reader is past `c` in its block, so is the writer, in the other buffer. */
  lemma WriterIsBetween(s: Storage, pending: seq<Byte>, kept: nat, b: nat)
    requires s.Coherent(pending) && kept <= |pending| && Holds(b, s.Position(kept), s.blockSize)
    requires b == s.readBlock && s.Position(kept) < s.readPos && s.Position(kept) != s.writePos
    ensures s.Position(kept) < s.writePos < s.readPos && s.writeBlock == b
    ensures kept == s.filesize - s.readPos + s.Position(kept)
  {
    OverlapIsSame(b, s.writeBlock, s.blockSize);
  }

  lemma WithOneIsCoherent(s: Storage, pending: seq<Byte>, one: bool) returns (stored: seq<Byte>)
    requires s.Coherent(pending) && !s.shared && s.writePos < s.readPos && s.readBlock == s.writeBlock < s.writePos
    ensures WithOne(s, one).Coherent(stored) && |stored| == |pending|
    ensures forall i :: 0 <= i < |stored| ==> stored[i] == if one && s.Position(i) == s.writeBlock then 1 else 0
  {
    var t := WithOne(s, one);
    stored := seq(|pending|, i requires 0 <= i < |pending| => if one && s.Position(i) == s.writeBlock then 1 else 0);
    forall i | 0 <= i < |stored| ensures t.Holding(t.Position(i), stored[i], t.writePos) {
      assert s.Holding(s.Position(i), pending[i], s.writePos);
      assert t.Position(i) == s.Position(i);
    }
  }

  /** The bytes kept in that block are lost, or the next ones stored there; with suitable contents a continuation shows it. */
  lemma RollbackBehind(s: Storage, pending: seq<Byte>, kept: nat, b: nat) returns (t: Storage, stored: seq<Byte>, ops: seq<Op>)
    requires s.Coherent(pending) && kept <= |pending| && Holds(b, s.Position(kept), s.blockSize)
    requires b == s.readBlock && !s.MayRollBack(s.Position(kept), b)
    ensures SameLayout(s, t) && t.Coherent(stored) && |stored| == |pending|
    ensures !Follows(t.RolledBack(s.Position(kept), b), stored[..kept], ops)
  {
    var c := s.Position(kept);
    WriterIsBetween(s, pending, kept, b);
    t := WithOne(s, b < c);
    stored := WithOneIsCoherent(s, pending, b < c);
    var u := t.RolledBack(c, b);
    if b < c {
      ops := Gets(kept);
      var i := s.filesize - s.readPos + b;
      assert s.Position(i) == b && stored[..kept][i] == 1;
      if Follows(u, stored[..kept], ops) { BlankShowsZeros(u, stored[..kept], kept); }
    } else {
      if b > 0 { BlockStartNonnegative(b - s.blockSize, s.blockSize); }
      OneMoreIsLost(u, stored[..kept]);
      ops := PutFirst(u, stored[..kept], [1], Gets(kept + 1));
    }
  }

  /** A byte stored at the start of the block, which the reader has not left yet, is overwritten by the next block loaded. */
  lemma OneMoreIsLost(u: Storage, kept: seq<Byte>)
    requires Blank(u) && u.readBuf[0] == 0 && u.readBlock == u.writeBlock == u.writePos < u.readPos && u.blockSize < u.filesize
    requires u.writePos + 1 < u.readPos
    ensures u.CanWrite([1]) && !Follows(u.Write([1]), kept + [1], Gets(|kept| + 1))
  {
    var n, expected := |kept|, kept + [1];
    assert expected[n] == 1;
    assert Blank(u.Write([1]));
    if Follows(u.Write([1]), expected, Gets(n + 1)) { BlankShowsZeros(u.Write([1]), expected, n + 1); }
  }

  // ---- The exact condition

  /** The rollback is right for every contents with this layout. */
  ghost predicate RollsBack(s: Storage, kept: nat, c: nat, b: nat)
    requires s.Shape() && Holds(b, c, s.blockSize) && c < s.filesize
  {
    forall t: Storage, stored: seq<Byte> :: SameLayout(s, t) && t.Coherent(stored) && kept <= |stored| ==>
      Queue(t.RolledBack(c, b), stored[..kept])
  }

  /**
   * The bytes up to the place rolled back to are given out, followed by what is stored later, in every
   * continuation and whatever the bytes are, if and only if `MayRollBack` says so.
   */
  lemma RollsBackExactlyWhen(s: Storage, pending: seq<Byte>, kept: nat, b: nat)
    requires s.Coherent(pending) && kept <= |pending| && Holds(b, s.Position(kept), s.blockSize)
    ensures RollsBack(s, kept, s.Position(kept), b) <==> s.MayRollBack(s.Position(kept), b)
  {
    var c := s.Position(kept);
    if s.MayRollBack(c, b) {
      forall t: Storage, stored: seq<Byte> | SameLayout(s, t) && t.Coherent(stored) && kept <= |stored|
        ensures Queue(t.RolledBack(c, b), stored[..kept])
      {
        RollbackIsQueue(t, stored, kept, b);
      }
    } else if b == s.readBlock {
      var t, stored, ops := RollbackBehind(s, pending, kept, b);
      OneIsEnough(s, t, stored, kept, c, b, ops);
    } else {
      var ops := RollbackElsewhere(s, pending, kept, b);
      OneIsEnough(s, s, pending, kept, c, b, ops);
    }
  }

  lemma OneIsEnough(s: Storage, t: Storage, stored: seq<Byte>, kept: nat, c: nat, b: nat, ops: seq<Op>)
    requires s.Shape() && Holds(b, c, s.blockSize) && c < s.filesize
    requires SameLayout(s, t) && t.Coherent(stored) && kept <= |stored| && !Follows(t.RolledBack(c, b), stored[..kept], ops)
    ensures !RollsBack(s, kept, c, b)
  {
    assert !Queue(t.RolledBack(c, b), stored[..kept]);
  }

  lemma RollbackIsQueue(s: Storage, pending: seq<Byte>, kept: nat, b: nat)
    requires s.Coherent(pending) && kept <= |pending| && Holds(b, s.Position(kept), s.blockSize)
    requires s.MayRollBack(s.Position(kept), b)
    ensures Queue(s.RolledBack(s.Position(kept), b), pending[..kept])
  {
    RollbackKeepsCoherent(s, pending, kept, b);
    forall ops ensures Follows(s.RolledBack(s.Position(kept), b), pending[..kept], ops) {
      CoherentFollows(s.RolledBack(s.Position(kept), b), pending[..kept], ops);
    }
  }

  // ---- It goes wrong

  ghost function After(s: Storage, ops: seq<Op>): Storage
    decreases |ops|
  {
    if ops == [] then s
    else
      match ops[0]
      case Put(run) => After(if s.CanWrite(run) then s.Write(run) else s, ops[1..])
      case Get(n) => After(if s.CanRead(n) then s.Read(n) else s, ops[1..])
  }

  lemma AfterPut(s: Storage, run: seq<Byte>, more: seq<Op>)
    requires s.CanWrite(run)
    ensures After(s, [Put(run)] + more) == After(s.Write(run), more)
  {
    assert ([Put(run)] + more)[1..] == more;
  }

  /** What `store` copies to the swap: size, flags and body. */
  function Copies(m: Message): seq<Op> {
    [Put(ToLE(|m.body|, SIZEOF_SIZE_T)), Put([DropShared(m.flags)])] + if m.body == [] then [] else [Put(m.body)]
  }

  const ONE: seq<Byte> := [1, 0, 0, 0, 0, 0, 0, 0]

  const NONE: seq<Byte> := [0, 0, 0, 0, 0, 0, 0, 0]

  lemma Sizes()
    ensures ToLE(1, SIZEOF_SIZE_T) == ONE && ToLE(0, SIZEOF_SIZE_T) == NONE
  {
    assert ToLE(0, 4) == [0, 0, 0, 0];
    assert ToLE(0, 7) == [0, 0, 0] + ToLE(0, 4);
  }

  /** Blocks of nine bytes, the first of which holds size and flags of a message with one byte. */
  ghost predicate FirstBlockIs(s: Storage, flags: Byte) {
    && s.Shape() && !s.shared && s.filesize == 32 && s.blockSize == 9
    && s.readPos == s.readBlock == 0 && s.readBuf == ONE + [flags] && s.file[1] == 0
  }

  lemma HeaderStored(flags: Byte)
    ensures New(32, 9).CanWrite(ONE) && New(32, 9).Write(ONE).CanWrite([flags])
    ensures var s := New(32, 9).Write(ONE).Write([flags]);
      FirstBlockIs(s, flags) && s.Coherent(ONE + [flags]) && s.writePos == s.writeBlock == 9
  {
    SizeStored();
    FlagsStored(New(32, 9).Write(ONE), flags);
  }

  /** The storage with the size of the first message. */
  ghost predicate SizeIs(s: Storage) {
    && s.Shape() && s.shared && s.filesize == 32 && s.blockSize == 9
    && s.readPos == s.readBlock == s.writeBlock == s.start == 0 && s.writePos == 8
    && s.readBuf == ONE + [0] && s.file[1] == 0
  }

  lemma SizeStored()
    ensures New(32, 9).CanWrite(ONE)
    ensures var s := New(32, 9).Write(ONE); SizeIs(s) && s.Coherent(ONE)
  {
    var empty := New(32, 9);
    assert empty.Coherent([]);
    WriteKeepsCoherent(empty, [], ONE);
    assert [] + ONE == ONE;
    assert Splice(empty.readBuf, 0, ONE) == ONE + [0];
  }

  lemma FlagsStored(s: Storage, flags: Byte)
    requires SizeIs(s) && s.Coherent(ONE)
    ensures s.CanWrite([flags])
    ensures var t := s.Write([flags]); FirstBlockIs(t, flags) && t.Coherent(ONE + [flags]) && t.writePos == t.writeBlock == 9
  {
    assert BlockStart(9, 9);
    WriteKeepsCoherent(s, ONE, [flags]);
    assert Splice(s.readBuf, 8, [flags]) == ONE + [flags];
  }

  lemma RestStored(s: Storage, flags: Byte, x: Byte, more: Byte)
    requires FirstBlockIs(s, flags) && s.Coherent(ONE + [flags]) && s.writePos == s.writeBlock == 9
    ensures s.CanWrite([x]) && s.Write([x]).CanWrite(NONE) && s.Write([x]).Write(NONE).CanWrite([more])
    ensures var t := s.Write([x]).Write(NONE).Write([more]);
      FirstBlockIs(t, flags) && t.Coherent(ONE + [flags] + [x] + NONE + [more]) && t.writePos == 19 && t.writeBlock == 18
  {
    var one := s.Write([x]);
    WriteKeepsCoherent(s, ONE + [flags], [x]);
    assert one.writePos == 10 && one.writeBlock == 9;
    assert BlockStart(18, 9);
    WriteKeepsCoherent(one, ONE + [flags] + [x], NONE);
    var two := one.Write(NONE);
    assert two.writePos == two.writeBlock == 18 && two.file[1] == s.file[1];
    WriteKeepsCoherent(two, ONE + [flags] + [x] + NONE, [more]);
  }

  /** The rollback loads the wrong bytes into the writer's buffer, and the reader gets them. */
  lemma RolledBackReads(s: Storage, flags: Byte, x: Byte)
    requires FirstBlockIs(s, flags) && s.writePos == 19 && s.writeBlock == 18 && x != 0
    ensures Holds(9, 10, 9) && !Follows(s.RolledBack(10, 9), ONE + [flags] + [x], [Get(8), Get(1), Get(1)])
  {
    assert BlockStart(9, 9);
    var t := s.RolledBack(10, 9);
    assert t.otherBuf[0] == 0;
    var u := t.Read(8);
    assert u.readPos == 8 && u.readBuf == t.readBuf;
    var v := u.Read(1);
    assert v.readPos == v.readBlock == 9 && v.readBuf == t.otherBuf && Out(v, 1) == [0];
    assert [Get(8), Get(1), Get(1)][1..] == [Get(1), Get(1)] && [Get(1), Get(1)][1..] == [Get(1)];
    assert (ONE + [flags] + [x])[8..] == [flags, x] && [flags, x][1..] == [x];
    assert !Follows(v, [x], [Get(1)]);
  }

  lemma AfterCopies(f: Byte, x: Byte, g: Byte)
    requires New(32, 9).CanWrite(ONE) && New(32, 9).Write(ONE).CanWrite([f])
    requires var s := New(32, 9).Write(ONE).Write([f]); s.CanWrite([x]) && s.Write([x]).CanWrite(NONE) && s.Write([x]).Write(NONE).CanWrite([g])
    ensures After(New(32, 9), [Put(ONE)] + ([Put([f])] + ([Put([x])] + ([Put(NONE)] + ([Put([g])] + []))))) ==
      New(32, 9).Write(ONE).Write([f]).Write([x]).Write(NONE).Write([g])
  {
    var s := New(32, 9).Write(ONE).Write([f]);
    AfterPut(New(32, 9), ONE, [Put([f])] + ([Put([x])] + ([Put(NONE)] + ([Put([g])] + []))));
    AfterPut(New(32, 9).Write(ONE), [f], [Put([x])] + ([Put(NONE)] + ([Put([g])] + [])));
    AfterPut(s, [x], [Put(NONE)] + ([Put([g])] + []));
    AfterPut(s.Write([x]), NONE, [Put([g])] + []);
    AfterPut(s.Write([x]).Write(NONE), [g], []);
  }

  lemma CopiesOfBoth(first: Message, second: Message, f: Byte, x: Byte, g: Byte)
    requires first.body == [x] && second.body == [] && f == DropShared(first.flags) && g == DropShared(second.flags)
    requires ToLE(1, SIZEOF_SIZE_T) == ONE && ToLE(0, SIZEOF_SIZE_T) == NONE
    ensures Copies(first) + Copies(second) == [Put(ONE)] + ([Put([f])] + ([Put([x])] + ([Put(NONE)] + ([Put([g])] + []))))
    ensures Record(first) == ONE + [f] + [x] && Record(first) + Record(second) == ONE + [f] + [x] + NONE + [g]
  {
  }

  /**
   * With blocks of nine bytes: a message with one byte is stored and committed, an empty one is stored and
   * rolled back, and the fetch of the first one goes wrong: its byte comes out as zero.
   */
  lemma FetchAfterRollbackIsWrong(first: Message, second: Message)
    requires |first.body| == 1 && first.body[0] != 0 && second.body == []
    ensures var s := After(New(32, 9), Copies(first) + Copies(second));
      && s.Coherent(Record(first) + Record(second))
      && s.filesize == 32 && s.blockSize == 9 && s.Position(|Record(first)|) == |Record(first)| == 10 && Holds(9, 10, 9)
      && !Follows(s.RolledBack(10, 9), Record(first), [Get(8), Get(1), Get(1)])
  {
    var f, g, x := DropShared(first.flags), DropShared(second.flags), first.body[0];
    Sizes();
    HeaderStored(f);
    var s := New(32, 9).Write(ONE).Write([f]);
    RestStored(s, f, x, g);
    AfterCopies(f, x, g);
    CopiesOfBoth(first, second, f, x, g);
    RolledBackReads(s.Write([x]).Write(NONE).Write([g]), f, x);
  }
}
