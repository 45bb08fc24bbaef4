/** The message swap: a circular file fronted by two block buffers, which refines a FIFO of messages. */
module Swap {
  import opened Bytes
  import opened Wrappers

  const SIZEOF_SIZE_T := 8

  /** The bytes one message occupies in the swap: native length, flag byte without SHARED, body. */
  function Record(m: Message): seq<Byte> {
    ToLE(|m.body|, SIZEOF_SIZE_T) + [DropShared(m.flags)] + m.body
  }

  function Records(ms: seq<Message>): seq<Byte> {
    if ms == [] then [] else Record(ms[0]) + Records(ms[1..])
  }

  /** The header of a record is nine bytes. */
  lemma RecordLength(m: Message)
    ensures |Record(m)| == 9 + |m.body| && Record(m)[9..] == m.body && Record(m)[8] == m.flags % 128
  {
  }

  lemma RecordParts(m: Message, rest: seq<Byte>)
    ensures Record(m) + rest == ToLE(|m.body|, SIZEOF_SIZE_T) + ([DropShared(m.flags)] + (m.body + rest))
  {
  }

  lemma {:induction false} RecordsAppend(ms: seq<Message>, m: Message)
    ensures Records(ms + [m]) == Records(ms) + Record(m)
  {
    if ms == [] {
      assert ms + [m] == [m];
      assert Records([m]) == Record(m) + Records([]);
    } else {
      RecordsAppend(ms[1..], m);
      assert (ms + [m])[1..] == ms[1..] + [m];
      Associative(Record(ms[0]), Records(ms[1..]), Record(m));
    }
  }

  lemma {:induction false} RecordsOfPrefix(ms: seq<Message>, n: nat)
    requires n <= |ms|
    ensures Records(ms[..n]) <= Records(ms)
  {
    if n < |ms| {
      var last := |ms| - 1;
      RecordsOfPrefix(ms[..last], n);
      RecordsAppend(ms[..last], ms[last]);
      assert ms[..last] + [ms[last]] == ms && ms[..last][..n] == ms[..n];
    } else {
      assert ms[..n] == ms;
    }
  }

  /** Cutting equal sequences at the same place gives equal parts. */
  lemma SplitAt(a: seq<Byte>, b: seq<Byte>, c: seq<Byte>, d: seq<Byte>)
    requires a + b == c + d && |a| == |c|
    ensures a == c && b == d
  {
    assert a == (a + b)[..|a|] && b == (a + b)[|a|..];
    assert c == (c + d)[..|a|] && d == (c + d)[|a|..];
  }

  lemma AppendNext(before: seq<Byte>, source: seq<Byte>, done: nat, n: nat)
    requires done + n <= |source|
    ensures before + source[..done] + source[done..done + n] == before + source[..done + n]
  {
  }

  /** The multiples of the block size, where blocks start. */
  ghost predicate BlockStart(b: int, size: nat)
    requires size > 0
    decreases if b < 0 then 0 else b
  {
    b == 0 || (b > 0 && BlockStart(b - size, size))
  }

  /** `b` starts the block that holds position `p`. */
  ghost predicate Holds(b: nat, p: nat, size: nat)
    requires size > 0
  {
    BlockStart(b, size) && b <= p < b + size
  }

  /** Blocks coincide or do not overlap. */
  lemma {:induction false} BlocksApart(b: nat, c: nat, size: nat)
    requires size > 0 && BlockStart(b, size) && BlockStart(c, size) && b < c
    ensures b + size <= c
    decreases b
  {
    if b > 0 {
      BlocksApart(b - size, c - size, size);
    } else {
      BlockStartNonnegative(c - size, size);
    }
  }

  lemma OverlapIsSame(b: nat, c: nat, size: nat)
    requires size > 0 && BlockStart(b, size) && BlockStart(c, size)
    ensures b == c || b + size <= c || c + size <= b
  {
    if b < c { BlocksApart(b, c, size); }
    if c < b { BlocksApart(c, b, size); }
  }

  lemma BlockStartNonnegative(b: int, size: nat)
    requires size > 0 && BlockStart(b, size)
    ensures b >= 0
  {
  }

  /** The offset of a position in its block is its remainder by the block size. */
  lemma {:induction false} OffsetIsRemainder(b: nat, p: nat, size: nat)
    requires size > 0 && Holds(b, p, size)
    ensures p % size == p - b
    decreases b
  {
    if b > 0 {
      BlockStartNonnegative(b - size, size);
      OffsetIsRemainder(b - size, p - size, size);
      RemainderShift(p - size, size);
    }
  }

  lemma RemainderShift(p: nat, size: nat)
    requires size > 0
    ensures (p + size) % size == p % size && (p + size) / size == p / size + 1
  {
    var q, r := p / size, p % size;
    assert p == q * size + r;
    assert p + size == (q + 1) * size + r;
    DivModUnique(p + size, q + 1, r, size);
  }

  lemma MultiplesApart(q: nat, r: nat, size: nat)
    ensures q < r ==> q * size + size <= r * size
  {
    if q < r {
      var d: nat := r - q - 1;
      assert r == q + 1 + d;
      assert r * size == q * size + size + d * size;
    }
  }

  lemma DivModUnique(p: nat, q: nat, r: nat, size: nat)
    requires r < size && p == q * size + r
    ensures p / size == q && p % size == r
  {
    var q', r' := p / size, p % size;
    assert p == q' * size + r';
    MultiplesApart(q, q', size);
    MultiplesApart(q', q, size);
  }

  lemma {:induction false} BlockNumber(b: nat, p: nat, size: nat)
    requires size > 0 && Holds(b, p, size)
    ensures p / size == b / size && b == b / size * size
    decreases b
  {
    OffsetIsRemainder(b, p, size);
    OffsetIsRemainder(b, b, size);
    var q := b / size;
    assert b == q * size + b % size;
    DivModUnique(p, q, p - b, size);
  }

  /** `pos % size`, as the distance from the start of the block. */
  method Offset(pos: nat, size: nat, ghost b: nat) returns (offset: nat)
    requires size > 0 && Holds(b, pos, size)
    ensures offset == pos - b
  {
    OffsetIsRemainder(b, pos, size);
    offset := pos % size;
  }

  /** `p / size == q / size` compares the blocks of two positions. */
  method SameBlock(p: nat, q: nat, size: nat, ghost b: nat, ghost c: nat) returns (same: bool)
    requires size > 0 && Holds(b, p, size) && Holds(c, q, size)
    ensures same <==> b == c
  {
    BlockNumber(b, p, size);
    BlockNumber(c, q, size);
    same := p / size == q / size;
  }

  /** Moves a position on, back to the start when it reaches the end of the file. */
  method Advance(pos: nat, n: nat, filesize: nat) returns (next: nat)
    requires pos < filesize && n <= filesize - pos
    ensures next == if pos + n == filesize then 0 else pos + n
  {
    next := (pos + n) % filesize;
  }

  function Min(a: nat, b: nat): nat { if a <= b then a else b }

  /** `s` with `run` copied over it from `at` on. */
  function Splice(s: seq<Byte>, at: nat, run: seq<Byte>): (r: seq<Byte>)
    requires at + |run| <= |s|
    ensures |r| == |s|
    ensures forall k :: 0 <= k < |s| ==> r[k] == if at <= k < at + |run| then run[k - at] else s[k]
  {
    s[..at] + run + s[at + |run|..]
  }

  method CopyInto(buf: array<Byte>, at: nat, run: seq<Byte>)
    requires at + |run| <= buf.Length
    modifies buf
    ensures buf[..] == Splice(old(buf[..]), at, run)
  {
    forall k | at <= k < at + |run| { buf[k] := run[k - at]; }
  }

  /** Writes the first `total` bytes of `buf` to the file, in as many short writes as the system chooses. */
  method WriteOut(buf: array<Byte>, total: nat, file: array<Byte>, at: nat)
    requires buf != file && total <= buf.Length && at + total <= file.Length
    modifies file
    ensures file[..] == Splice(old(file[..]), at, buf[..total])
  {
    var stored := 0;
    while stored < total
      invariant 0 <= stored <= total
      invariant forall k :: at <= k < at + stored ==> file[k] == buf[k - at]
      invariant forall k :: 0 <= k < file.Length && !(at <= k < at + stored) ==> file[k] == old(file[k])
    {
      var rc :| 0 < rc <= total - stored;
      forall k | at + stored <= k < at + stored + rc { file[k] := buf[k - at]; }
      stored := stored + rc;
    }
  }

  /**
   * A snapshot of the swap: the two positions, the blocks they are in, the start address for saving the
   * write buffer, the contents of the buffer that is read from, of the other buffer and of the file, and
   * whether the buffer that is read from is also the one written to. Bytes of the file from `fileLen` on
   * were never written.
   */
  datatype Storage = Storage(
    filesize: nat, blockSize: nat, fileLen: nat,
    readPos: nat, readBlock: nat, writePos: nat, writeBlock: nat, start: nat,
    readBuf: seq<Byte>, otherBuf: seq<Byte>, file: seq<Byte>, shared: bool)
  {
    ghost predicate Shape() {
      var shape :=
        && 0 < filesize && 0 < blockSize && fileLen <= filesize == |file|
        && |readBuf| == |otherBuf| == blockSize
        && readPos < filesize && writePos < filesize && start < filesize
        && Holds(readBlock, readPos, blockSize) && Holds(writeBlock, writePos, blockSize);
      shape
    }

    function WriteBuf(): seq<Byte> { if shared then readBuf else otherBuf }

    function WithWriteBuf(buf: seq<Byte>): Storage { if shared then this.(readBuf := buf) else this.(otherBuf := buf) }

    /** The position of the i-th pending byte, round the end of the file. */
    function Position(i: nat): nat {
      if readPos + i < filesize then readPos + i else readPos + i - filesize
    }

    predicate InReadBuf(p: nat) { readPos <= p < readBlock + blockSize }

    /** Byte `x` at position `p` is in the read buffer, in the write buffer filled up to `end`, or safe in the file. */
    ghost predicate Holding(p: nat, x: Byte, end: nat)
      requires Shape() && p < filesize && writeBlock <= end <= writeBlock + blockSize
    {
      if InReadBuf(p) then readBuf[p - readBlock] == x
      else if writeBlock <= p < end then WriteBuf()[p - writeBlock] == x
      else p < fileLen && file[p] == x
    }

    function Used(): int {
      if readPos <= writePos then writePos - readPos else writePos - readPos + filesize
    }

    /**
     * The buffers are one when the writer is ahead in the reader's block, and only then, unless the file
     * is no longer than a block. An address to save the write buffer at that is not the start of the
     * writer's block is harmless while they are one.
     */
    ghost predicate Sharing() {
      && (readBlock == writeBlock && readPos <= writePos ==> shared)
      && (shared ==> readBlock == writeBlock && (readPos <= writePos || filesize <= blockSize))
      && (start == writeBlock || shared)
    }

    /** The storage holds the pending bytes. */
    ghost predicate Coherent(pending: seq<Byte>) {
      var coherent :=
        && Shape() && Sharing()
        && |pending| == Used()
        && forall i :: 0 <= i < |pending| ==> Holding(Position(i), pending[i], writePos);
      coherent
    }

    ghost predicate CanRead(n: nat) {
      Shape() && 0 < n <= filesize - readPos && n <= readBlock + blockSize - readPos
    }

    /** Reading `n` bytes ends at the end of the block or of the file. */
    predicate AtEnd(n: nat) { readPos + n == filesize || readPos + n == readBlock + blockSize }

    function Next(n: nat): nat { if readPos + n == filesize then 0 else readPos + n }

    /** The block at `next` is where the writer is, or is complete in the file. */
    ghost predicate CanEnter(next: nat) {
      && next < filesize && 0 < blockSize && BlockStart(next, blockSize)
      && (next != writeBlock ==> next + Min(blockSize, filesize - next) <= fileLen)
    }

    /** One turn of the read loop. */
    ghost function Read(n: nat): Storage
      requires CanRead(n)
    {
      var next := Next(n);
      if AtEnd(n) then this.(readPos := next, readBlock := next).Entered() else this.(readPos := next)
    }

    /** The reader comes to the start of a block: it joins the writer's buffer or loads the block. */
    ghost function Entered(): Storage
      requires readPos < filesize == |file| && |readBuf| == blockSize
    {
      if readPos != writeBlock then
        this.(readBuf := Splice(readBuf, 0, file[readPos..readPos + Min(blockSize, filesize - readPos)]))
      else if shared then this
      else this.(readBuf := otherBuf, otherBuf := readBuf, shared := true)
    }

    ghost predicate CanWrite(run: seq<Byte>) {
      Shape() && 0 < |run| <= filesize - writePos && |run| <= writeBlock + blockSize - writePos
    }

    /** Copying a run to the write position. */
    ghost function Fill(run: seq<Byte>): Storage
      requires CanWrite(run)
    {
      WithWriteBuf(Splice(WriteBuf(), writePos - writeBlock, run))
    }

    /** One turn of the write loop: at the end of a block, save it and go on in a buffer the reader does not use. */
    ghost function Write(run: seq<Byte>): Storage
      requires CanWrite(run)
    {
      Fill(run).Moved(|run|)
    }

    predicate Fills(n: nat) { writePos + n == filesize || writePos + n == writeBlock + blockSize }

    ghost function Moved(n: nat): Storage
      requires Shape() && n <= filesize - writePos && n <= writeBlock + blockSize - writePos
    {
      var next := if writePos + n == filesize then 0 else writePos + n;
      if Fills(n) then this.(writePos := next, writeBlock := next).Left() else this.(writePos := next)
    }

    /** The write position has left the block in the write buffer. */
    ghost function Left(): Storage
      requires start < filesize == |file| && |readBuf| == |otherBuf| == blockSize
    {
      var len := Min(blockSize, filesize - start);
      this.(start := writePos, shared := false,
            file := Splice(file, start, WriteBuf()[..len]),
            fileLen := if fileLen < start + len then start + len else fileLen)
    }

    /** `rollback` to position `c`, in the block at `b`: the offset of `c` becomes the address to save the write buffer at. */
    ghost function RolledBack(c: nat, b: nat): Storage
      requires Shape() && b <= c < filesize && c < b + blockSize
    {
      var offset := c - b;
      if c == writePos || readPos == writePos then this
      else if b == readBlock then this.(writePos := c, writeBlock := b, start := offset, shared := true)
      else if b != writeBlock then
        this.(writePos := c, writeBlock := b, start := offset)
          .WithWriteBuf(Splice(WriteBuf(), 0, file[offset..offset + Min(blockSize, filesize - offset)]))
      else this.(writePos := c)
    }

    /** The rollback loads a block, which is in the file. */
    predicate CanReload(c: nat, b: nat)
      requires b <= c < filesize
    {
      b != readBlock && b != writeBlock && c != writePos ==> c - b + Min(blockSize, filesize - (c - b)) <= fileLen
    }

    /**
     * There is nothing to roll back. Or it goes to a place outside the reader's block that is in the
     * writer's, or at the very start of the file. Or it goes to a place in the reader's block that the
     * reader has not passed, or where all bytes are in one buffer anyway.
     */
    predicate MayRollBack(c: nat, b: nat) {
      || c == writePos
      || (b != readBlock && (b == writeBlock || c == 0))
      || (b == readBlock && (readPos <= c || shared || (c == 0 && filesize <= blockSize)))
    }
  }

  // ---- Writing and reading keep the storage coherent

  /** Past the next `n` bytes, only what is ahead in the block is still in the read buffer. */
  lemma ReadAhead(s: Storage, pending: seq<Byte>, n: nat, i: nat)
    requires s.Coherent(pending) && s.CanRead(n) && n + i < |pending|
    ensures s.Holding(s.Position(n + i), pending[n + i], s.writePos)
    ensures s.InReadBuf(s.Position(n + i)) ==>
      s.readPos + n <= s.Position(n + i) && !s.AtEnd(n)
  {
  }

  lemma {:induction false} ReadInside(s: Storage, pending: seq<Byte>, n: nat)
    requires s.Coherent(pending) && s.CanRead(n) && n <= |pending|
    requires !s.AtEnd(n)
    ensures s.Read(n).Coherent(pending[n..])
  {
    var t := s.Read(n);
    forall i | 0 <= i < |pending| - n ensures t.Holding(t.Position(i), pending[n..][i], t.writePos) {
      ReadAhead(s, pending, n, i);
      assert t.Position(i) == s.Position(n + i);
    }
  }

  /** A block the reader enters and the writer is not in is complete in the file, and the buffers are not shared then. */
  lemma NextBlockSaved(s: Storage, pending: seq<Byte>, n: nat)
    requires s.Coherent(pending) && s.CanRead(n) && n <= |pending| && s.AtEnd(n)
    ensures s.CanEnter(s.Next(n)) && (s.Next(n) != s.writeBlock ==> !s.shared)
  {
    var next := s.Next(n);
    if next != s.writeBlock {
      OverlapIsSame(next, s.writeBlock, s.blockSize);
      var last := Min(s.blockSize, s.filesize - next) - 1;
      assert n + last < |pending| && s.Position(n + last) == next + last;
      ReadAhead(s, pending, n, last);
    }
  }

  /** At the end of a block nothing pending is left in the read buffer, so the rest is in the write buffer or the file. */
  lemma ReadToEndAt(s: Storage, pending: seq<Byte>, n: nat, i: nat)
    requires s.Coherent(pending) && s.CanRead(n) && n + i < |pending| && s.AtEnd(n)
    ensures s.Read(n).Shape()
    ensures s.Read(n).Holding(s.Position(n + i), pending[n + i], s.writePos)
  {
    NextBlockSaved(s, pending, n);
    OverlapIsSame(s.Next(n), s.writeBlock, s.blockSize);
    ReadAhead(s, pending, n, i);
  }

  lemma {:induction false} ReadToEnd(s: Storage, pending: seq<Byte>, n: nat)
    requires s.Coherent(pending) && s.CanRead(n) && n <= |pending| && s.AtEnd(n)
    ensures s.Read(n).Coherent(pending[n..])
  {
    var t := s.Read(n);
    NextBlockSaved(s, pending, n);
    forall i | 0 <= i < |pending| - n ensures t.Holding(t.Position(i), pending[n..][i], t.writePos) {
      ReadToEndAt(s, pending, n, i);
      assert t.Position(i) == s.Position(n + i);
    }
  }

  /** The next bytes to read are in the read buffer. */
  lemma ReadBufHolds(s: Storage, pending: seq<Byte>, n: nat)
    requires s.Coherent(pending) && s.CanRead(n) && n <= |pending|
    ensures s.readBuf[s.readPos - s.readBlock..s.readPos - s.readBlock + n] == pending[..n]
  {
    forall i | 0 <= i < n ensures s.readBuf[s.readPos - s.readBlock + i] == pending[i] {
      assert s.Holding(s.Position(i), pending[i], s.writePos);
    }
  }

  lemma ReadKeepsCoherent(s: Storage, pending: seq<Byte>, n: nat)
    requires s.Coherent(pending) && s.CanRead(n) && n <= |pending|
    ensures s.Read(n).Coherent(pending[n..])
    ensures s.AtEnd(n) ==> s.CanEnter(s.Next(n))
  {
    if s.AtEnd(n) {
      NextBlockSaved(s, pending, n);
      ReadToEnd(s, pending, n);
    } else {
      ReadInside(s, pending, n);
    }
  }

  /** Copying the run into the write buffer puts it after the pending bytes and disturbs none of them. */
  lemma FillHolds(s: Storage, pending: seq<Byte>, run: seq<Byte>, i: nat)
    requires s.Coherent(pending) && s.CanWrite(run) && |pending| + |run| < s.filesize && i < |pending| + |run|
    ensures s.Fill(run).Shape()
    ensures s.Fill(run).Holding(s.Position(i), (pending + run)[i], s.writePos + |run|)
    ensures s.shared && s.Fills(|run|) ==> s.InReadBuf(s.Position(i))
  {
    var p := s.Position(i);
    OverlapIsSame(s.readBlock, s.writeBlock, s.blockSize);
    if i < |pending| {
      assert s.Holding(p, pending[i], s.writePos);
      assert !(s.writePos <= p < s.writePos + |run|);
    } else {
      assert p == s.writePos + (i - |pending|);
    }
  }

  /** Moving on after a filled block keeps every byte: what leaves the write buffer was saved, or is in the reader's buffer. */
  lemma WriteHolds(s: Storage, pending: seq<Byte>, run: seq<Byte>, i: nat)
    requires s.Coherent(pending) && s.CanWrite(run) && |pending| + |run| < s.filesize
    requires i < |pending| + |run|
    ensures s.Write(run).Shape()
    ensures s.Write(run).Holding(s.Position(i), (pending + run)[i], s.Write(run).writePos)
  {
    FillHolds(s, pending, run, i);
    MoveHolds(s.Fill(run), |run|, s.Position(i), (pending + run)[i]);
  }

  lemma MoveHolds(f: Storage, n: nat, p: nat, x: Byte)
    requires f.Shape() && p < f.filesize && (f.start == f.writeBlock || f.shared)
    requires 0 < n <= f.filesize - f.writePos && n <= f.writeBlock + f.blockSize - f.writePos
    requires f.Holding(p, x, f.writePos + n) && (f.shared && f.Fills(n) ==> f.InReadBuf(p))
    ensures f.Moved(n).Shape() && f.Moved(n).Holding(p, x, f.Moved(n).writePos)
  {
    var t := f.Moved(n);
    assert BlockStart(t.writeBlock, f.blockSize);
    if f.Fills(n) && !f.shared && f.writeBlock <= p < f.writePos + n {
      assert t.file[p] == f.WriteBuf()[p - f.writeBlock];
    }
  }

  lemma WriteKeepsSharing(s: Storage, pending: seq<Byte>, run: seq<Byte>)
    requires s.Coherent(pending) && s.CanWrite(run) && |pending| + |run| < s.filesize
    ensures s.Write(run).Sharing() && s.Write(run).Used() == |pending| + |run|
  {
    OverlapIsSame(s.readBlock, s.writeBlock, s.blockSize);
  }

  lemma {:induction false} WriteKeepsCoherent(s: Storage, pending: seq<Byte>, run: seq<Byte>)
    requires s.Coherent(pending) && s.CanWrite(run) && |pending| + |run| < s.filesize
    ensures s.Write(run).Coherent(pending + run)
  {
    var t := s.Write(run);
    WriteHolds(s, pending, run, 0);
    WriteKeepsSharing(s, pending, run);
    forall i | 0 <= i < |pending| + |run| ensures t.Holding(t.Position(i), (pending + run)[i], t.writePos) {
      WriteHolds(s, pending, run, i);
      assert t.Position(i) == s.Position(i);
    }
  }

  // ---- Rolling back

  lemma NothingDropped(s: Storage, pending: seq<Byte>, kept: nat)
    requires s.Coherent(pending) && kept <= |pending| && (s.Position(kept) == s.writePos || s.readPos == s.writePos)
    ensures pending[..kept] == pending
  {
    assert kept == |pending|;
  }

  /** The bytes kept are still held when the writer stays in its block, away from the reader. */
  lemma RollbackInBlock(s: Storage, pending: seq<Byte>, kept: nat)
    requires s.Coherent(pending) && kept <= |pending|
    requires var c := s.Position(kept); s.writeBlock <= c < s.writeBlock + s.blockSize && s.writeBlock != s.readBlock
    ensures s.(writePos := s.Position(kept)).Coherent(pending[..kept])
  {
    var c := s.Position(kept);
    var t := s.(writePos := c);
    OverlapIsSame(s.readBlock, s.writeBlock, s.blockSize);
    forall i | 0 <= i < kept ensures t.Holding(t.Position(i), pending[..kept][i], c) {
      assert s.Holding(s.Position(i), pending[i], s.writePos);
    }
  }

  /** In the reader's block, what is kept is in the buffer that is read from. */
  lemma RollbackToReader(s: Storage, pending: seq<Byte>, kept: nat, start: nat)
    requires s.Coherent(pending) && kept <= |pending| && start < s.filesize
    requires s.readBlock <= s.Position(kept) < s.readBlock + s.blockSize
    requires s.readPos <= s.Position(kept) || s.shared || (s.Position(kept) == 0 && s.filesize <= s.blockSize)
    ensures s.(writePos := s.Position(kept), writeBlock := s.readBlock, start := start, shared := true).Coherent(pending[..kept])
  {
    var c := s.Position(kept);
    var t := s.(writePos := c, writeBlock := s.readBlock, start := start, shared := true);
    forall i | 0 <= i < kept ensures t.Holding(t.Position(i), pending[..kept][i], c) {
      assert s.Holding(s.Position(i), pending[i], s.writePos);
    }
  }

  /** Going back to the start of the file, when the reader is in a later block, keeps what is behind it. */
  lemma RollbackToStart(s: Storage, pending: seq<Byte>, kept: nat, buf: seq<Byte>)
    requires s.Coherent(pending) && kept <= |pending| && s.Position(kept) == 0
    requires s.readBlock != 0 && s.writeBlock != 0 && |buf| == s.blockSize
    ensures !s.shared && s.(writePos := 0, writeBlock := 0, start := 0, otherBuf := buf).Coherent(pending[..kept])
  {
    var t := s.(writePos := 0, writeBlock := 0, start := 0, otherBuf := buf);
    OverlapIsSame(s.readBlock, s.writeBlock, s.blockSize);
    OverlapIsSame(0, s.readBlock, s.blockSize);
    forall i | 0 <= i < kept ensures t.Holding(t.Position(i), pending[..kept][i], 0) {
      assert s.Holding(s.Position(i), pending[i], s.writePos);
    }
  }

  /** The first block of the file was saved before the writer went on to a block where it is now. */
  lemma FirstBlockSaved(s: Storage, pending: seq<Byte>, kept: nat)
    requires s.Coherent(pending) && kept < |pending| && s.Position(kept) == 0 && s.readBlock != 0 && s.writeBlock != 0
    ensures Min(s.blockSize, s.filesize) <= s.fileLen
  {
    OverlapIsSame(0, s.readBlock, s.blockSize);
    OverlapIsSame(0, s.writeBlock, s.blockSize);
    var last := Min(s.blockSize, s.filesize) - 1;
    assert s.Position(kept + last) == last;
    assert s.Holding(last, pending[kept + last], s.writePos);
  }

  lemma MayRollBackReloads(s: Storage, pending: seq<Byte>, kept: nat, b: nat)
    requires s.Coherent(pending) && kept <= |pending| && Holds(b, s.Position(kept), s.blockSize)
    requires s.MayRollBack(s.Position(kept), b)
    ensures s.CanReload(s.Position(kept), b)
  {
    if s.Position(kept) == 0 && s.writePos != 0 && s.readBlock != 0 && s.writeBlock != 0 { FirstBlockSaved(s, pending, kept); }
  }

  /** With one buffer for both, everything stored is in the block of the reader. */
  lemma SharedMeansReader(s: Storage, pending: seq<Byte>, kept: nat, b: nat)
    requires s.Coherent(pending) && s.shared && kept <= |pending| && Holds(b, s.Position(kept), s.blockSize)
    ensures b == s.readBlock
  {
    OverlapIsSame(b, s.readBlock, s.blockSize);
  }

  /** In these cases what is stored before the position rolled back to is kept, and all the rest is dropped. */
  lemma RollbackKeepsCoherent(s: Storage, pending: seq<Byte>, kept: nat, b: nat)
    requires s.Coherent(pending) && kept <= |pending| && Holds(b, s.Position(kept), s.blockSize)
    requires s.MayRollBack(s.Position(kept), b)
    ensures s.RolledBack(s.Position(kept), b).Coherent(pending[..kept])
  {
    var c := s.Position(kept);
    OverlapIsSame(b, s.writeBlock, s.blockSize);
    OverlapIsSame(b, s.readBlock, s.blockSize);
    if c == s.writePos || s.readPos == s.writePos {
      NothingDropped(s, pending, kept);
    } else if b == s.readBlock {
      RollbackToReader(s, pending, kept, c - b);
    } else if b == s.writeBlock {
      RollbackInBlock(s, pending, kept);
    } else {
      RollbackToStart(s, pending, kept, s.RolledBack(c, b).otherBuf);
    }
  }

  /** A swap that nothing was stored in yet. */
  function New(filesize: nat, blockSize: nat): Storage {
    Storage(filesize, blockSize, 0, 0, 0, 0, 0, 0, Zeros(blockSize), Zeros(blockSize), Zeros(filesize), true)
  }

  function Zeros(n: nat): seq<Byte> { seq(n, _ => 0) }

  class Swap {
    const filesize: nat
    const blockSize: nat
    const buf1: array<Byte>
    const buf2: array<Byte>
    // The backing file. Bytes from fileLen on were never written, so reading them fails.
    const file: array<Byte>
    var fileLen: nat
    var filePos: nat
    var writePos: nat
    var readPos: nat
    var readBuf: array<Byte>
    var writeBuf: array<Byte>
    var writeBufStart: nat
    // The source does not initialise it.
    var commitPos: nat
    // Abstract value: the bytes stored and not yet fetched, and the messages they encode.
    ghost var pending: seq<Byte>
    ghost var messages: seq<Message>
    // The starts of the blocks that hold readPos and writePos.
    ghost var readBlock: nat
    ghost var writeBlock: nat

    ghost predicate Separate()
      reads `readBuf, `writeBuf
    {
      var separate :=
        && buf1.Length == buf2.Length == blockSize && file.Length == filesize
        && buf1 != buf2 && file != buf1 && file != buf2
        && (readBuf == buf1 || readBuf == buf2) && (writeBuf == buf1 || writeBuf == buf2);
      separate
    }

    /** The buffer that is not read from. */
    ghost function Other(): array<Byte>
      reads `readBuf
    {
      if readBuf == buf1 then buf2 else buf1
    }

    ghost function View(): Storage
      reads `fileLen, `writePos, `readPos, `writeBufStart, `readBuf, `writeBuf, `readBlock, `writeBlock, readBuf, Other(), file
    {
      Storage(filesize, blockSize, fileLen, readPos, readBlock, writePos, writeBlock, writeBufStart,
              readBuf[..], Other()[..], file[..], readBuf == writeBuf)
    }

    ghost predicate Ready()
      reads `fileLen, `writePos, `readPos, `writeBufStart, `readBuf, `writeBuf, `readBlock, `writeBlock, `pending, readBuf, Other(), file
    {
      var ready := Separate() && View().Coherent(pending);
      ready
    }

    ghost predicate Valid()
      reads this, readBuf, Other(), file
    {
      var valid := Ready() && pending == Records(messages) && forall m :: m in messages ==> |m.body| < Pow256(SIZEOF_SIZE_T);
      valid
    }

    constructor (filesize: nat, blockSize: nat)
      requires 0 < filesize && 0 < blockSize
      ensures Valid() && messages == []
      ensures this.filesize == filesize && this.blockSize == blockSize && View() == New(filesize, blockSize)
      ensures fresh(buf1) && fresh(buf2) && fresh(file)
    {
      this.filesize, this.blockSize := filesize, blockSize;
      var b := new Byte[blockSize](_ => 0);
      buf1 := b;
      buf2 := new Byte[blockSize](_ => 0);
      file := new Byte[filesize](_ => 0);
      fileLen, filePos, writePos, readPos, writeBufStart := 0, 0, 0, 0, 0;
      readBuf, writeBuf := b, b;
      pending, messages, readBlock, writeBlock := [], [], 0, 0;
    }

    method BufferSpace() returns (space: nat)
      requires Ready()
      ensures space == filesize - |pending|
    {
      if writePos < readPos {
        return readPos - writePos;
      }
      return filesize - (writePos - readPos);
    }

    method Empty() returns (empty: bool)
      requires Valid()
      ensures empty <==> messages == []
    {
      if messages != [] { assert |Record(messages[0])| > 0; }
      empty := readPos == writePos;
    }

    method Fits(m: Message) returns (fits: bool)
      requires Valid()
      ensures fits <==> |Records(messages)| + |Record(m)| < filesize
    {
      var space := BufferSpace();
      fits := !(space <= SIZEOF_SIZE_T + 1 + |m.body|);
    }

    /** Reads the block at `pos` into `buf`, in as many short reads as the system chooses. */
    method FillBuf(buf: array<Byte>, pos: nat)
      requires buf.Length == blockSize && buf != file && file.Length == filesize
      requires pos < filesize && pos + Min(blockSize, filesize - pos) <= fileLen <= filesize
      modifies this`filePos, buf
      ensures buf[..] == Splice(old(buf[..]), 0, file[pos..pos + Min(blockSize, filesize - pos)])
    {
      if filePos != pos {
        filePos := pos;
      }
      var stored, total := 0, Min(blockSize, filesize - filePos);
      while stored < total
        invariant 0 <= stored <= total && filePos == pos
        invariant forall k :: 0 <= k < stored ==> buf[k] == file[pos + k]
        invariant forall k :: stored <= k < blockSize ==> buf[k] == old(buf[k])
      {
        var rc :| 0 < rc <= total - stored;
        forall k | stored <= k < stored + rc { buf[k] := file[pos + k]; }
        stored := stored + rc;
      }
      filePos := filePos + total;
    }

    /** Writes the block held in the write buffer to the file. */
    method SaveWriteBuf()
      requires Separate() && fileLen <= filesize && writeBufStart < filesize
      modifies this`filePos, this`fileLen, file
      ensures var len := Min(blockSize, filesize - writeBufStart);
        && file[..] == Splice(old(file[..]), writeBufStart, writeBuf[..len])
        && fileLen == if old(fileLen) < writeBufStart + len then writeBufStart + len else old(fileLen)
    {
      if filePos != writeBufStart {
        filePos := writeBufStart;
      }
      var total := Min(blockSize, filesize - filePos);
      WriteOut(writeBuf, total, file, writeBufStart);
      filePos := filePos + total;
      if fileLen < filePos { fileLen := filePos; }
    }

    /** Takes `count` bytes out of the swap, oldest first. */
    method CopyFromFile(count: nat) returns (dest: seq<Byte>)
      requires Ready() && count <= |pending|
      modifies this`readPos, this`readBuf, this`readBlock, this`filePos, this`pending, buf1, buf2
      ensures Ready()
      ensures |dest| == count && old(pending) == dest + pending
    {
      dest := [];
      var remainder := count;
      while remainder > 0
        invariant Ready() && 0 <= remainder <= |pending|
        invariant |dest| + remainder == count
        invariant old(pending) == dest + pending
      {
        ghost var taken := dest;
        var offset := Offset(readPos, blockSize, readBlock);
        var chunkSize := Min(remainder, Min(filesize - readPos, blockSize - offset));
        var chunk := ReadChunk(offset, chunkSize);
        dest := dest + chunk;
        remainder := remainder - chunkSize;
        assert taken + (chunk + pending) == dest + pending;
      }
    }

    /** Copies a run out of the read buffer and moves the read position over it. */
    method ReadChunk(offset: nat, n: nat) returns (chunk: seq<Byte>)
      requires Ready() && View().CanRead(n) && n <= |pending| && offset == readPos - readBlock
      modifies this`readPos, this`readBuf, this`readBlock, this`filePos, this`pending, buf1, buf2
      ensures Ready() && View() == old(View().Read(n))
      ensures |chunk| == n && old(pending) == chunk + pending
    {
      ghost var s := View();
      chunk := readBuf[offset..offset + n];
      ReadBufHolds(s, pending, n);
      ReadKeepsCoherent(s, pending, n);
      MoveReadPos(n, s.AtEnd(n));
      pending := pending[n..];
    }

    method MoveReadPos(n: nat, ghost boundary: bool)
      requires Separate() && View().CanRead(n) && View().AtEnd(n) == boundary && (boundary ==> View().CanEnter(View().Next(n)))
      modifies this`readPos, this`readBuf, this`readBlock, this`filePos, buf1, buf2
      ensures Separate() && View() == old(View().Read(n))
    {
      readPos := Advance(readPos, n, filesize);
      if boundary { readBlock := readPos; }
      var offset := Offset(readPos, blockSize, readBlock);
      if offset == 0 {
        EnterBlock();
      }
    }

    /** At the start of a block: go on in the writer's buffer if it holds this block, else load the block. */
    method EnterBlock()
      requires Separate() && 0 < blockSize && readPos == readBlock < filesize && writePos < filesize
      requires Holds(readBlock, readPos, blockSize) && Holds(writeBlock, writePos, blockSize)
      requires readPos != writeBlock ==> readPos + Min(blockSize, filesize - readPos) <= fileLen <= filesize
      modifies this`readBuf, this`filePos, buf1, buf2
      ensures Separate() && View() == old(View()).Entered()
    {
      var same := SameBlock(readPos, writePos, blockSize, readBlock, writeBlock);
      if same {
        readBuf := writeBuf;
      } else {
        FillBuf(readBuf, readPos);
      }
    }

    /** Appends `source` to the swap; one byte always stays free. */
    method CopyToFile(source: seq<Byte>)
      requires Ready() && |pending| + |source| < filesize
      modifies this`writePos, this`writeBuf, this`writeBufStart, this`writeBlock, this`filePos, this`fileLen, this`pending, buf1, buf2, file
      ensures Ready() && pending == old(pending) + source
    {
      var done, remainder := 0, |source|;
      while remainder > 0
        invariant 0 <= remainder && done + remainder == |source|
        invariant Ready() && pending == old(pending) + source[..done]
      {
        var offset := Offset(writePos, blockSize, writeBlock);
        var chunkSize := Min(remainder, Min(filesize - writePos, blockSize - offset));
        WriteChunk(offset, source[done..done + chunkSize]);
        AppendNext(old(pending), source, done, chunkSize);
        done, remainder := done + chunkSize, remainder - chunkSize;
      }
      assert source[..|source|] == source;
    }

    /** Copies a run into the write buffer and moves the write position over it. */
    method WriteChunk(offset: nat, run: seq<Byte>)
      requires Ready() && View().CanWrite(run) && |pending| + |run| < filesize && offset == writePos - writeBlock
      modifies this`writePos, this`writeBuf, this`writeBufStart, this`writeBlock, this`filePos, this`fileLen, this`pending, buf1, buf2, file
      ensures Ready() && pending == old(pending) + run && View() == old(View()).Write(run)
    {
      WriteKeepsCoherent(View(), pending, run);
      CopyRun(offset, run);
      MoveWritePos(|run|);
      pending := pending + run;
    }

    method CopyRun(offset: nat, run: seq<Byte>)
      requires Separate() && View().CanWrite(run) && offset == writePos - writeBlock
      modifies writeBuf
      ensures View() == old(View()).Fill(run)
    {
      CopyInto(writeBuf, offset, run);
    }

    method MoveWritePos(n: nat)
      requires Separate() && View().Shape() && 0 < n <= filesize - writePos && n <= writeBlock + blockSize - writePos
      modifies this`writePos, this`writeBuf, this`writeBufStart, this`writeBlock, this`filePos, this`fileLen, file
      ensures Separate() && View() == old(View().Moved(n))
    {
      ghost var fills := View().Fills(n);
      writePos := Advance(writePos, n, filesize);
      if fills { writeBlock := writePos; }
      var offset := Offset(writePos, blockSize, writeBlock);
      if offset == 0 {
        LeaveBlock();
      }
    }

    /** At the end of a block: save it, and go on in the buffer the reader does not use. */
    method LeaveBlock()
      requires Separate() && fileLen <= filesize && writeBufStart < filesize
      modifies this`writeBuf, this`writeBufStart, this`filePos, this`fileLen, file
      ensures Separate() && View() == old(View()).Left()
    {
      SaveWriteBuf();
      writeBufStart := writePos;
      if writeBuf == readBuf {
        SwitchBuf();
      }
    }

    method SwitchBuf()
      requires Separate()
      modifies `writeBuf
      ensures Separate() && readBuf != writeBuf && writeBuf == if readBuf == buf1 then buf2 else buf1
    {
      if readBuf == buf2 { writeBuf := buf1; } else { writeBuf := buf2; }
    }

    /** Stores a message; it is refused exactly when its record would leave no free byte. */
    method Store(m: Message) returns (stored: bool)
      requires Valid() && |m.body| < Pow256(SIZEOF_SIZE_T)
      modifies this, buf1, buf2, file
      ensures Valid()
      ensures stored <==> |Records(old(messages))| + |Record(m)| < filesize
      ensures messages == if stored then old(messages) + [Message(DropShared(m.flags), m.body)] else old(messages)
    {
      var msgSize := |m.body|;
      var space := BufferSpace();
      if space <= SIZEOF_SIZE_T + 1 + msgSize {
        return false;
      }
      var flags := DropShared(m.flags);
      StoreRecord(Message(flags, m.body));
      stored := true;
      RecordsAppend(messages, Message(flags, m.body));
      messages := messages + [Message(flags, m.body)];
    }

    method StoreRecord(m: Message)
      requires Ready() && |pending| + |Record(m)| < filesize && DropShared(m.flags) == m.flags
      modifies this`writePos, this`writeBuf, this`writeBufStart, this`writeBlock, this`filePos, this`fileLen, this`pending, buf1, buf2, file
      ensures Ready() && pending == old(pending) + Record(m)
    {
      CopyToFile(ToLE(|m.body|, SIZEOF_SIZE_T));
      CopyToFile([m.flags]);
      CopyToFile(m.body);
    }

    /** Fetches the oldest message with its body and flags intact. */
    method Fetch() returns (m: Message)
      requires Valid() && messages != []
      modifies this, buf1, buf2
      ensures Valid()
      ensures m.body == old(messages)[0].body && m.flags == DropShared(old(messages)[0].flags)
      ensures messages == old(messages)[1..]
    {
      ghost var first := messages[0];
      ghost var rest := Records(messages[1..]);
      LERoundTrip(|first.body|, SIZEOF_SIZE_T);
      RecordParts(first, rest);
      m := FetchRecord(first, rest);
      messages := messages[1..];
    }

    method FetchRecord(ghost first: Message, ghost rest: seq<Byte>) returns (m: Message)
      requires Ready() && pending == ToLE(|first.body|, SIZEOF_SIZE_T) + ([DropShared(first.flags)] + (first.body + rest))
      requires FromLE(ToLE(|first.body|, SIZEOF_SIZE_T)) == |first.body|
      modifies this`readPos, this`readBuf, this`readBlock, this`filePos, this`pending, buf1, buf2
      ensures Ready() && pending == rest
      ensures m == Message(DropShared(first.flags), first.body)
    {
      ghost var header := ToLE(|first.body|, SIZEOF_SIZE_T);
      ghost var flag := [DropShared(first.flags)];
      var sizeBytes := CopyFromFile(SIZEOF_SIZE_T);
      SplitAt(header, flag + (first.body + rest), sizeBytes, pending);
      var size := FromLE(sizeBytes);
      var flags := CopyFromFile(1);
      SplitAt(flag, first.body + rest, flags, pending);
      var body := CopyFromFile(size);
      SplitAt(first.body, rest, body, pending);
      m := Message(flags[0], body);
    }

    /** Marks the end of what is stored as the place to roll back to. */
    method Commit()
      requires Valid()
      modifies `commitPos
      ensures Valid() && commitPos == View().Position(|Records(messages)|) < filesize
    {
      commitPos := writePos;
    }

    /**
     * Goes back to the last commit, after `n` messages. When `MayRollBack` says so, it drops the messages
     * stored since and nothing else, so that the messages left are fetched and further ones stored as before.
     */
    method Rollback(ghost n: nat, ghost block: nat)
      requires Valid() && n <= |messages|
      requires commitPos == View().Position(|Records(messages[..n])|) < filesize && Holds(block, commitPos, blockSize)
      requires View().MayRollBack(commitPos, block) || View().CanReload(commitPos, block)
      modifies this, buf1, buf2
      ensures Separate() && View() == old(View().RolledBack(commitPos, block))
      ensures messages == old(messages[..n])
      ensures old(View().MayRollBack(commitPos, block)) ==> Valid()
    {
      RecordsOfPrefix(messages, n);
      ghost var kept := |Records(messages[..n])|;
      assert Records(messages[..n]) == pending[..kept];
      DropBytes(kept, block);
      messages := messages[..n];
    }

    /** Keeps the oldest `kept` bytes. */
    method DropBytes(ghost kept: nat, ghost block: nat)
      requires Ready() && kept <= |pending|
      requires commitPos == View().Position(kept) < filesize && Holds(block, commitPos, blockSize)
      requires View().MayRollBack(commitPos, block) || View().CanReload(commitPos, block)
      modifies `writePos, `writeBuf, `writeBufStart, `writeBlock, `filePos, `pending, buf1, buf2
      ensures Separate() && View() == old(View().RolledBack(commitPos, block))
      ensures pending == old(pending)[..kept]
      ensures old(View().MayRollBack(commitPos, block)) ==> Ready()
    {
      ghost var s := View();
      if s.MayRollBack(commitPos, block) {
        RollbackKeepsCoherent(s, pending, kept, block);
        MayRollBackReloads(s, pending, kept, block);
      }
      if readBuf == writeBuf { SharedMeansReader(s, pending, kept, block); }
      MoveBack(block);
      pending := pending[..kept];
    }

    method MoveBack(ghost block: nat)
      requires Separate() && View().Shape() && Holds(block, commitPos, blockSize) && commitPos < filesize
      requires View().CanReload(commitPos, block) && (readBuf == writeBuf ==> block == readBlock)
      modifies `writePos, `writeBuf, `writeBufStart, `writeBlock, `filePos, buf1, buf2
      ensures Separate() && View() == old(View().RolledBack(commitPos, block))
    {
      if commitPos == writePos || readPos == writePos {
        return;
      }
      var withReader := SameBlock(commitPos, readPos, blockSize, block, readBlock);
      var withWriter := SameBlock(commitPos, writePos, blockSize, block, writeBlock);
      if withReader {
        JoinReader(block);
      } else if !withWriter {
        Reload(block);
      }
      writePos, writeBlock := commitPos, block;
    }

    method JoinReader(ghost block: nat)
      requires Separate() && blockSize > 0 && Holds(block, commitPos, blockSize)
      modifies `writeBuf, `writeBufStart
      ensures Separate() && View() == old(View()).(start := commitPos - block, shared := true)
    {
      writeBufStart := Offset(commitPos, blockSize, block);
      writeBuf := readBuf;
    }

    /** Loads the block at the offset of the commit position into the write buffer. */
    method Reload(ghost block: nat)
      requires Separate() && writeBuf != readBuf && View().Shape() && commitPos < filesize && Holds(block, commitPos, blockSize)
      requires var start := commitPos - block; start + Min(blockSize, filesize - start) <= fileLen <= filesize
      modifies `writeBufStart, `filePos, buf1, buf2
      ensures Separate() && View() == old(View()).(start := commitPos - block, otherBuf :=
        Splice(old(Other()[..]), 0, file[commitPos - block..commitPos - block + Min(blockSize, filesize - (commitPos - block))]))
    {
      writeBufStart := Offset(commitPos, blockSize, block);
      ghost var s := View();
      assert s == old(View()).(start := commitPos - block) && s.otherBuf == old(Other()[..]);
      LoadWriteBuf(s);
      assert View().file == s.file;
    }

    /** The block at the start of the write buffer is loaded into it; `s` is the snapshot before. */
    method LoadWriteBuf(ghost s: Storage)
      requires Separate() && writeBuf != readBuf && s == View() && writeBufStart < filesize
      requires writeBufStart + Min(blockSize, filesize - writeBufStart) <= fileLen <= filesize
      modifies `filePos, buf1, buf2
      ensures Separate()
      ensures View() == s.(otherBuf := Splice(s.otherBuf, 0, s.file[writeBufStart..writeBufStart + Min(blockSize, filesize - writeBufStart)]))
    {
      FillBuf(writeBuf, writeBufStart);
    }
  }
}
