/** The chunked queue: a doubly linked list of chunks of `n` slots each, and one spare chunk kept for reuse. */
module YQueue {
  import opened Wrappers

  class Chunk<T(0)> {
    var values: seq<T>
    var prev: Chunk?<T>
    var next: Chunk?<T>

    constructor (n: nat)
      ensures |values| == n
    {
      var any: T := *;
      values, prev, next := seq(n, _ => any), null, null;
    }
  }

  /** A slot stands for the address of an element. */
  datatype Slot<T(0)> = Slot(chunk: Chunk<T>, pos: nat)

  function Range<T(0)>(c: Chunk<T>, from: nat, to: nat): (r: seq<Slot<T>>)
    requires from <= to
    ensures |r| == to - from
  {
    seq(to - from, i requires 0 <= i < to - from => Slot(c, from + i))
  }

  /** The slots from position `from` in the first chunk to position `to` in the last. */
  ghost function Slots<T(0)>(chunks: seq<Chunk<T>>, from: nat, to: nat, n: nat): seq<Slot<T>>
    requires chunks != [] && from <= n && to <= n && (|chunks| == 1 ==> from <= to)
    decreases |chunks|
  {
    if |chunks| == 1 then Range(chunks[0], from, to)
    else Range(chunks[0], from, n) + Slots(chunks[1..], 0, to, n)
  }

  lemma {:induction false} SlotsPush<T(0)>(chunks: seq<Chunk<T>>, from: nat, to: nat, n: nat)
    requires chunks != [] && from <= n && to < n && (|chunks| == 1 ==> from <= to)
    ensures Slots(chunks, from, to + 1, n) == Slots(chunks, from, to, n) + [Slot(chunks[|chunks| - 1], to)]
    decreases |chunks|
  {
    if |chunks| == 1 {
      assert Range(chunks[0], from, to + 1) == Range(chunks[0], from, to) + [Slot(chunks[0], to)];
    } else {
      SlotsPush(chunks[1..], 0, to, n);
      assert chunks[1..][|chunks[1..]| - 1] == chunks[|chunks| - 1];
    }
  }

  /** A new chunk at the end has no slot in use yet. */
  lemma {:induction false} SlotsGrow<T(0)>(chunks: seq<Chunk<T>>, c: Chunk<T>, from: nat, n: nat)
    requires chunks != [] && from <= n
    ensures Slots(chunks + [c], from, 0, n) == Slots(chunks, from, n, n)
    decreases |chunks|
  {
    if |chunks| == 1 {
      assert (chunks + [c])[1..] == [c];
      assert Range(c, 0, 0) == [];
    } else {
      assert (chunks + [c])[1..] == chunks[1..] + [c];
      SlotsGrow(chunks[1..], c, 0, n);
    }
  }

  /** An unused last chunk hides the last slot of the chunk before it. */
  lemma SlotsShrink<T(0)>(chunks: seq<Chunk<T>>, from: nat, n: nat)
    requires |chunks| > 1 && from < n
    ensures var m := |chunks| - 1;
      Slots(chunks, from, 0, n) == Slots(chunks[..m], from, n - 1, n) + [Slot(chunks[m - 1], n - 1)]
  {
    var m := |chunks| - 1;
    assert chunks == chunks[..m] + [chunks[m]];
    SlotsGrow(chunks[..m], chunks[m], from, n);
    SlotsPush(chunks[..m], from, n - 1, n);
  }

  lemma SlotsPop<T(0)>(chunks: seq<Chunk<T>>, from: nat, to: nat, n: nat)
    requires chunks != [] && from < n && to <= n && (|chunks| == 1 ==> from < to)
    ensures from + 1 < n || |chunks| == 1 ==>
      Slots(chunks, from, to, n) == [Slot(chunks[0], from)] + Slots(chunks, from + 1, to, n)
    ensures from + 1 == n && |chunks| > 1 ==>
      Slots(chunks, from, to, n) == [Slot(chunks[0], from)] + Slots(chunks[1..], 0, to, n)
  {
    var end := if |chunks| == 1 then to else n;
    assert Range(chunks[0], from, end) == [Slot(chunks[0], from)] + Range(chunks[0], from + 1, end);
    if from + 1 == n { assert Range(chunks[0], n, n) == []; }
  }

  lemma {:induction false} SlotsWhere<T(0)>(chunks: seq<Chunk<T>>, from: nat, to: nat, n: nat)
    requires chunks != [] && from <= n && to <= n && (|chunks| == 1 ==> from <= to)
    ensures forall s :: s in Slots(chunks, from, to, n) ==> s.chunk in chunks && s.pos < n
    decreases |chunks|
  {
    if |chunks| > 1 { SlotsWhere(chunks[1..], 0, to, n); }
  }

  /** No two elements have the same address. */
  lemma {:induction false} SlotsDistinct<T(0)>(chunks: seq<Chunk<T>>, from: nat, to: nat, n: nat)
    requires chunks != [] && from <= n && to <= n && (|chunks| == 1 ==> from <= to) && Distinct(chunks)
    ensures Distinct(Slots(chunks, from, to, n))
    decreases |chunks|
  {
    if |chunks| > 1 {
      SlotsDistinct(chunks[1..], 0, to, n);
      SlotsWhere(chunks[1..], 0, to, n);
      var a, b := Range(chunks[0], from, n), Slots(chunks[1..], 0, to, n);
      forall i, j | 0 <= i < j < |a + b| ensures (a + b)[i] != (a + b)[j] {
        if i < |a| <= j { assert b[j - |a|] in b; }
      }
    }
  }

  ghost predicate InBounds<T(0)>(slots: seq<Slot<T>>)
    reads set s | s in slots :: s.chunk
  {
    forall s :: s in slots ==> s.pos < |s.chunk.values|
  }

  /** What the slots hold. */
  ghost function Values<T(0)>(slots: seq<Slot<T>>): seq<T>
    requires InBounds(slots)
    reads set s | s in slots :: s.chunk
  {
    if slots == [] then [] else [slots[0].chunk.values[slots[0].pos]] + Values(slots[1..])
  }

  lemma {:induction false} ValuesAt<T(0)>(slots: seq<Slot<T>>)
    requires InBounds(slots)
    ensures |Values(slots)| == |slots|
    ensures forall i :: 0 <= i < |slots| ==> Values(slots)[i] == slots[i].chunk.values[slots[i].pos]
  {
    if slots != [] { ValuesAt(slots[1..]); }
  }

  /** Every chunk is in the list, or spare, or freed, and only one of these. */
  ghost predicate Partition<P>(chunks: seq<P>, spare: set<P>, freed: set<P>, taken: set<P>) {
    var live := set c | c in chunks;
    Distinct(chunks) && live !! spare && live + spare !! freed && live + spare + freed == taken
  }

  lemma PartitionLink<P>(chunks: seq<P>, c: P, freed: set<P>, taken: set<P>)
    requires Partition(chunks, {c}, freed, taken)
    ensures Partition(chunks + [c], {}, freed, taken)
  {
    assert forall d :: d in chunks + [c] <==> d in chunks || d == c;
  }

  /** The first chunk becomes the spare one. */
  lemma PartitionSpare<P>(chunks: seq<P>, spare: set<P>, freed: set<P>, taken: set<P>)
    requires Partition(chunks, spare, freed, taken) && chunks != []
    ensures Partition(chunks[1..], {chunks[0]}, freed + spare, taken)
  {
    assert forall d :: d in chunks <==> d in chunks[1..] || d == chunks[0];
  }

  /** The first, or the last, chunk is freed. */
  lemma PartitionFree<P>(chunks: seq<P>, spare: set<P>, freed: set<P>, taken: set<P>)
    requires Partition(chunks, spare, freed, taken) && chunks != []
    ensures Partition(chunks[1..], spare, freed + {chunks[0]}, taken)
    ensures Partition(chunks[..|chunks| - 1], spare, freed + {chunks[|chunks| - 1]}, taken)
  {
    var m := |chunks| - 1;
    assert forall d :: d in chunks <==> d in chunks[1..] || d == chunks[0];
    assert forall d :: d in chunks <==> d in chunks[..m] || d == chunks[m];
  }

  lemma LastChanged<T>(before: seq<T>, after: seq<T>, v: T)
    requires |before| == |after| > 0 && after[|after| - 1] == v
    requires forall i :: 0 <= i < |before| - 1 ==> after[i] == before[i]
    ensures after == before[..|before| - 1] + [v]
  {
  }

  class YQueue<T(0)> {
    const n: nat
    var beginChunk: Chunk<T>
    var beginPos: nat
    var backChunk: Chunk?<T>
    var backPos: nat
    var endChunk: Chunk<T>
    var endPos: nat
    var spareChunk: Chunk?<T>
    // The list from beginChunk to endChunk, the chunks given back, and all chunks ever taken.
    ghost var chunks: seq<Chunk<T>>
    ghost var freed: set<Chunk<T>>
    ghost var taken: set<Chunk<T>>

    ghost function Spare(): set<Chunk<T>>
      reads `spareChunk
    {
      if spareChunk == null then {} else {spareChunk}
    }

    /** The chunks that are not freed. */
    ghost function Owned(): set<Chunk<T>>
      reads `spareChunk, `chunks
    {
      (set c | c in chunks) + Spare()
    }

    ghost predicate Partitioned()
      reads `spareChunk, `chunks, `freed, `taken
    {
      Partition(chunks, Spare(), freed, taken)
    }

    ghost predicate Linked()
      reads `chunks, chunks
    {
      forall i :: 0 <= i < |chunks| - 1 ==> chunks[i].next == chunks[i + 1] && chunks[i + 1].prev == chunks[i]
    }

    ghost predicate Valid()
      reads this, Owned()
    {
      var valid :=
        && chunks != [] && beginChunk == chunks[0] && endChunk == chunks[|chunks| - 1]
        && beginPos < n && endPos < n && (|chunks| == 1 ==> beginPos <= endPos)
        && Partitioned() && Linked()
        && (forall c :: c in Owned() ==> |c.values| == n)
        && BackIsLast();
      valid
    }

    /** With elements in the queue, `back` is the slot before the end. */
    ghost predicate BackIsLast()
      requires chunks != []
      reads `chunks, `beginPos, `endPos, `backChunk, `backPos
    {
      |chunks| > 1 || beginPos < endPos ==>
        if endPos > 0 then backChunk == chunks[|chunks| - 1] && backPos == endPos - 1
        else |chunks| > 1 && backChunk == chunks[|chunks| - 2] && backPos == n - 1
    }

    /** The addresses of the elements, oldest first. */
    ghost function Elements(): seq<Slot<T>>
      requires Valid()
      reads this, Owned()
    {
      Slots(chunks, beginPos, endPos, n)
    }

    /** The queue as a sequence. */
    ghost function Contents(): seq<T>
      requires Valid()
      reads this, Owned()
    {
      SlotsWhere(chunks, beginPos, endPos, n);
      Values(Elements())
    }

    constructor (n: nat)
      requires n > 0
      ensures Valid() && Elements() == [] && this.n == n && fresh(Owned())
    {
      var c := new Chunk<T>(n);
      this.n := n;
      beginChunk, beginPos, backChunk, backPos, endChunk, endPos, spareChunk := c, 0, null, 0, c, 0, null;
      chunks, freed, taken := [c], {}, {c};
    }

    /** A queue is not empty exactly when its two positions differ. */
    lemma NonEmpty()
      requires Valid()
      ensures Elements() == [] <==> |chunks| == 1 && beginPos == endPos
    {
      SlotsPopIfAny();
    }

    lemma SlotsPopIfAny()
      requires Valid()
      ensures |chunks| > 1 || beginPos < endPos ==> Elements() != [] && Elements()[0] == Slot(beginChunk, beginPos)
    {
      if |chunks| > 1 || beginPos < endPos { SlotsPop(chunks, beginPos, endPos, n); }
    }

    lemma ContentsAt()
      requires Valid()
      ensures |Contents()| == |Elements()|
      ensures forall i :: 0 <= i < |Elements()| ==>
        var e := Elements()[i]; e.chunk in chunks && e.pos < n && Contents()[i] == e.chunk.values[e.pos]
    {
      SlotsWhere(chunks, beginPos, endPos, n);
      ValuesAt(Elements());
    }

    /** Adds an element at the end, whose value is still to be written. */
    method Push()
      requires Valid()
      modifies this, Owned()
      ensures Valid() && Elements() == old(Elements()) + [Slot(old(endChunk), old(endPos))]
      ensures old(Contents()) < Contents() && |Contents()| == |old(Contents())| + 1
      ensures backChunk == old(endChunk) && backPos == old(endPos)
      ensures freed == old(freed) && fresh(taken - old(taken))
    {
      ContentsAt();
      MoveEnd();
      ContentsAt();
    }

    /** Removes the oldest element. */
    method Pop()
      requires Valid() && Elements() != []
      modifies this, Owned()
      ensures Valid() && Elements() == old(Elements())[1..]
      ensures old(Contents()) != [] && Contents() == old(Contents())[1..]
      ensures old(freed) <= freed && taken == old(taken)
    {
      ContentsAt();
      MoveBegin();
      ContentsAt();
    }

    /** Takes back the newest element. */
    method Unpush()
      requires Valid() && Elements() != []
      modifies this, Owned()
      ensures Valid() && Elements() == old(Elements())[..|old(Elements())| - 1]
      ensures old(Contents()) != [] && Contents() == old(Contents())[..|old(Contents())| - 1]
      ensures old(freed) <= freed && taken == old(taken)
    {
      ContentsAt();
      MoveBack();
      ContentsAt();
    }

    /** Makes the slot at the end an element. */
    method MoveEnd()
      requires Valid()
      modifies this, Owned()
      ensures Valid() && forall c :: c in old(Owned()) ==> c.values == old(c.values)
      ensures Elements() == old(Elements()) + [Slot(old(endChunk), old(endPos))]
      ensures backChunk == old(endChunk) && backPos == old(endPos)
      ensures freed == old(freed) && fresh(taken - old(taken))
    {
      SlotsPush(chunks, beginPos, endPos, n);
      backChunk := endChunk;
      backPos := endPos;
      endPos := endPos + 1;
      if endPos != n {
        return;
      }
      AddChunk();
    }

    /** Links the spare chunk, or a new one, behind a full last chunk. */
    method AddChunk()
      requires chunks != [] && beginChunk == chunks[0] && endChunk == chunks[|chunks| - 1]
      requires beginPos < n == endPos && Partitioned() && Linked()
      requires forall c :: c in Owned() ==> |c.values| == n
      requires backChunk == endChunk && backPos == n - 1
      modifies `endChunk, `endPos, `spareChunk, `chunks, `taken, Owned()
      ensures Valid() && forall c :: c in old(Owned()) ==> c.values == old(c.values)
      ensures Elements() == Slots(old(chunks), beginPos, n, n)
      ensures fresh(taken - old(taken))
    {
      var sc := TakeSpare();
      SlotsGrow(chunks, sc, beginPos, n);
      LinkLast(sc);
    }

    /** The spare chunk, or a new one. */
    method TakeSpare() returns (sc: Chunk<T>)
      requires Partitioned() && forall c :: c in Owned() ==> |c.values| == n
      modifies `spareChunk, `taken
      ensures spareChunk == null && |sc.values| == n && Partition(chunks, {sc}, freed, taken)
      ensures old(spareChunk) == null ==> fresh(sc)
      ensures sc == old(spareChunk) || fresh(sc)
      ensures fresh(taken - old(taken))
    {
      if spareChunk != null {
        sc := spareChunk;
        spareChunk := null;
      } else {
        sc := new Chunk<T>(n);
        taken := taken + {sc};
      }
    }

    /** Makes an unused chunk the last one. */
    method LinkLast(sc: Chunk<T>)
      requires chunks != [] && beginChunk == chunks[0] && endChunk == chunks[|chunks| - 1]
      requires beginPos < n == endPos && Linked() && spareChunk == null
      requires backChunk == endChunk && backPos == n - 1
      requires |sc.values| == n && Partition(chunks, {sc}, freed, taken)
      requires forall c :: c in chunks ==> |c.values| == n
      modifies `endChunk, `endPos, `chunks, endChunk`next, sc`prev
      ensures Valid() && chunks == old(chunks) + [sc] && endPos == 0
    {
      PartitionLink(chunks, sc, freed, taken);
      endChunk.next := sc;
      sc.prev := endChunk;
      endChunk := sc;
      endPos := 0;
      chunks := chunks + [sc];
    }

    method MoveBegin()
      requires Valid() && Elements() != []
      modifies this, Owned()
      ensures Valid() && forall c :: c in old(Owned()) ==> c.values == old(c.values)
      ensures Elements() == old(Elements())[1..]
      ensures old(freed) <= freed && taken == old(taken)
    {
      NonEmpty();
      SlotsPop(chunks, beginPos, endPos, n);
      beginPos := beginPos + 1;
      if beginPos == n {
        DropFirst();
      }
    }

    /** The first chunk, now unused, becomes the spare one, and the spare one is freed. */
    method DropFirst()
      requires |chunks| > 1 && beginChunk == chunks[0] && endChunk == chunks[|chunks| - 1]
      requires endPos < n == beginPos && Partitioned() && Linked() && BackIsLast()
      requires forall c :: c in Owned() ==> |c.values| == n
      modifies `beginChunk, `beginPos, `spareChunk, `chunks, `freed, Owned()
      ensures Valid() && forall c :: c in old(Owned()) ==> c.values == old(c.values)
      ensures chunks == old(chunks)[1..] && beginPos == 0
      ensures old(freed) <= freed
    {
      var o := beginChunk;
      PartitionSpare(chunks, Spare(), freed, taken);
      assert o.next == chunks[1];
      beginChunk := o.next;
      beginChunk.prev := null;
      beginPos := 0;
      chunks := chunks[1..];
      var cs := spareChunk;
      spareChunk := o;
      if cs != null {
        freed := freed + {cs};
      }
    }

    method MoveBack()
      requires Valid() && Elements() != []
      modifies this, Owned()
      ensures Valid() && forall c :: c in old(Owned()) ==> c.values == old(c.values)
      ensures Elements() == old(Elements())[..|old(Elements())| - 1]
      ensures old(freed) <= freed && taken == old(taken)
    {
      NonEmpty();
      if endPos > 0 {
        MoveBackInChunk();
      } else {
        MoveBackToPrevious();
      }
    }

    method MoveBackInChunk()
      requires Valid() && endPos > 0 && (|chunks| > 1 || beginPos < endPos)
      modifies `endPos, `backChunk, `backPos
      ensures Valid() && Elements() == old(Elements())[..|old(Elements())| - 1]
    {
      SlotsPush(chunks, beginPos, endPos - 1, n);
      StepBack();
      endPos := endPos - 1;
    }

    method MoveBackToPrevious()
      requires Valid() && endPos == 0 && |chunks| > 1
      modifies this, Owned()
      ensures Valid() && forall c :: c in old(Owned()) ==> c.values == old(c.values)
      ensures Elements() == old(Elements())[..|old(Elements())| - 1]
      ensures old(freed) <= freed && taken == old(taken)
    {
      SlotsShrink(chunks, beginPos, n);
      StepBack();
      DropLast();
    }

    /** Moves `back` one slot back; what it points to counts only if an element is left. */
    method StepBack()
      requires chunks != [] && (|chunks| > 1 || beginPos < endPos) && endPos < n && BackIsLast() && Linked()
      modifies `backChunk, `backPos
      ensures endPos > 1 ==> backChunk == chunks[|chunks| - 1] && backPos == endPos - 2
      ensures endPos == 1 && |chunks| > 1 ==> backChunk == chunks[|chunks| - 2] && backPos == n - 1
      ensures endPos == 0 && n > 1 ==> backChunk == chunks[|chunks| - 2] && backPos == n - 2
      ensures endPos == 0 && n == 1 && |chunks| > 2 ==> backChunk == chunks[|chunks| - 3] && backPos == 0
    {
      if backPos > 0 {
        backPos := backPos - 1;
      } else {
        backPos := n - 1;
        backChunk := backChunk.prev;
      }
    }

    ghost function BeforeLast(): Chunk<T>
      requires |chunks| > 1
      reads `chunks
    {
      chunks[|chunks| - 2]
    }

    /** The last chunk, which holds no element, is freed, and the one before it is full. */
    method DropLast()
      requires |chunks| > 1 && beginChunk == chunks[0] && endChunk == chunks[|chunks| - 1]
      requires beginPos < n && endPos == 0 && Partitioned() && Linked()
      requires forall c :: c in Owned() ==> |c.values| == n
      requires n > 1 ==> backChunk == chunks[|chunks| - 2] && backPos == n - 2
      requires n == 1 && |chunks| > 2 ==> backChunk == chunks[|chunks| - 3] && backPos == 0
      modifies `endChunk, `endPos, `chunks, `freed, BeforeLast()`next
      ensures Valid() && chunks == old(chunks)[..|old(chunks)| - 1] && endPos == n - 1
      ensures old(freed) <= freed
    {
      ghost var m := |chunks| - 1;
      assert chunks[m - 1].next == chunks[m] && chunks[m].prev == chunks[m - 1];
      PartitionFree(chunks, Spare(), freed, taken);
      endPos := n - 1;
      endChunk := endChunk.prev;
      freed := freed + {chunks[m]};
      chunks := chunks[..m];
      endChunk.next := null;
    }

    /** The oldest element. */
    method Front() returns (v: T)
      requires Valid() && Elements() != []
      ensures v == Elements()[0].chunk.values[Elements()[0].pos]
    {
      NonEmpty();
      SlotsPopIfAny();
      v := beginChunk.values[beginPos];
    }

    /** Writes the newest element; no other element changes. */
    method SetBack(v: T)
      requires Valid() && Elements() != []
      modifies backChunk`values
      ensures Valid() && Elements() == old(Elements())
      ensures |old(Contents())| > 0 && Contents() == old(Contents())[..|old(Contents())| - 1] + [v]
    {
      ghost var es, before := Elements(), Contents();
      LastIsBack();
      SlotsDistinct(chunks, beginPos, endPos, n);
      ContentsAt();
      backChunk.values := backChunk.values[backPos := v];
      ContentsAt();
      forall i | 0 <= i < |es| - 1 ensures Contents()[i] == before[i] {
        assert es[i] != es[|es| - 1];
      }
      LastChanged(before, Contents(), v);
    }

    lemma LastIsBack()
      requires Valid() && Elements() != []
      ensures backChunk != null && backChunk in chunks && Elements()[|Elements()| - 1] == Slot(backChunk, backPos)
    {
      NonEmpty();
      if endPos > 0 {
        SlotsPush(chunks, beginPos, endPos - 1, n);
      } else {
        SlotsShrink(chunks, beginPos, n);
      }
    }

    /** Destroying the queue frees every chunk that is left, once. */
    method Destroy()
      requires Valid()
      modifies `beginChunk, `chunks, `spareChunk, `freed
      ensures freed == taken && chunks == [] && spareChunk == null
    {
      while beginChunk != endChunk
        invariant chunks != [] && beginChunk == chunks[0] && endChunk == chunks[|chunks| - 1]
        invariant Partitioned() && Linked()
        decreases |chunks|
      {
        var o := beginChunk;
        PartitionFree(chunks, Spare(), freed, taken);
        assert o.next == chunks[1];
        beginChunk := o.next;
        freed := freed + {o};
        chunks := chunks[1..];
      }
      assert |chunks| == 1;
      freed := freed + {beginChunk};
      chunks := [];
      var sc := spareChunk;
      spareChunk := null;
      if sc != null {
        freed := freed + {sc};
      }
    }
  }
}
