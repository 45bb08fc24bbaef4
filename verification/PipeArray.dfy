/** The array of pipes in which every pipe knows its own position. */
module PipeArray {
  import opened Bytes
  import opened Wrappers

  function Swapped<P>(s: seq<P>, i: nat, j: nat): (t: seq<P>)
    requires i < |s| && j < |s|
    ensures |t| == |s|
  {
    s[i := s[j]][j := s[i]]
  }

  /** The last item takes the place of the one at `i`. */
  function Erased<P>(s: seq<P>, i: nat): (t: seq<P>)
    requires i < |s|
    ensures |t| == |s| - 1
  {
    s[i := s[|s| - 1]][..|s| - 1]
  }

  /** Swapping twice is no change, and only the two places are touched. */
  lemma SwappedPlaces<P>(s: seq<P>, i: nat, j: nat)
    requires i < |s| && j < |s|
    ensures Swapped(Swapped(s, i, j), i, j) == s
    ensures Swapped(s, i, j)[i] == s[j] && forall k :: 0 <= k < |s| && k != i && k != j ==> Swapped(s, i, j)[k] == s[k]
  {
  }

  /** Every item that stays is where it was, but for the last one, which fills the gap. */
  lemma ErasedPlaces<P>(s: seq<P>, i: nat, k: nat)
    requires i < |s| && k < |s| && k != i
    ensures var t := Erased(s, i); if k < |t| then t[k] == s[k] else t[i] == s[k]
  {
  }

  lemma SwappedMembers<P>(s: seq<P>, i: nat, j: nat)
    requires i < |s| && j < |s|
    ensures forall p :: p in Swapped(s, i, j) <==> p in s
    ensures Distinct(s) ==> Distinct(Swapped(s, i, j))
  {
    var t := Swapped(s, i, j);
    forall p ensures p in t <==> p in s {
      if p in s {
        var k :| 0 <= k < |s| && s[k] == p;
        assert t[if k == i then j else if k == j then i else k] == p;
      }
    }
  }

  lemma ErasedMembers<P>(s: seq<P>, i: nat)
    requires i < |s| && Distinct(s)
    ensures Distinct(Erased(s, i))
    ensures forall p :: p in Erased(s, i) <==> p in s && p != s[i]
  {
    var t := Erased(s, i);
    forall p ensures p in t <==> p in s && p != s[i] {
      if p in s && p != s[i] {
        var k :| 0 <= k < |s| && s[k] == p;
        assert t[if k == |s| - 1 then i else k] == p;
      }
    }
  }

  /**
   * One end of a pipe as a scheduler sees it: for an inbound pipe `parts` can be read, for an outbound
   * one they were written, and it refuses more while it is full.
   */
  class Pipe {
    var arrayIndex: int
    var parts: seq<Message>
    var full: bool

    constructor ()
      ensures arrayIndex == -1 && parts == [] && !full
    {
      arrayIndex, parts, full := -1, [], false;
    }
  }

  class PipeArray {
    var items: seq<Pipe>

    /** Every stored pipe knows its position; so none is stored twice. */
    ghost predicate Valid()
      reads this, items
    {
      forall i :: 0 <= i < |items| ==> items[i].arrayIndex == i
    }

    /** What every pipe holds. */
    ghost function Parts(): map<Pipe, seq<Message>>
      reads this, items
    {
      map p | p in items :: p.parts
    }

    ghost function Full(): set<Pipe>
      reads this, items
    {
      set p | p in items && p.full
    }

    constructor ()
      ensures Valid() && items == []
    {
      items := [];
    }

    method PushBack(p: Pipe)
      requires Valid() && p !in items
      modifies this, p`arrayIndex
      ensures Valid() && items == old(items) + [p] && Parts() == old(Parts())[p := p.parts]
    {
      p.arrayIndex := |items|;
      items := items + [p];
    }

    method Take(p: Pipe) returns (m: Message)
      requires p in items && p.parts != []
      modifies p`parts
      ensures m == old(p.parts)[0] && Parts() == old(Parts())[p := old(p.parts)[1..]]
    {
      m := p.parts[0];
      p.parts := p.parts[1..];
    }

    method Put(p: Pipe, m: Message)
      requires p in items
      modifies p`parts
      ensures Parts() == old(Parts())[p := old(p.parts) + [m]] && Full() == old(Full())
    {
      p.parts := p.parts + [m];
    }

    method Index(p: Pipe) returns (i: nat)
      requires Valid() && p in items
      ensures i < |items| && items[i] == p
    {
      i := p.arrayIndex;
    }

    method Erase(p: Pipe)
      requires Valid() && p in items
      modifies this, items
      ensures Valid() && items == Erased(old(items), old(p.arrayIndex))
      ensures Parts() == old(Parts()) - {p}
    {
      ErasedMembers(items, p.arrayIndex);
      var i := p.arrayIndex;
      var last := |items| - 1;
      items[last].arrayIndex := i;
      items := items[i := items[last]][..last];
      assert forall q :: q in old(items) ==> q.parts == old(q.parts);
    }

    /** `PushBack` and a swap of the new last item with the one at `i`. */
    method Insert(p: Pipe, i: nat)
      requires Valid() && p !in items && i <= |items|
      modifies this, items, p
      ensures Valid() && items == Swapped(old(items) + [p], i, |old(items)|)
      ensures Parts() == old(Parts())[p := old(p.parts)]
    {
      var n := |items|;
      PushBack(p);
      Swap(i, n);
    }

    /** Two swaps one after the other. */
    method SwapTwice(i: nat, j: nat, k: nat)
      requires Valid() && i < |items| && j < |items| && k < |items|
      modifies this, items
      ensures Valid() && items == Swapped(Swapped(old(items), i, j), j, k)
      ensures Parts() == old(Parts()) && Full() == old(Full())
      ensures forall l :: 0 <= l < |items| ==> items[l] in old(items)
    {
      Swap(i, j);
      assert forall l :: 0 <= l < |items| ==> items[l] in old(items);
      Swap(j, k);
    }

    method Swap(i: nat, j: nat)
      requires Valid() && i < |items| && j < |items|
      modifies this, items
      ensures Valid() && items == Swapped(old(items), i, j)
      ensures Parts() == old(Parts()) && Full() == old(Full()) && (forall p :: p in items <==> p in old(items))
    {
      SwappedMembers(items, i, j);
      items[i].arrayIndex := j;
      items[j].arrayIndex := i;
      items := items[i := items[j]][j := items[i]];
    }
  }
}
