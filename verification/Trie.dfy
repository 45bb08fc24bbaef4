/** The subscription trie: nodes with a table of children over a range of characters, changed in place. */
module Trie {
  import opened Bytes

  /** `n` empty slots. */
  function Nulls(n: nat): seq<Node?> { seq(n, _ => null) }

  function Live(next: seq<Node?>): nat {
    if next == [] then 0 else (if next[0] == null then 0 else 1) + Live(next[1..])
  }

  lemma {:induction false} LiveConcat(a: seq<Node?>, b: seq<Node?>)
    ensures Live(a + b) == Live(a) + Live(b)
  {
    if a == [] {
      assert a + b == b;
    } else {
      LiveConcat(a[1..], b);
      assert (a + b)[1..] == a[1..] + b;
    }
  }

  lemma {:induction false} LiveNulls(n: nat)
    ensures Live(Nulls(n)) == 0
  {
    if n > 0 {
      LiveNulls(n - 1);
      assert Nulls(n)[1..] == Nulls(n - 1);
    }
  }

  lemma LiveUpdate(next: seq<Node?>, i: nat, node: Node?)
    requires i < |next|
    ensures Live(next[i := node]) == Live(next) - (if next[i] == null then 0 else 1) + if node == null then 0 else 1
  {
    LiveConcat(next[..i], next[i..]);
    LiveConcat(next[..i], next[i := node][i..]);
    assert next == next[..i] + next[i..] && next[i := node] == next[..i] + next[i := node][i..];
    assert next[i := node][i..][1..] == next[i..][1..];
  }

  lemma {:induction false} NoneLive(next: seq<Node?>)
    ensures Live(next) == 0 <==> forall i :: 0 <= i < |next| ==> next[i] == null
  {
    if next != [] {
      NoneLive(next[1..]);
      assert forall i :: 1 <= i < |next| ==> next[i] == next[1..][i - 1];
    }
  }

  class Node {
    var refcnt: nat
    var min: Byte
    // One slot for each character from min on. The source keeps a single slot in the pointer itself.
    var next: seq<Node?>
    var liveNodes: nat
    ghost var Repr: set<Node>

    /** The child for character `c`. */
    function Child(c: Byte): Node?
      reads this
    {
      if min <= c < min + |next| then next[c - min] else null
    }

    ghost predicate Redundant()
      reads this
    {
      refcnt == 0 && liveNodes == 0
    }

    /** The children are separate tries of their own and are counted. */
    ghost predicate Sound()
      reads this, Repr
      decreases Repr, 0
    {
      && this in Repr
      && min + |next| <= 256
      && liveNodes == Live(next)
      && (forall c: Byte :: Child(c) != null ==>
            Child(c) in Repr && Child(c).Repr < Repr && this !in Child(c).Repr && Child(c).Valid())
      && (forall c: Byte, d: Byte :: c != d && Child(c) != null && Child(d) != null ==> Child(c).Repr !! Child(d).Repr)
    }

    /** Every child is worth keeping, and a lone slot holds a child. */
    ghost predicate Valid()
      reads this, Repr
      ensures Valid() ==> Sound()
      decreases Repr, 1
    {
      && Sound()
      && (forall c: Byte :: Child(c) != null ==> !Child(c).Redundant())
      && (|next| == 1 ==> next[0] != null)
    }

    /** How many copies of `w` are stored below this node. */
    ghost function Copies(w: seq<Byte>): nat
      requires Sound()
      reads this, Repr
      decreases |w|
    {
      if w == [] then refcnt
      else if Child(w[0]) != null then Child(w[0]).Copies(w[1..])
      else 0
    }

    constructor ()
      ensures Valid() && fresh(Repr) && Repr == {this} && Redundant()
      ensures forall w :: Copies(w) == 0
    {
      refcnt, min, next, liveNodes := 0, 0, [], 0;
      Repr := {this};
    }

    /** Nothing below this node changed, and the characters lead to the same children. */
    twostate predicate SameBelow()
      reads this, Repr
    {
      && Repr == old(Repr)
      && (forall d: Byte :: Child(d) == old(Child(d)))
      && (forall n: Node :: n in Repr && n != this ==> unchanged(n))
    }

    /** The words stored below depend on the children only, not on how the table is laid out. */
    twostate lemma LayoutDoesNotMatter()
      requires old(Sound()) && SameBelow()
      requires liveNodes == Live(next) && min + |next| <= 256
      ensures Sound()
      ensures forall d: Byte :: Child(d) != null ==> Child(d).Redundant() == old(Child(d).Redundant())
      ensures forall w :: w != [] ==> Copies(w) == old(Copies(w))
    {
      forall d: Byte | Child(d) != null
        ensures Child(d).Valid() && Child(d).Redundant() == old(Child(d).Redundant()) && Child(d).Repr == old(Child(d).Repr)
        ensures forall w :: Child(d).Copies(w) == old(Child(d).Copies(w))
      {
        assert Child(d) == old(Child(d));
        assert forall n: Node :: n in old(Child(d).Repr) ==> unchanged(n);
      }
    }

    /** A redundant trie holds no word. */
    lemma RedundantIsEmpty(w: seq<Byte>)
      requires Sound() && Redundant()
      ensures Copies(w) == 0
    {
      NoneLive(next);
    }

    /** The other way round, a trie that is not redundant holds some word: pruning leaves no dead branch. */
    lemma UsefulHoldsWord() returns (w: seq<Byte>)
      requires Valid() && !Redundant()
      ensures Copies(w) > 0
      decreases Repr
    {
      if refcnt > 0 {
        w := [];
      } else {
        NoneLive(next);
        var i :| 0 <= i < |next| && next[i] != null;
        var c: Byte := min + i;
        assert Child(c) == next[i];
        var v := Child(c).UsefulHoldsWord();
        w := [c] + v;
        assert w[1..] == v;
      }
    }

    /** Makes room for character `c`; no child moves to another character. */
    method Extend(c: Byte)
      requires Valid() && !(min <= c < min + |next|)
      modifies this`min, this`next
      ensures Sound() && min <= c < min + |next|
      ensures forall d: Byte :: Child(d) == old(Child(d))
      ensures |next| == 1 ==> min == c
      ensures forall w :: Copies(w) == old(Copies(w))
    {
      if next == [] {
        min, next := c, [null];
      } else if c < min {
        var gap: nat := min - c;
        LiveNulls(gap);
        LiveConcat(Nulls(gap), next);
        next := Nulls(gap) + next;
        min := c;
      } else {
        var gap: nat := c - min + 1 - |next|;
        LiveNulls(gap);
        LiveConcat(next, Nulls(gap));
        next := next + Nulls(gap);
      }
      LayoutDoesNotMatter();
    }

    /** Puts a new, empty child at `c`. */
    method CreateChild(c: Byte)
      requires Sound() && min <= c < min + |next| && Child(c) == null
      modifies this`next, this`liveNodes, this`Repr
      ensures Sound() && Child(c) != null && min == old(min) && |next| == |old(next)|
      ensures fresh(Repr - old(Repr)) && liveNodes > 0
      ensures forall d: Byte :: d != c ==> Child(d) == old(Child(d))
      ensures forall w :: Copies(w) == old(Copies(w))
    {
      var child := new Node();
      LiveUpdate(next, c - min, child);
      next := next[c - min := child];
      liveNodes := liveNodes + 1;
      Repr := Repr + {child};
      forall d: Byte | d != c && Child(d) != null
        ensures Child(d) == old(Child(d)) && Child(d).Repr == old(Child(d).Repr)
        ensures Child(d) in Repr && Child(d).Repr < Repr && this !in Child(d).Repr && Child(d).Valid() && Child(d).Repr !! {child}
        ensures forall w :: Child(d).Copies(w) == old(Child(d).Copies(w))
      {
        assert Child(d) == old(Child(d));
      }
      assert Child(c) == child;
    }

    /** Adds one copy of `w`. */
    method Add(w: seq<Byte>)
      requires Valid()
      modifies Repr
      ensures Valid() && fresh(Repr - old(Repr)) && !Redundant()
      ensures forall v :: Copies(v) == old(Copies(v)) + if v == w then 1 else 0
      decreases |w|, 0
    {
      if w == [] {
        refcnt := refcnt + 1;
        LayoutDoesNotMatter();
        return;
      }
      var c := w[0];
      if !(min <= c < min + |next|) {
        Extend(c);
      }
      if next[c - min] == null {
        CreateChild(c);
      }
      assert Child(c) != null;
      AddBelow(c, w[1..]);
      assert w == [c] + w[1..];
    }

    method AddBelow(c: Byte, w: seq<Byte>)
      requires Sound() && Child(c) != null && (|next| == 1 ==> min == c)
      requires forall d: Byte :: d != c && Child(d) != null ==> !Child(d).Redundant()
      modifies Repr
      ensures Valid() && fresh(Repr - old(Repr)) && !Redundant()
      ensures forall v :: Copies(v) == old(Copies(v)) + if v == [c] + w then 1 else 0
      decreases |w|, 2
    {
      AddToChild(c, w);
      ChildIsLive(c);
      CopiesBelow(c);
      forall v: seq<Byte> | v != [] && v[0] == c ensures v == [c] + w <==> v[1..] == w {
        assert v == [c] + v[1..];
      }
    }

    /** The child gets the word; the other children keep theirs. */
    method AddToChild(c: Byte, w: seq<Byte>)
      requires Sound() && Child(c) != null
      modifies Repr
      ensures Sound() && fresh(Repr - old(Repr)) && unchanged(this`refcnt, this`min, this`next, this`liveNodes)
      ensures !Child(c).Redundant() && forall v :: Child(c).Copies(v) == old(Child(c).Copies(v)) + if v == w then 1 else 0
      ensures forall d: Byte :: d != c && Child(d) != null ==> forall v :: Child(d).Copies(v) == old(Child(d).Copies(v))
      ensures forall d: Byte :: d != c && Child(d) != null ==> Child(d).Redundant() == old(Child(d).Redundant())
      decreases |w|, 1
    {
      var child := Child(c);
      child.Add(w);
      Repr := Repr + child.Repr;
      ChangedBelow(c);
    }

    /** Only words that start with `c` can have changed. */
    twostate lemma CopiesBelow(c: Byte)
      requires old(Sound()) && Sound() && old(Child(c)) != null && Child(c) != null
      requires unchanged(this`refcnt, this`min, this`next)
      requires forall d: Byte :: d != c && Child(d) != null ==> forall w :: Child(d).Copies(w) == old(Child(d).Copies(w))
      ensures forall v :: Copies(v) == if v != [] && v[0] == c then Child(c).Copies(v[1..]) else old(Copies(v))
    {
    }

    lemma ChildIsLive(c: Byte)
      requires Child(c) != null
      ensures Live(next) > 0
    {
      NoneLive(next);
    }

    /** Only the trie below `c` changed, and it stayed separate from the rest. */
    twostate lemma ChangedBelow(c: Byte)
      requires old(Sound()) && old(Child(c)) != null
      requires unchanged(this`refcnt, this`min, this`next, this`liveNodes)
      requires Child(c).Valid() && fresh(Child(c).Repr - old(Child(c).Repr)) && this !in Child(c).Repr
      requires Repr == old(Repr) + Child(c).Repr
      requires forall n: Node :: n in old(Repr) && n != this && n !in old(Child(c).Repr) ==> unchanged(n)
      ensures Sound()
      ensures forall d: Byte :: d != c && Child(d) != null ==> forall w :: Child(d).Copies(w) == old(Child(d).Copies(w))
      ensures forall d: Byte :: d != c && Child(d) != null ==> Child(d).Redundant() == old(Child(d).Redundant())
    {
      forall d: Byte | d != c && Child(d) != null
        ensures Child(d) == old(Child(d)) && Child(d).Valid() && Child(d).Repr == old(Child(d).Repr)
        ensures Child(d).Redundant() == old(Child(d).Redundant())
        ensures forall w :: Child(d).Copies(w) == old(Child(d).Copies(w))
      {
        assert old(Child(d).Repr) !! old(Child(c).Repr);
        assert forall n: Node :: n in old(Child(d).Repr) ==> unchanged(n);
      }
    }

    /** Takes back one copy of `w`; false, and nothing changes, when there is none. */
    method Rm(w: seq<Byte>) returns (removed: bool)
      requires Valid()
      modifies Repr
      ensures Valid() && Repr <= old(Repr)
      ensures removed <==> old(Copies(w)) > 0
      ensures forall v :: Copies(v) == old(Copies(v)) - if removed && v == w then 1 else 0
      ensures !removed ==> unchanged(old(Repr))
      decreases |w|, 0
    {
      if w == [] {
        if refcnt == 0 {
          return false;
        }
        refcnt := refcnt - 1;
        LayoutDoesNotMatter();
        return true;
      }
      var c := w[0];
      assert w == [c] + w[1..];
      if !(min <= c < min + |next|) {
        return false;
      }
      if next[c - min] == null {
        return false;
      }
      removed := RmBelow(c, w[1..]);
    }

    method RmBelow(c: Byte, w: seq<Byte>) returns (removed: bool)
      requires Valid() && Child(c) != null
      modifies Repr
      ensures Valid() && Repr <= old(Repr)
      ensures removed <==> old(Copies([c] + w)) > 0
      ensures forall v :: Copies(v) == old(Copies(v)) - if removed && v == [c] + w then 1 else 0
      ensures !removed ==> unchanged(old(Repr))
      decreases |w|, 1
    {
      var child := Child(c);
      assert ([c] + w)[1..] == w;
      removed := child.Rm(w);
      ChangedBelow(c);
      forall v ensures Copies(v) == old(Copies(v)) - if removed && v == [c] + w then 1 else 0 {
        if v != [] && v[0] == c {
          assert v == [c] + v[1..];
        }
      }
      if child.refcnt == 0 && child.liveNodes == 0 {
        Prune(c);
      }
    }

    /** Drops a child that holds nothing. */
    method Prune(c: Byte)
      requires Sound() && Child(c) != null && Child(c).Redundant()
      requires forall d: Byte :: d != c && Child(d) != null ==> !Child(d).Redundant()
      modifies this
      ensures Valid() && Repr <= old(Repr)
      ensures forall v :: Copies(v) == old(Copies(v))
    {
      LiveUpdate(next, c - min, null);
      forall w ensures Child(c).Copies(w) == 0 { Child(c).RedundantIsEmpty(w); }
      if |next| == 1 {
        next := [];
      } else {
        next := next[c - min := null];
      }
      liveNodes := liveNodes - 1;
      forall d: Byte | Child(d) != null
        ensures d != c && Child(d) == old(Child(d)) && Child(d).Valid() && Child(d).Redundant() == old(Child(d).Redundant())
        ensures forall w :: Child(d).Copies(w) == old(Child(d).Copies(w))
      {
        assert d != c && Child(d) == old(Child(d));
      }
    }

    /** Going down one character. */
    lemma StepDown(w: seq<Byte>)
      requires Sound() && w != []
      ensures Copies(w) == if Child(w[0]) == null then 0 else Child(w[0]).Copies(w[1..])
    {
    }

    /** True exactly when some stored word is a prefix of `data`. */
    method Check(data: seq<Byte>) returns (found: bool)
      requires Valid()
      ensures found <==> exists k :: 0 <= k <= |data| && Copies(data[..k]) > 0
    {
      var current: Node, i := this, 0;
      while true
        invariant 0 <= i <= |data| && current.Valid()
        invariant forall k :: 0 <= k < i ==> Copies(data[..k]) == 0
        invariant forall k :: i <= k <= |data| ==> Copies(data[..k]) == current.Copies(data[i..k])
        decreases |data| - i
      {
        assert Copies(data[..i]) == current.refcnt by {
          assert data[i..i] == [];
        }
        if current.refcnt != 0 {
          return true;
        }
        if i == |data| {
          return false;
        }
        var c := data[i];
        forall k | i < k <= |data|
          ensures Copies(data[..k]) == if current.Child(c) == null then 0 else current.Child(c).Copies(data[i + 1..k])
        {
          current.StepDown(data[i..k]);
          assert data[i..k][1..] == data[i + 1..k];
        }
        if !(current.min <= c < current.min + |current.next|) {
          return false;
        }
        assert current.Child(c) == current.next[c - current.min];
        if |current.next| == 1 {
          current := current.next[0];
        } else {
          if current.next[c - current.min] == null {
            return false;
          }
          current := current.next[c - current.min];
        }
        i := i + 1;
      }
    }
  }
}
