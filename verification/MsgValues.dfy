/**
 * What the users of messages see: the bytes of each message and its MORE flag. That long messages share
 * their contents does not show: every message behaves as if it had its own bytes.
 */
module MsgValues {
  import opened Bytes
  import opened Wrappers
  import opened MsgContent

  datatype Value = Nothing | Bytes(more: bool, data: seq<Byte>) | Mark

  /** An invalid message has no bytes; a delimiter is only told from others. */
  function ValueOf(s: Store, h: nat): Value
    requires h < |s.handles| && (s.handles[h].body.Long? ==> s.handles[h].body.id < |s.contents|)
  {
    var x := s.handles[h];
    if !Tagged(x.flags) then Nothing
    else
      match x.body
      case Vsm(data) => Value.Bytes(HasMore(x.flags), data)
      case Long(id) => Value.Bytes(HasMore(x.flags), s.contents[id].data)
      case Delimiter => Mark
  }

  ghost function Values(s: Store): seq<Value>
    requires Linked(s)
  {
    seq(|s.handles|, h requires 0 <= h < |s.handles| => ValueOf(s, h))
  }

  /** The operations on messages that share nothing. A message copied to itself is lost. */
  ghost function Plain(vs: seq<Value>, step: Step): seq<Value>
    requires match step
      case Move(dest, src) => dest < |vs| && src < |vs|
      case Copy(dest, src) => dest < |vs| && src < |vs|
      case _ => step.h < |vs|
  {
    match step
    case InitSmall(h, data) => vs[h := Value.Bytes(false, data)]
    case InitLong(h, data) => vs[h := Value.Bytes(false, data)]
    case Close(h) => vs[h := Nothing]
    case Move(dest, src) => vs[dest := vs[src]][src := Value.Bytes(false, [])]
    case Copy(dest, src) =>
      if vs[dest] == Nothing || vs[src] == Nothing then vs
      else if dest == src then vs[dest := Nothing]
      else vs[dest := vs[src]]
  }

  ghost function PlainRun(n: nat, steps: seq<Step>): Option<seq<Value>> {
    if steps == [] then Some(seq(n, _ => Nothing))
    else
      match PlainRun(n, steps[..|steps| - 1])
      case None => None
      case Some(vs) => if InRange(|vs|, steps[|steps| - 1]) then Some(Plain(vs, steps[|steps| - 1])) else None
  }

  predicate InRange(n: nat, step: Step) {
    match step
    case Move(dest, src) => dest < n && src < n
    case Copy(dest, src) => dest < n && src < n
    case _ => step.h < n
  }

  /** Contents keep their bytes; they may get more holders or lose some. */
  ghost predicate SameData(s: Store, t: Store) {
    |s.contents| <= |t.contents| && forall c :: 0 <= c < |s.contents| ==> t.contents[c].data == s.contents[c].data
  }

  lemma CloseValues(s: Store, h: nat)
    requires Linked(s) && h < |s.handles|
    ensures var t := Closed(s, h);
      Linked(t) && SameData(s, t) && Values(t) == Values(s)[h := Nothing]
  {
    var t := Closed(s, h);
    forall k | 0 <= k < |s.handles| && k != h ensures ValueOf(t, k) == ValueOf(s, k) { assert t.handles[k] == s.handles[k]; }
  }

  lemma SetValues(s: Store, h: nat, x: Handle)
    requires Linked(s) && h < |s.handles| && (x.body.Long? ==> x.body.id < |s.contents|)
    ensures Linked(Set(s, h, x)) && Values(Set(s, h, x)) == Values(s)[h := ValueOf(Set(s, h, x), h)]
  {
  }

  lemma MoveValues(s: Store, dest: nat, src: nat)
    requires Linked(s) && dest < |s.handles| && src < |s.handles|
    ensures var t := Moved(s, dest, src); Linked(t) && Values(t) == Plain(Values(s), Move(dest, src))
  {
    CloseValues(s, dest);
    var t := Closed(s, dest);
    SetValues(t, dest, t.handles[src]);
    SetValues(Set(t, dest, t.handles[src]), src, EMPTY);
  }

  lemma ShareValues(s: Store, h: nat, n: nat)
    requires Linked(s) && h < |s.handles| && s.handles[h].body.Long?
    ensures var t := MadeShared(s, h, n);
      && Linked(t) && SameData(s, t) && Values(t) == Values(s)
      && t.handles[h].body == s.handles[h].body && (Tagged(t.handles[h].flags) <==> Tagged(s.handles[h].flags))
      && HasMore(t.handles[h].flags) == HasMore(s.handles[h].flags)
  {
  }

  lemma CopyValues(s: Store, dest: nat, src: nat)
    requires Linked(s) && dest < |s.handles| && src < |s.handles|
    ensures var t := Copied(s, dest, src); Linked(t) && Values(t) == Plain(Values(s), Copy(dest, src))
  {
    if Tagged(s.handles[dest].flags) && Tagged(s.handles[src].flags) {
      CloseValues(s, dest);
      var t := Closed(s, dest);
      if t.handles[src].body.Long? { ShareValues(t, src, 1); }
      var u := if t.handles[src].body.Long? then MadeShared(t, src, 1) else t;
      SetValues(u, dest, u.handles[src]);
    }
  }

  lemma StepValues(s: Store, step: Step)
    requires Linked(s) && Enabled(s, step)
    ensures Linked(Apply(s, step)) && InRange(|s.handles|, step) && Values(Apply(s, step)) == Plain(Values(s), step)
  {
    match step
    case InitSmall(h, data) => SetValues(s, h, Handle(INIT_FLAGS, Vsm(data)));
    case InitLong(h, data) =>
    case Close(h) => CloseValues(s, h);
    case Move(dest, src) => MoveValues(s, dest, src);
    case Copy(dest, src) => CopyValues(s, dest, src);
  }

  /**
   * After any operations each message has the bytes and the flag that it would have if every message had
   * bytes of its own, and the content of a valid message has not been freed.
   */
  lemma {:induction false} SharingDoesNotShow(n: nat, steps: seq<Step>)
    requires Run(n, steps).Some?
    ensures var s := Run(n, steps).value;
      && Linked(s) && PlainRun(n, steps) == Some(Values(s))
      && forall h :: 0 <= h < |s.handles| && HasContent(s, h) ==> s.contents[s.handles[h].body.id].frees == 0
  {
    var s := Run(n, steps).value;
    CountsAreRight(n, steps);
    if steps == [] {
      assert Values(s) == seq(n, _ => Nothing);
    } else {
      SharingDoesNotShow(n, steps[..|steps| - 1]);
      StepValues(Run(n, steps[..|steps| - 1]).value, steps[|steps| - 1]);
    }
    forall h | 0 <= h < |s.handles| && HasContent(s, h) ensures s.contents[s.handles[h].body.id].frees == 0 {
      CountHeld(s.handles, h, s.handles[h].body.id);
      assert Kept(s, s.handles[h].body.id);
    }
  }

  // ---- Handing one message to several pipes

  /** Each pipe that accepts gets a message with the same bytes. */
  ghost predicate Handed(s: Store, t: Store, h: nat, n: nat)
    requires Linked(s) && h < |s.handles|
  {
    && Linked(t) && SameData(s, t) && |t.handles| == |s.handles| + n
    && (forall k :: 0 <= k < |s.handles| ==> ValueOf(t, k) == ValueOf(s, k))
    && (forall k :: |s.handles| <= k < |t.handles| ==> ValueOf(t, k) == ValueOf(s, h))
  }

  lemma HandedMore(s: Store, t: Store, u: Store, h: nat, n: nat, more: nat)
    requires Linked(s) && h < |s.handles| && Handed(s, t, h, n) && Linked(u) && Handed(t, u, h, more)
    ensures Handed(s, u, h, n + more)
  {
  }

  lemma AppendedHands(s: Store, h: nat)
    requires Linked(s) && h < |s.handles|
    ensures Linked(Appended(s, h)) && Handed(s, Appended(s, h), h, 1)
  {
  }

  lemma {:induction false} PushedHands(s: Store, h: nat, oks: seq<bool>)
    requires Linked(s) && HasContent(s, h)
    ensures Linked(Pushed(s, h, oks)) && Handed(s, Pushed(s, h, oks), h, Accepting(oks))
    decreases |oks|
  {
    if oks != [] {
      var n := |oks| - 1;
      PushedHands(s, h, oks[..n]);
      PushedSnoc(s, h, oks[..n], oks[n]);
      AcceptingSnoc(oks[..n], oks[n]);
      assert oks == oks[..n] + [oks[n]];
      var t := Pushed(s, h, oks[..n]);
      if oks[n] {
        AppendedHands(t, h);
        HandedMore(s, t, Appended(t, h), h, Accepting(oks[..n]), 1);
      } else {
        RefusalHands(t, h);
        HandedMore(s, t, AddRef(t, s.handles[h].body.id, -1), h, Accepting(oks[..n]), 0);
      }
    }
  }

  lemma RefusalHands(s: Store, h: nat)
    requires Linked(s) && HasContent(s, h)
    ensures var t := AddRef(s, s.handles[h].body.id, -1); Linked(t) && Handed(s, t, h, 0)
  {
  }

  lemma {:induction false} AppendedToHands(s: Store, h: nat, oks: seq<bool>)
    requires Linked(s) && h < |s.handles|
    ensures Linked(AppendedTo(s, h, oks)) && Handed(s, AppendedTo(s, h, oks), h, Accepting(oks))
    decreases |oks|
  {
    if oks != [] {
      var n := |oks| - 1;
      AppendedToHands(s, h, oks[..n]);
      AppendedToSnoc(s, h, oks[..n], oks[n]);
      AcceptingSnoc(oks[..n], oks[n]);
      assert oks == oks[..n] + [oks[n]];
      var t := AppendedTo(s, h, oks[..n]);
      if oks[n] {
        AppendedHands(t, h);
        HandedMore(s, t, Appended(t, h), h, Accepting(oks[..n]), 1);
      }
    }
  }

  /**
   * However the message is handed out: exactly the pipes that accept get a message of their own with its
   * bytes and its flag, the sender's is empty, and no other message changes.
   */
  lemma DistributeValues(s: Store, h: nat, oks: seq<bool>)
    requires Linked(s) && h < |s.handles| && Tagged(s.handles[h].flags)
    ensures var t := Distributed(s, h, oks);
      && Linked(t) && |t.handles| == |s.handles| + Accepting(oks)
      && ValueOf(t, h) == Value.Bytes(false, [])
      && (forall k :: 0 <= k < |s.handles| && k != h ==> ValueOf(t, k) == ValueOf(s, k))
      && (forall k :: |s.handles| <= k < |t.handles| ==> ValueOf(t, k) == ValueOf(s, h))
  {
    var u := Spread(s, h, oks);
    if oks == [] {
      CloseValues(s, h);
      OthersKept(s, u, h);
    } else if !s.handles[h].body.Long? {
      AppendedToHands(s, h, oks);
    } else if |oks| == 1 {
      assert oks == [oks[0]];
      CloseValues(s, h);
      OthersKept(s, Closed(s, h), h);
      AppendedHands(s, h);
    } else {
      ShareValues(s, h, |oks| - 1);
      SameValues(s, MadeShared(s, h, |oks| - 1));
      PushedHands(MadeShared(s, h, |oks| - 1), h, oks);
    }
    SetValues(u, h, EMPTY);
    OthersKept(u, Set(u, h, EMPTY), h);
  }

  lemma OthersKept(s: Store, t: Store, h: nat)
    requires Linked(s) && Linked(t) && h < |s.handles| && |Values(t)| == |Values(s)| && Values(t) == Values(s)[h := Values(t)[h]]
    ensures forall k :: 0 <= k < |s.handles| && k != h ==> ValueOf(t, k) == ValueOf(s, k)
  {
    forall k | 0 <= k < |s.handles| && k != h ensures ValueOf(t, k) == ValueOf(s, k) { assert Values(t)[k] == Values(s)[k]; }
  }

  lemma SameValues(s: Store, t: Store)
    requires Linked(s) && Linked(t) && Values(t) == Values(s)
    ensures |t.handles| == |s.handles| && forall k :: 0 <= k < |s.handles| ==> ValueOf(t, k) == ValueOf(s, k)
  {
    forall k | 0 <= k < |s.handles| ensures |t.handles| == |s.handles| && ValueOf(t, k) == ValueOf(s, k) {
      assert |Values(t)| == |Values(s)| && Values(t)[k] == Values(s)[k];
    }
    assert |Values(t)| == |Values(s)|;
  }
}
