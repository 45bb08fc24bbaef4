/** The fair queue: inbound pipes with the active ones in front, read in turn, one whole message at a time. */
module FairQueue {
  import opened Bytes
  import opened Wrappers
  import opened PipeArray

  /** `queues` holds what can be read from each pipe, `out` is the history of what was handed out. */
  datatype Fq<P> = Fq(pipes: seq<P>, active: nat, current: nat, more: bool, queues: map<P, seq<Message>>, out: seq<(P, Message)>)

  ghost predicate Shape<P>(s: Fq<P>) {
    && s.active <= |s.pipes| && (if s.active == 0 then s.current == 0 else s.current < s.active)
    && Distinct(s.pipes)
    && (forall p :: p in s.pipes ==> p in s.queues)
  }

  /** Inside a message, the pipe it comes from is the current one and holds the rest. */
  ghost predicate Inv<P>(s: Fq<P>) {
    && Shape(s)
    && (forall p :: p in s.pipes ==> Finished(s.queues[p]))
    && (s.more ==> s.active > 0 && Front(s) != [])
    && (s.more <==> s.out != [] && HasMore(s.out[|s.out| - 1].1.flags))
    && (s.more ==> s.out[|s.out| - 1].0 == s.pipes[s.current])
    && Uninterrupted(s.out)
  }

  /** After a part that is not the last one of its message comes a part from the same pipe. */
  ghost predicate Uninterrupted<P>(out: seq<(P, Message)>) {
    forall i :: 0 <= i < |out| - 1 && HasMore(out[i].1.flags) ==> out[i + 1].0 == out[i].0
  }

  function Front<P(==)>(s: Fq<P>): seq<Message>
    requires 0 < s.active <= |s.pipes| && s.current < s.active && s.pipes[s.current] in s.queues
  {
    s.queues[s.pipes[s.current]]
  }

  /** The current pipe, which has nothing to read, changes places with the last active one and leaves the active zone. */
  function Deactivated<P(==)>(s: Fq<P>): Fq<P>
    requires 0 < s.active <= |s.pipes| && s.current < s.active
  {
    var last := s.active - 1;
    s.(active := last, pipes := Swapped(s.pipes, s.current, last), current := if s.current == last then 0 else s.current)
  }

  /** Active pipes with nothing to read are deactivated up to the first that has something. */
  ghost function Look<P>(s: Fq<P>): Fq<P>
    requires Shape(s)
    decreases s.active
  {
    if s.active == 0 || Front(s) != [] then s
    else
      DeactivatedShape(s);
      Look(Deactivated(s))
  }

  lemma DeactivatedShape<P>(s: Fq<P>)
    requires Shape(s) && s.active > 0
    ensures Shape(Deactivated(s))
    ensures forall p :: p in Deactivated(s).pipes <==> p in s.pipes
  {
    SwappedMembers(s.pipes, s.current, s.active - 1);
  }

  /** Takes one part from the current pipe; after the last part of a message it is the next pipe's turn. */
  function Served<P(==)>(s: Fq<P>): Fq<P>
    requires 0 < s.active <= |s.pipes| && s.current < s.active && s.pipes[s.current] in s.queues && Front(s) != []
  {
    var p, m := s.pipes[s.current], Front(s)[0];
    var t := s.(queues := s.queues[p := Front(s)[1..]], more := HasMore(m.flags), out := s.out + [(p, m)]);
    if t.more then t else t.(current := if s.current + 1 >= s.active then 0 else s.current + 1)
  }

  ghost function AfterRecv<P>(s: Fq<P>): Fq<P>
    requires Shape(s)
  {
    LookFinds(s);
    var t := Look(s);
    if t.active == 0 then t else Served(t)
  }

  ghost function AfterHasIn<P>(s: Fq<P>): Fq<P>
    requires Shape(s)
  {
    if s.more then s else Look(s)
  }

  /** The pipe at position `i` becomes the last active one. */
  function AfterActivated<P>(s: Fq<P>, i: nat): Fq<P>
    requires s.active <= i < |s.pipes|
  {
    s.(pipes := Swapped(s.pipes, i, s.active), active := s.active + 1)
  }

  /** A pipe is gone: the last pipe takes its place, whatever its zone. */
  function Removed<P(==)>(s: Fq<P>, i: nat): Fq<P>
    requires s.active <= |s.pipes| && i < |s.pipes|
  {
    var active := if i < s.active then s.active - 1 else s.active;
    s.(active := active, current := if i < s.active && s.current == active then 0 else s.current,
       pipes := Erased(s.pipes, i), queues := s.queues - {s.pipes[i]})
  }

  function Attached<P(==)>(s: Fq<P>, p: P, parts: seq<Message>): Fq<P>
    requires s.active <= |s.pipes|
  {
    s.(pipes := Swapped(s.pipes + [p], s.active, |s.pipes|), active := s.active + 1, queues := s.queues[p := parts])
  }

  /** The peer published some whole messages. */
  function Arrived<P(==)>(s: Fq<P>, p: P, parts: seq<Message>): Fq<P>
    requires p in s.queues
  {
    s.(queues := s.queues[p := s.queues[p] + parts])
  }

  datatype Step<P> =
    | Recv | HasIn | Activate(i: nat) | Terminated(i: nat) | Arrive(p: P, parts: seq<Message>) | Attach(p: P, parts: seq<Message>)

  /** A pipe is activated, or gone, only when it is passive: Departures.RunOfQueue shows why. */
  ghost predicate Enabled<P>(s: Fq<P>, step: Step<P>) {
    match step
    case Recv => true
    case HasIn => true
    case Activate(i) => s.active <= i < |s.pipes|
    case Terminated(i) => s.active <= i < |s.pipes|
    case Arrive(p, parts) => p in s.pipes && Finished(parts)
    case Attach(p, parts) => p !in s.pipes && Finished(parts)
  }

  ghost function Apply<P>(s: Fq<P>, step: Step<P>): Fq<P>
    requires Shape(s) && Enabled(s, step)
  {
    match step
    case Recv => AfterRecv(s)
    case HasIn => AfterHasIn(s)
    case Activate(i) => AfterActivated(s, i)
    case Terminated(i) => Removed(s, i)
    case Arrive(p, parts) => Arrived(s, p, parts)
    case Attach(p, parts) => Attached(s, p, parts)
  }

  /** The queue after a schedule of steps from `s`; None when some step was not enabled. */
  ghost function Run<P>(s: Fq<P>, steps: seq<Step<P>>): Option<Fq<P>> {
    if steps == [] then if Shape(s) then Some(s) else None
    else
      match Run(s, steps[..|steps| - 1])
      case None => None
      case Some(t) =>
        if Shape(t) && Enabled(t, steps[|steps| - 1]) then Some(Apply(t, steps[|steps| - 1])) else None
  }

  // ---- What looking for a message does

  /** Looking deactivates pipes without messages only, and finds a message exactly when an active pipe has one. */
  lemma {:induction false} LookFinds<P>(s: Fq<P>)
    requires Shape(s)
    ensures var t := Look(s);
      && Shape(t) && t.queues == s.queues && t.out == s.out && t.more == s.more && |t.pipes| == |s.pipes| && t.active <= s.active
      && (t.active > 0 ==> Front(t) != [])
      && (t.active == 0 <==> forall i :: 0 <= i < s.active ==> s.queues[s.pipes[i]] == [])
      && (forall p :: p in t.pipes <==> p in s.pipes)
    decreases s.active
  {
    if s.active > 0 && Front(s) == [] {
      var d := Deactivated(s);
      DeactivatedShape(s);
      LookFinds(d);
      assert forall i :: 0 <= i < d.active ==> d.pipes[i] == if i == s.current then s.pipes[s.active - 1] else s.pipes[i];
    } else if s.active > 0 {
      assert s.queues[s.pipes[s.current]] != [];
    }
  }

  /** The assertion in `recv`: inside a message the read cannot fail, so looking leaves everything as it is. */
  lemma MoreIsThere<P>(s: Fq<P>)
    requires Inv(s) && s.more
    ensures Look(s) == s && s.active > 0
  {
  }

  // ---- Every step keeps the invariant ----

  lemma ServedKeepsInv<P>(s: Fq<P>)
    requires Inv(s) && s.active > 0 && Front(s) != []
    ensures Inv(Served(s))
  {
    var t := Served(s);
    assert Finished(Front(s));
    if t.more { assert |Front(s)| > 1; }
    forall i | 0 <= i < |t.out| - 1 && HasMore(t.out[i].1.flags) ensures t.out[i + 1].0 == t.out[i].0 {
      if i == |s.out| - 1 { assert s.more; }
    }
  }

  lemma LookKeepsInv<P>(s: Fq<P>)
    requires Inv(s)
    ensures Inv(Look(s))
  {
    LookFinds(s);
    if s.more { MoreIsThere(s); }
  }

  lemma RecvKeepsInv<P>(s: Fq<P>)
    requires Inv(s)
    ensures Inv(AfterRecv(s))
  {
    LookFinds(s);
    LookKeepsInv(s);
    if Look(s).active > 0 { ServedKeepsInv(Look(s)); }
  }

  lemma StepKeepsInv<P>(s: Fq<P>, step: Step<P>)
    requires Inv(s) && Enabled(s, step)
    ensures Inv(Apply(s, step))
  {
    match step
    case Recv => RecvKeepsInv(s);
    case HasIn => LookKeepsInv(s);
    case Activate(i) => SwappedMembers(s.pipes, i, s.active);
    case Terminated(i) => RemovedKeepsInv(s, i);
    case Arrive(p, parts) =>
    case Attach(p, parts) => AttachedKeepsInv(s, p, parts);
  }

  lemma RemovedKeepsInv<P>(s: Fq<P>, i: nat)
    requires Inv(s) && s.active <= i < |s.pipes|
    ensures Inv(Removed(s, i))
  {
    ErasedMembers(s.pipes, i);
  }

  lemma AttachedKeepsInv<P>(s: Fq<P>, p: P, parts: seq<Message>)
    requires Inv(s) && p !in s.pipes && Finished(parts)
    ensures Inv(Attached(s, p, parts))
  {
    SwappedMembers(s.pipes + [p], s.active, |s.pipes|);
  }

  /**
   * What `terminated` would do to a message in progress if any pipe could go: its pipe stays the current one exactly when another
   * pipe goes that is passive, or is active while the current one is not the last active pipe, or is the
   * first of all and replaced by the current one.
   */
  lemma TerminatedKeepsInv<P>(s: Fq<P>, i: nat)
    requires Inv(s) && i < |s.pipes|
    ensures Inv(Removed(s, i)) <==>
      !s.more || s.active <= i || (i != s.current && (s.current < s.active - 1 || (i == 0 && s.active == |s.pipes|)))
  {
    var t := Removed(s, i);
    ErasedMembers(s.pipes, i);
    if s.more && i < s.active && t.active > 0 {
      assert t.pipes[t.current] in t.pipes;
    }
  }

  /** Whether the pipe is active. */
  ghost predicate Active<P>(s: Fq<P>, p: P)
    requires s.active <= |s.pipes|
  {
    p in s.pipes[..s.active]
  }

  /** A new pipe is active from the start, and nobody else's zone changes. */
  lemma AttachedActive<P>(s: Fq<P>, p: P, parts: seq<Message>, q: P)
    requires s.active <= |s.pipes| && p !in s.pipes
    ensures Active(Attached(s, p, parts), q) <==> Active(s, q) || q == p
  {
    var t, n := Attached(s, p, parts), |s.pipes|;
    assert t.pipes[s.active] == p;
    assert t.pipes[..s.active] == s.pipes[..s.active];
    assert t.pipes[..s.active + 1] == s.pipes[..s.active] + [p];
  }

  /** A passive pipe that can be read again is active, and nobody else's zone changes. */
  lemma ActivatedActive<P>(s: Fq<P>, i: nat, q: P)
    requires s.active <= i < |s.pipes|
    ensures Active(AfterActivated(s, i), q) <==> Active(s, q) || q == s.pipes[i]
  {
    assert AfterActivated(s, i).pipes[..s.active + 1] == s.pipes[..s.active] + [s.pipes[i]];
  }

  /** The other pipes stay active or passive exactly when the one that goes is passive or the last active one, or none is passive. */
  lemma TerminatedKeepsActive<P>(s: Fq<P>, i: nat)
    requires Shape(s) && i < |s.pipes|
    ensures var t, gone := Removed(s, i), s.pipes[i];
      (forall p :: p in s.pipes && p != gone ==> (Active(t, p) <==> Active(s, p))) <==>
        s.active - 1 <= i || s.active == |s.pipes|
  {
    var t, n := Removed(s, i), |s.pipes| - 1;
    if s.active - 1 <= i || s.active == |s.pipes| {
      forall p | p in s.pipes && p != s.pipes[i] ensures Active(t, p) <==> Active(s, p) {
        var k :| 0 <= k <= n && s.pipes[k] == p;
        assert t.pipes[if k == n then i else k] == p;
        ErasedMembers(s.pipes, i);
      }
    } else {
      var p := s.pipes[s.active - 1];
      assert s.pipes[..s.active][s.active - 1] == p && !Active(t, p);
    }
  }

  lemma {:induction false} EveryRunKeepsInv<P>(s: Fq<P>, steps: seq<Step<P>>)
    requires Inv(s) && Run(s, steps).Some?
    ensures Inv(Run(s, steps).value)
  {
    if steps != [] {
      EveryRunKeepsInv(s, steps[..|steps| - 1]);
      StepKeepsInv(Run(s, steps[..|steps| - 1]).value, steps[|steps| - 1]);
    }
  }

  // ---- Bounded waiting ----

  function IndexOf<P(==)>(s: seq<P>, p: P): (i: nat)
    requires p in s
    ensures i < |s| && s[i] == p
  {
    if s[0] == p then 0 else 1 + IndexOf(s[1..], p)
  }

  /** The pipe is active and has something to read. */
  ghost predicate Ready<P>(s: Fq<P>, p: P) {
    p in s.pipes && IndexOf(s.pipes, p) < s.active && p in s.queues && s.queues[p] != []
  }

  /** How many turns are before that of `p`: the passive pipes count, since they may be activated meanwhile. */
  ghost function Wait<P>(s: Fq<P>, p: P): int
    requires p in s.pipes
  {
    var i := IndexOf(s.pipes, p);
    if i >= s.current then i - s.current else |s.pipes| - s.current + i
  }

  function Completed<P>(out: seq<(P, Message)>): nat {
    if out == [] then 0
    else Completed(out[..|out| - 1]) + if HasMore(out[|out| - 1].1.flags) then 0 else 1
  }

  lemma DeactivatedWaits<P>(s: Fq<P>, p: P)
    requires Shape(s) && s.active > 0 && Front(s) == [] && Ready(s, p)
    ensures Ready(Deactivated(s), p) && Wait(Deactivated(s), p) <= Wait(s, p)
  {
    DeactivatedShape(s);
    var d, i, last := Deactivated(s), IndexOf(s.pipes, p), s.active - 1;
    assert d.pipes[if i == last then s.current else i] == p;
  }

  lemma {:induction false} LookWaits<P>(s: Fq<P>, p: P)
    requires Shape(s) && Ready(s, p)
    ensures Shape(Look(s)) && Ready(Look(s), p) && Wait(Look(s), p) <= Wait(s, p)
    decreases s.active
  {
    if Front(s) == [] {
      DeactivatedShape(s);
      DeactivatedWaits(s, p);
      LookWaits(Deactivated(s), p);
    }
  }

  /** A complete message from another pipe brings the turn of `p` nearer by one at least. */
  lemma ServedWaits<P>(s: Fq<P>, p: P)
    requires Shape(s) && s.active > 0 && Front(s) != [] && Finished(Front(s)) && Ready(s, p)
    requires s.pipes[s.current] == p ==> HasMore(Front(s)[0].flags)
    ensures var t := Served(s);
      Ready(t, p) && Wait(t, p) + (if HasMore(Front(s)[0].flags) then 0 else 1) <= Wait(s, p)
  {
    if s.pipes[s.current] == p { assert |Front(s)| > 1; }
  }

  /** The last part of a message from `p` was handed out. */
  ghost predicate Finishes<P>(s: Fq<P>, t: Fq<P>, p: P) {
    |t.out| == |s.out| + 1 && t.out[|s.out|].0 == p && !HasMore(t.out[|s.out|].1.flags)
  }

  /** A step other than attaching serves `p`, or brings its turn nearer by the complete messages it hands out. */
  lemma StepWaits<P>(s: Fq<P>, step: Step<P>, p: P)
    requires Inv(s) && Enabled(s, step) && !step.Attach? && Ready(s, p)
    ensures var t := Apply(s, step);
      && s.out <= t.out && |t.pipes| <= |s.pipes|
      && (Finishes(s, t, p)
          || (Ready(t, p) && Wait(t, p) + Completed(t.out) - Completed(s.out) <= Wait(s, p)))
  {
    match step
    case Recv =>
      LookFinds(s);
      LookWaits(s, p);
      var l := Look(s);
      LookKeepsInv(s);
      var m := Front(l)[0];
      assert Served(l).out[..|s.out|] == s.out;
      if l.pipes[l.current] == p && !HasMore(m.flags) {
        assert Apply(s, step).out == s.out + [(p, m)];
        assert Finishes(s, Apply(s, step), p);
      } else {
        ServedWaits(l, p);
      }
    case HasIn =>
      LookFinds(s);
      LookWaits(s, p);
    case Activate(i) =>
      SwappedMembers(s.pipes, i, s.active);
      assert Swapped(s.pipes, i, s.active)[IndexOf(s.pipes, p)] == p;
    case Terminated(i) =>
      ErasedMembers(s.pipes, i);
      assert Erased(s.pipes, i)[IndexOf(s.pipes, p)] == p;
    case Arrive(q, parts) =>
  }

  /** Between `s` and `t` no message from `p` was finished. */
  ghost predicate Unserved<P>(s: Fq<P>, t: Fq<P>, p: P) {
    forall i :: |s.out| <= i < |t.out| && t.out[i].0 == p ==> HasMore(t.out[i].1.flags)
  }

  lemma UnservedBefore<P>(s: Fq<P>, u: Fq<P>, t: Fq<P>, p: P)
    requires s.out <= u.out <= t.out && Unserved(s, t, p)
    ensures Unserved(s, u, p) && !Finishes(u, t, p)
  {
    forall i | |s.out| <= i < |u.out| && u.out[i].0 == p ensures HasMore(u.out[i].1.flags) {
      assert t.out[i] == u.out[i];
    }
  }

  ghost predicate NoneAttached<P>(steps: seq<Step<P>>) { forall i :: 0 <= i < |steps| ==> !steps[i].Attach? }

  /**
   * With n pipes and no new ones, a ready pipe that has not been served yet has waited for at most n - 1
   * complete messages of other pipes, whatever was activated, deactivated or terminated meanwhile.
   */
  lemma {:induction false} BoundedWait<P>(s: Fq<P>, steps: seq<Step<P>>, p: P)
    requires Inv(s) && Ready(s, p) && NoneAttached(steps)
    requires Run(s, steps).Some? && Unserved(s, Run(s, steps).value, p)
    ensures var t := Run(s, steps).value;
      && Ready(t, p) && 0 <= Wait(t, p)
      && Completed(t.out) - Completed(s.out) + Wait(t, p) <= Wait(s, p) <= |s.pipes| - 1
  {
    EveryRunKeepsInv(s, steps);
    if steps == [] {
      WaitBounds(s, p);
    } else {
      var n := |steps| - 1;
      var u, t := Run(s, steps[..n]).value, Run(s, steps).value;
      RunGrows(s, steps[..n]);
      EveryRunKeepsInv(s, steps[..n]);
      OutGrows(u, steps[n]);
      UnservedBefore(s, u, t, p);
      BoundedWait(s, steps[..n], p);
      StepWaits(u, steps[n], p);
      WaitBounds(t, p);
    }
  }

  lemma ReadyWhen<P>(s: Fq<P>, p: P)
    requires Shape(s)
    ensures Ready(s, p) <==> Active(s, p) && s.queues[p] != []
  {
    if Active(s, p) {
      var i :| 0 <= i < s.active && s.pipes[i] == p;
      assert s.pipes[IndexOf(s.pipes, p)] == p;
    }
  }

  /** A pipe attached with a message to read waits for at most one complete message of each pipe that was there. */
  lemma AttachedIsServed<P>(s: Fq<P>, p: P, parts: seq<Message>, steps: seq<Step<P>>)
    requires Inv(s) && p !in s.pipes && parts != [] && Finished(parts) && NoneAttached(steps)
    requires Run(Attached(s, p, parts), steps).Some?
    requires Unserved(Attached(s, p, parts), Run(Attached(s, p, parts), steps).value, p)
    ensures var t := Run(Attached(s, p, parts), steps).value;
      Ready(t, p) && Completed(t.out) - Completed(s.out) + Wait(t, p) <= |s.pipes|
  {
    var a := Attached(s, p, parts);
    StepKeepsInv(s, Step.Attach(p, parts));
    AttachedActive(s, p, parts, p);
    ReadyWhen(a, p);
    BoundedWait(a, steps, p);
  }

  /** So does a pipe that is activated with a message to read. */
  lemma ActivatedIsServed<P>(s: Fq<P>, i: nat, steps: seq<Step<P>>)
    requires Inv(s) && s.active <= i < |s.pipes| && s.queues[s.pipes[i]] != [] && NoneAttached(steps)
    requires Run(AfterActivated(s, i), steps).Some?
    requires Unserved(AfterActivated(s, i), Run(AfterActivated(s, i), steps).value, s.pipes[i])
    ensures var t := Run(AfterActivated(s, i), steps).value;
      Ready(t, s.pipes[i]) && Completed(t.out) - Completed(s.out) + Wait(t, s.pipes[i]) <= |s.pipes| - 1
  {
    var a := AfterActivated(s, i);
    StepKeepsInv(s, Step<P>.Activate(i));
    ActivatedActive(s, i, s.pipes[i]);
    ReadyWhen(a, s.pipes[i]);
    BoundedWait(a, steps, s.pipes[i]);
  }

  /** While a pipe is ready, each receive hands out a part; after n complete messages one of them was its own. */
  lemma ServedAtLast<P>(s: Fq<P>, steps: seq<Step<P>>, p: P)
    requires Inv(s) && Ready(s, p) && NoneAttached(steps) && Run(s, steps).Some?
    ensures |AfterRecv(s).out| == |s.out| + 1
    ensures var t := Run(s, steps).value; Completed(t.out) - Completed(s.out) >= |s.pipes| ==> !Unserved(s, t, p)
  {
    LookFinds(s);
    LookWaits(s, p);
    if Unserved(s, Run(s, steps).value, p) { BoundedWait(s, steps, p); }
  }

  lemma WaitBounds<P>(s: Fq<P>, p: P)
    requires Shape(s) && p in s.pipes
    ensures 0 <= Wait(s, p) <= |s.pipes| - 1
  {
  }

  lemma {:induction false} RunGrows<P>(s: Fq<P>, steps: seq<Step<P>>)
    requires Run(s, steps).Some?
    ensures s.out <= Run(s, steps).value.out
  {
    if steps != [] {
      RunGrows(s, steps[..|steps| - 1]);
      OutGrows(Run(s, steps[..|steps| - 1]).value, steps[|steps| - 1]);
    }
  }

  lemma OutGrows<P>(s: Fq<P>, step: Step<P>)
    requires Shape(s) && Enabled(s, step)
    ensures s.out <= Apply(s, step).out
  {
    LookFinds(s);
  }

  // ---- Nothing is lost or repeated

  /** What was handed out from `p`. */
  function From<P(==)>(out: seq<(P, Message)>, p: P): seq<Message> {
    if out == [] then []
    else
      var last := out[|out| - 1];
      From(out[..|out| - 1], p) + if last.0 == p then [last.1] else []
  }

  /** What arrived in `p` during the schedule. */
  function Arrivals<P(==)>(steps: seq<Step<P>>, p: P): seq<Message> {
    if steps == [] then []
    else
      var last := steps[|steps| - 1];
      Arrivals(steps[..|steps| - 1], p) + if last.Arrive? && last.p == p then last.parts else []
  }

  lemma FromMore<P>(out: seq<(P, Message)>, q: P, m: Message, p: P)
    ensures From(out + [(q, m)], p) == From(out, p) + if q == p then [m] else []
  {
    assert (out + [(q, m)])[..|out|] == out;
  }

  lemma ServedFacts<P>(s: Fq<P>)
    requires Shape(s) && s.active > 0 && Front(s) != []
    ensures var t, q := Served(s), s.pipes[s.current];
      t.queues == s.queues[q := Front(s)[1..]] && t.out == s.out + [(q, Front(s)[0])]
  {
  }

  /** A part goes from the front of a queue to the end of what was handed out. */
  lemma PassedOn<T>(given: seq<T>, queue: seq<T>)
    requires queue != []
    ensures given + [queue[0]] + queue[1..] == given + queue
  {
  }

  lemma ServedConserves<P>(s: Fq<P>, p: P)
    requires Shape(s) && s.active > 0 && Front(s) != [] && p in s.queues
    ensures var t := Served(s); p in t.queues && From(t.out, p) + t.queues[p] == From(s.out, p) + s.queues[p]
  {
    var q, m := s.pipes[s.current], Front(s)[0];
    ServedFacts(s);
    FromMore(s.out, q, m, p);
    if p == q {
      PassedOn(From(s.out, p), s.queues[p]);
    } else {
      assert From(s.out, p) + [] == From(s.out, p);
    }
  }

  lemma RecvConserves<P>(s: Fq<P>, p: P)
    requires Inv(s) && p in s.pipes
    ensures var t := AfterRecv(s); p in t.queues && From(t.out, p) + t.queues[p] == From(s.out, p) + s.queues[p]
  {
    LookFinds(s);
    if Look(s).active > 0 { ServedConserves(Look(s), p); }
  }

  lemma StepConserves<P>(s: Fq<P>, step: Step<P>, p: P)
    requires Inv(s) && Enabled(s, step) && !step.Attach? && p in Apply(s, step).pipes
    ensures var t := Apply(s, step);
      p in s.pipes && p in t.queues && From(t.out, p) + t.queues[p] ==
        From(s.out, p) + s.queues[p] + if step.Arrive? && step.p == p then step.parts else []
  {
    match step
    case Recv =>
      LookFinds(s);
      RecvConserves(s, p);
    case HasIn => LookFinds(s);
    case Activate(i) => SwappedMembers(s.pipes, i, s.active);
    case Terminated(i) => ErasedMembers(s.pipes, i);
    case Arrive(q, parts) =>
      if q == p { assert From(s.out, p) + (s.queues[p] + parts) == From(s.out, p) + s.queues[p] + parts; }
  }

  /** What was handed out from a pipe, and what it still holds, is what it held and what arrived, in order. */
  lemma {:induction false} Conserved<P>(s: Fq<P>, steps: seq<Step<P>>, p: P)
    requires Inv(s) && NoneAttached(steps) && Run(s, steps).Some? && p in Run(s, steps).value.pipes
    ensures var t := Run(s, steps).value;
      p in s.queues && p in t.queues && From(t.out, p) + t.queues[p] == From(s.out, p) + s.queues[p] + Arrivals(steps, p)
  {
    if steps == [] {
      assert From(s.out, p) + s.queues[p] + [] == From(s.out, p) + s.queues[p];
    } else {
      var n := |steps| - 1;
      var u := Run(s, steps[..n]).value;
      EveryRunKeepsInv(s, steps[..n]);
      StepConserves(u, steps[n], p);
      Conserved(s, steps[..n], p);
      var before, last := From(s.out, p) + s.queues[p], if steps[n].Arrive? && steps[n].p == p then steps[n].parts else [];
      Associative(before, Arrivals(steps[..n], p), last);
    }
  }

  lemma DeactivatedKeepsInv<P>(s: Fq<P>)
    requires Inv(s) && s.active > 0 && Front(s) == []
    ensures !s.more && Inv(Deactivated(s)) && Look(Deactivated(s)) == Look(s)
  {
    DeactivatedShape(s);
  }

  // ---- The scheduler object

  class FairQueue {
    const pipes: PipeArray
    var active: nat
    var current: nat
    var more: bool
    var terminating: bool
    ghost var out: seq<(Pipe, Message)>

    ghost function View(): Fq<Pipe>
      reads this, pipes, pipes.items
    {
      Fq(pipes.items, active, current, more, pipes.Parts(), out)
    }

    ghost predicate Valid()
      reads this, pipes, pipes.items
    {
      pipes.Valid() && Inv(View())
    }

    constructor ()
      ensures Valid() && View() == Fq([], 0, 0, false, map[], []) && fresh(pipes)
    {
      pipes := new PipeArray();
      active, current, more, terminating, out := 0, 0, false, false, [];
    }

    /** The pipe becomes the last active one. */
    method Attach(p: Pipe)
      requires Valid() && p !in pipes.items && Finished(p.parts)
      modifies this, pipes, pipes.items, p
      ensures Valid() && View() == Attached(old(View()), p, old(p.parts))
      ensures active == old(active) + 1 && p in pipes.items[..active] && p.parts == old(p.parts)
    {
      StepKeepsInv(View(), Step.Attach(p, p.parts));
      AttachedActive(View(), p, p.parts, p);
      PushActive(p);
      assert p in pipes.items && pipes.Parts()[p] == p.parts;
    }

    method PushActive(p: Pipe)
      requires pipes.Valid() && p !in pipes.items && active <= |pipes.items|
      modifies `active, pipes, pipes.items, p
      ensures pipes.Valid() && View() == Attached(old(View()), p, old(p.parts))
    {
      var n := |pipes.items|;
      pipes.PushBack(p);
      pipes.Swap(active, n);
      active := active + 1;
    }

    /** From now on an active pipe may go; that the pipes are told to terminate is left out. */
    method Terminate()
      requires Valid() && !terminating
      modifies `terminating
      ensures Valid() && terminating && View() == old(View())
    {
      terminating := true;
    }

    /**
     * The event for a pipe that is gone. With the assertion of the source, that a pipe does not go in the
     * middle of its message unless the queue is terminating, a passive pipe disturbs nothing.
     */
    method Terminated(p: Pipe)
      requires Valid() && p in pipes.items && (terminating || !more || pipes.items[current] != p)
      modifies this, pipes, pipes.items
      ensures pipes.Valid() && Shape(View()) && View() == Removed(old(View()), old(p.arrayIndex))
      ensures old(p.arrayIndex >= active || !more) ==> Valid()
    {
      ErasedMembers(View().pipes, p.arrayIndex);
      TerminatedKeepsInv(View(), p.arrayIndex);
      Remove(p);
    }

    method Remove(p: Pipe)
      requires pipes.Valid() && p in pipes.items && active <= |pipes.items|
      modifies `active, `current, pipes, pipes.items
      ensures pipes.Valid() && View() == Removed(old(View()), old(p.arrayIndex))
    {
      var i := pipes.Index(p);
      Shrink(i);
      pipes.Erase(p);
    }

    method Shrink(i: nat)
      modifies `active, `current
      ensures active == if i < old(active) then old(active) - 1 else old(active)
      ensures current == if i < old(active) && old(current) == active then 0 else old(current)
    {
      if i < active {
        active := active - 1;
        if current == active { current := 0; }
      }
    }

    method Activated(p: Pipe)
      requires Valid() && p in pipes.items && p.arrayIndex >= active
      modifies this, pipes, pipes.items
      ensures Valid() && View() == AfterActivated(old(View()), old(p.arrayIndex))
      ensures active == old(active) + 1 && p in pipes.items[..active]
    {
      StepKeepsInv(View(), Step<Pipe>.Activate(p.arrayIndex));
      ActivatedActive(View(), p.arrayIndex, p);
      MoveUp(p);
    }

    method MoveUp(p: Pipe)
      requires pipes.Valid() && p in pipes.items && p.arrayIndex >= active
      modifies `active, pipes, pipes.items
      ensures pipes.Valid() && View() == AfterActivated(old(View()), old(p.arrayIndex))
    {
      var i := pipes.Index(p);
      pipes.Swap(i, active);
      active := active + 1;
    }

    /** Deactivates the current pipe, which could not be read. */
    method Deactivate()
      requires Valid() && active > 0 && pipes.items[current].parts == []
      modifies this, pipes, pipes.items
      ensures Valid() && View() == Deactivated(old(View()))
      ensures forall i :: 0 <= i < |pipes.items| ==> pipes.items[i] in old(pipes.items)
    {
      DeactivatedKeepsInv(View());
      MoveDown();
    }

    method MoveDown()
      requires pipes.Valid() && 0 < active <= |pipes.items| && current < active
      modifies `active, `current, pipes, pipes.items
      ensures pipes.Valid() && View() == Deactivated(old(View()))
      ensures forall i :: 0 <= i < |pipes.items| ==> pipes.items[i] in old(pipes.items)
    {
      active := active - 1;
      pipes.Swap(current, active);
      if current == active {
        current := 0;
      }
    }

    /** Reads a part from the current pipe. */
    method Serve() returns (m: Message)
      requires Valid() && active > 0 && pipes.items[current].parts != []
      modifies this, pipes.items
      ensures Valid() && View() == Served(old(View())) && out == old(out) + [(old(pipes.items[current]), m)]
    {
      ServedKeepsInv(View());
      m := ReadCurrent();
    }

    method ReadCurrent() returns (m: Message)
      requires pipes.Valid() && current < active <= |pipes.items| && pipes.items[current].parts != []
      modifies this, pipes.items[current]
      ensures pipes.Valid() && View() == Served(old(View())) && out == old(out) + [(old(pipes.items[current]), m)]
    {
      var p := pipes.items[current];
      m := pipes.Take(p);
      out := out + [(p, m)];
      more := HasMore(m.flags);
      if !more {
        current := current + 1;
        if current >= active { current := 0; }
      }
    }

    /** The round-robin loop; the assertion in it holds. None means that no message is available. */
    method Recv() returns (m: Option<Message>)
      requires Valid()
      modifies this, pipes, pipes.items
      ensures Valid() && View() == AfterRecv(old(View()))
      ensures m.Some? ==> |out| == |old(out)| + 1 && out[|old(out)|].1 == m.value
      ensures m == None <==> forall i :: 0 <= i < old(active) ==> old(pipes.items[i].parts) == []
    {
      ghost var s := View();
      RecvKeepsInv(s);
      LookFinds(s);
      var count := active;
      while count != 0
        invariant Valid() && count == active
        invariant Look(View()) == Look(s) && out == s.out
        invariant forall i :: 0 <= i < |pipes.items| ==> pipes.items[i] in old(pipes.items)
        decreases count
      {
        var p := pipes.items[current];
        if p.parts != [] {
          var part := Serve();
          return Some(part);
        }
        assert !more;
        Deactivate();
        count := count - 1;
      }
      m := None;
    }

    method HasIn() returns (has: bool)
      requires Valid()
      modifies this, pipes, pipes.items
      ensures Valid() && View() == AfterHasIn(old(View()))
      ensures !has <==> forall i :: 0 <= i < old(active) ==> old(pipes.items[i].parts) == []
    {
      ghost var s := View();
      LookKeepsInv(s);
      LookFinds(s);
      if more {
        MoreIsThere(s);
        return true;
      }
      var count := active;
      while count != 0
        invariant Valid() && count == active
        invariant Look(View()) == Look(s)
        invariant forall i :: 0 <= i < |pipes.items| ==> pipes.items[i] in old(pipes.items)
        decreases count
      {
        if pipes.items[current].parts != [] {
          return true;
        }
        Deactivate();
        count := count - 1;
      }
      has := false;
    }
  }
}
