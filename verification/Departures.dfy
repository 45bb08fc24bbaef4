/**
 * Which pipes leave a fair queue. A pipe leaves when its delimiter was read, or when the queue is
 * terminating; and a terminating queue is not read any more, because its socket is closed.
 */
module Departures {
  import opened Bytes
  import opened Wrappers
  import opened PipeArray
  import F = FairQueue

  /** `ended` are the pipes with the delimiter behind what can be read, `delimited` those whose delimiter was read. */
  datatype Sys<P> = Sys(q: F.Fq<P>, ended: set<P>, delimited: set<P>, terminating: bool)

  datatype Step<P> =
    | Recv | HasIn | Arrive(p: P, parts: seq<Message>) | End(p: P) | Activate(i: nat) | Attach(p: P, parts: seq<Message>)
    | Terminate | Gone(i: nat)

  /** A reader that took the delimiter is not woken up again (MessagePipe.NoWakeUpAfterDelimiter). */
  ghost predicate Enabled<P>(s: Sys<P>, step: Step<P>) {
    match step
    case Recv => !s.terminating
    case HasIn => !s.terminating
    case Arrive(p, parts) => p in s.q.pipes && p !in s.ended && Finished(parts)
    case End(p) => p in s.q.pipes && p !in s.ended
    case Activate(i) => s.q.active <= i < |s.q.pipes| && s.q.pipes[i] !in s.delimited
    case Attach(p, parts) => p !in s.q.pipes && Finished(parts)
    case Terminate => !s.terminating
    case Gone(i) => i < |s.q.pipes| && (s.terminating || s.q.pipes[i] in s.delimited)
  }

  /** The pipes found at their end were read to the delimiter. */
  ghost function Looked<P>(s: Sys<P>, q: F.Fq<P>): Sys<P>
    requires s.q.active <= |s.q.pipes| && q.active <= |q.pipes|
  {
    s.(q := q, delimited := s.delimited + set p | p in s.ended && F.Active(s.q, p) && !F.Active(q, p))
  }

  ghost function Apply<P>(s: Sys<P>, step: Step<P>): Sys<P>
    requires F.Shape(s.q) && Enabled(s, step)
  {
    match step
    case Recv =>
      ShapesKept(s.q);
      Looked(s, F.AfterRecv(s.q))
    case HasIn =>
      ShapesKept(s.q);
      Looked(s, F.AfterHasIn(s.q))
    case Arrive(p, parts) => s.(q := F.Arrived(s.q, p, parts))
    case End(p) => s.(ended := s.ended + {p})
    case Activate(i) => s.(q := F.AfterActivated(s.q, i))
    case Attach(p, parts) => s.(q := F.Attached(s.q, p, parts), ended := s.ended - {p}, delimited := s.delimited - {p})
    case Terminate => s.(terminating := true)
    case Gone(i) =>
      var p := s.q.pipes[i];
      s.(q := F.Removed(s.q, i), ended := s.ended - {p}, delimited := s.delimited - {p})
  }

  ghost function Run<P>(s: Sys<P>, steps: seq<Step<P>>): Option<Sys<P>> {
    if steps == [] then Some(s)
    else
      match Run(s, steps[..|steps| - 1])
      case None => None
      case Some(t) =>
        if F.Shape(t.q) && Enabled(t, steps[|steps| - 1]) then Some(Apply(t, steps[|steps| - 1])) else None
  }

  function New<P>(): Sys<P> { Sys(F.Fq([], 0, 0, false, map[], []), {}, {}, false) }

  /** A pipe whose delimiter was read is passive and read to its end. */
  ghost predicate Passed<P>(q: F.Fq<P>, delimited: set<P>)
    requires q.active <= |q.pipes|
  {
    forall p :: p in delimited ==> !F.Active(q, p) && (p in q.queues ==> q.queues[p] == [])
  }

  ghost predicate Inv<P>(s: Sys<P>) {
    && F.Shape(s.q)
    && F.Uninterrupted(s.q.out)
    && s.delimited <= s.ended
    && (!s.terminating ==> F.Inv(s.q) && Passed(s.q, s.delimited))
  }

  // ---- Reading ----

  /** Looking takes only pipes without messages out of the active zone. */
  lemma {:induction false} LookOnlyDeactivates<P>(q: F.Fq<P>, p: P)
    requires F.Shape(q)
    ensures F.Shape(F.Look(q)) && (F.Active(F.Look(q), p) ==> F.Active(q, p))
    ensures F.Active(q, p) && !F.Active(F.Look(q), p) ==> p in q.queues && q.queues[p] == []
    decreases q.active
  {
    F.LookFinds(q);
    if q.active > 0 && F.Front(q) == [] {
      F.DeactivatedShape(q);
      LookOnlyDeactivates(F.Deactivated(q), p);
      DeactivatesOne(q, p);
    }
  }

  lemma DeactivatesOne<P>(q: F.Fq<P>, p: P)
    requires F.Shape(q) && q.active > 0
    ensures F.Active(F.Deactivated(q), p) <==> F.Active(q, p) && p != q.pipes[q.current]
  {
    var d, last := F.Deactivated(q), q.active - 1;
    if F.Active(d, p) {
      var i :| 0 <= i < last && d.pipes[i] == p;
      assert p == q.pipes[if i == q.current then last else i];
    }
    if F.Active(q, p) && p != q.pipes[q.current] {
      var i :| 0 <= i <= last && q.pipes[i] == p;
      assert d.pipes[if i == last then q.current else i] == p;
    }
  }

  lemma ShapesKept<P>(q: F.Fq<P>)
    requires F.Shape(q)
    ensures F.Shape(F.AfterRecv(q)) && F.Shape(F.AfterHasIn(q))
  {
    F.LookFinds(q);
  }

  lemma ReadKeepsPassed<P>(s: Sys<P>, q: F.Fq<P>)
    requires F.Shape(s.q) && Passed(s.q, s.delimited) && (q == F.AfterRecv(s.q) || q == F.AfterHasIn(s.q))
    ensures F.Shape(q) && Passed(q, Looked(s, q).delimited)
  {
    ShapesKept(s.q);
    F.LookFinds(s.q);
    forall p | p in Looked(s, q).delimited ensures !F.Active(q, p) && (p in q.queues ==> q.queues[p] == []) {
      LookOnlyDeactivates(s.q, p);
      assert p in s.delimited || F.Active(s.q, p);
    }
  }

  // ---- The pipes that come and go ----

  lemma GoneKeepsPassed<P>(q: F.Fq<P>, delimited: set<P>, i: nat)
    requires F.Shape(q) && Passed(q, delimited) && q.active <= i < |q.pipes|
    ensures F.Shape(F.Removed(q, i)) && Passed(F.Removed(q, i), delimited - {q.pipes[i]})
  {
    ErasedMembers(q.pipes, i);
    assert F.Removed(q, i).pipes[..q.active] == q.pipes[..q.active];
  }

  lemma StepKeepsPassed<P>(s: Sys<P>, step: Step<P>)
    requires Inv(s) && !s.terminating && Enabled(s, step)
    ensures var t := Apply(s, step); F.Shape(t.q) && Passed(t.q, t.delimited)
  {
    match step
    case Recv => ReadKeepsPassed(s, F.AfterRecv(s.q));
    case HasIn => ReadKeepsPassed(s, F.AfterHasIn(s.q));
    case Arrive(_, _) =>
    case End(_) =>
    case Activate(i) =>
      SwappedMembers(s.q.pipes, i, s.q.active);
      forall p ensures F.Active(F.AfterActivated(s.q, i), p) ==> F.Active(s.q, p) || p == s.q.pipes[i] {
        F.ActivatedActive(s.q, i, p);
      }
    case Attach(a, parts) =>
      SwappedMembers(s.q.pipes + [a], s.q.active, |s.q.pipes|);
      forall p ensures F.Active(F.Attached(s.q, a, parts), p) ==> F.Active(s.q, p) || p == a {
        F.AttachedActive(s.q, a, parts, p);
      }
    case Terminate =>
    case Gone(i) =>
      GoneIsPassive(s, i);
      GoneKeepsPassed(s.q, s.delimited, i);
  }

  lemma ActiveIsInFront<P>(q: F.Fq<P>, i: nat)
    requires F.Shape(q) && i < |q.pipes|
    ensures F.Active(q, q.pipes[i]) <==> i < q.active
  {
    if i < q.active { assert q.pipes[..q.active][i] == q.pipes[i]; }
  }

  lemma GoneIsPassive<P>(s: Sys<P>, i: nat)
    requires Inv(s) && !s.terminating && Enabled(s, Step<P>.Gone(i))
    ensures s.q.active <= i && s.q.queues[s.q.pipes[i]] == []
  {
    ActiveIsInFront(s.q, i);
  }

  // ---- Runs ----

  /** The step of the queue alone; the end of a pipe and the termination are none. */
  function QueueStep<P>(step: Step<P>): Option<F.Step<P>> {
    match step
    case Recv => Some(F.Recv)
    case HasIn => Some(F.HasIn)
    case Arrive(p, parts) => Some(F.Arrive(p, parts))
    case Activate(i) => Some(F.Activate(i))
    case Attach(p, parts) => Some(F.Attach(p, parts))
    case Gone(i) => Some(F.Terminated(i))
    case End(_) => None
    case Terminate => None
  }

  function QueueSteps<P>(steps: seq<Step<P>>): seq<F.Step<P>> {
    if steps == [] then []
    else
      var before := QueueSteps(steps[..|steps| - 1]);
      match QueueStep(steps[|steps| - 1])
      case None => before
      case Some(step) => before + [step]
  }

  lemma StepOfQueue<P>(s: Sys<P>, step: Step<P>)
    requires Inv(s) && !s.terminating && Enabled(s, step)
    ensures var q := QueueStep(step);
      if q.None? then Apply(s, step).q == s.q
      else F.Enabled(s.q, q.value) && Apply(s, step).q == F.Apply(s.q, q.value)
  {
    if step.Gone? { GoneIsPassive(s, step.i); }
  }

  lemma StepKeepsShape<P>(s: Sys<P>, step: Step<P>)
    requires Inv(s) && s.terminating && Enabled(s, step)
    ensures var t := Apply(s, step); F.Shape(t.q) && t.q.out == s.q.out && t.delimited <= t.ended
  {
    match step
    case Activate(i) => SwappedMembers(s.q.pipes, i, s.q.active);
    case Attach(a, parts) => SwappedMembers(s.q.pipes + [a], s.q.active, |s.q.pipes|);
    case Gone(i) => ErasedMembers(s.q.pipes, i);
    case _ =>
  }

  lemma StepKeepsInv<P>(s: Sys<P>, step: Step<P>)
    requires Inv(s) && Enabled(s, step)
    ensures Inv(Apply(s, step))
  {
    if s.terminating {
      StepKeepsShape(s, step);
    } else {
      StepKeepsPassed(s, step);
      StepOfQueue(s, step);
      var q := QueueStep(step);
      if q.Some? { F.StepKeepsInv(s.q, q.value); }
    }
  }

  lemma {:induction false} EveryRunKeepsInv<P>(steps: seq<Step<P>>)
    requires Run(New(), steps).Some?
    ensures Inv(Run(New(), steps).value)
  {
    if steps != [] {
      EveryRunKeepsInv(steps[..|steps| - 1]);
      StepKeepsInv(Run(New(), steps[..|steps| - 1]).value, steps[|steps| - 1]);
    }
  }

  /**
   * While the queue is not terminating, a pipe that goes is passive and read to its end, so that it is not
   * the pipe of a message in progress.
   */
  lemma DeparturesArePassive<P>(steps: seq<Step<P>>, i: nat)
    requires Run(New(), steps).Some? && !Run(New(), steps).value.terminating
    requires Enabled(Run(New(), steps).value, Step<P>.Gone(i))
    ensures var q := Run(New(), steps).value.q;
      && q.active <= i && q.pipes[i] in q.queues && q.queues[q.pipes[i]] == []
      && (q.more ==> q.current < q.active && q.pipes[q.current] != q.pipes[i])
  {
    EveryRunKeepsInv(steps);
    GoneIsPassive(Run(New(), steps).value, i);
  }

  /** Terminating or not, parts of different pipes are never interleaved. */
  lemma NeverInterleaved<P>(steps: seq<Step<P>>)
    requires Run(New(), steps).Some?
    ensures F.Uninterrupted(Run(New(), steps).value.q.out)
  {
    EveryRunKeepsInv(steps);
  }

  /** A pipe that has ended is read to its delimiter by a receive that finds nothing, and then it may go. */
  lemma EndedPipeGoes<P>(s: Sys<P>, p: P)
    requires Inv(s) && !s.terminating && p in s.ended && F.Active(s.q, p) && F.AfterRecv(s.q).out == s.q.out
    ensures var t := Apply(s, Step<P>.Recv);
      F.Shape(t.q) && p in t.delimited && !F.Active(t.q, p) && exists i: nat :: i < |t.q.pipes| && t.q.pipes[i] == p && Enabled(t, Step<P>.Gone(i))
  {
    ShapesKept(s.q);
    F.LookFinds(s.q);
    var t := Apply(s, Step<P>.Recv);
    assert F.Look(s.q).active == 0;
    assert p in t.q.pipes;
    var i :| 0 <= i < |t.q.pipes| && t.q.pipes[i] == p;
    assert Enabled(t, Step<P>.Gone(i));
  }

  /** Until it terminates, the queue makes a run in which only passive pipes go. */
  lemma {:induction false} RunOfQueue<P>(steps: seq<Step<P>>)
    requires Run(New(), steps).Some? && !Run(New(), steps).value.terminating
    ensures F.Run(New<P>().q, QueueSteps(steps)) == Some(Run(New(), steps).value.q)
  {
    if steps != [] {
      var before, step := steps[..|steps| - 1], steps[|steps| - 1];
      var s, q := Run(New(), before).value, QueueStep(step);
      EveryRunKeepsInv(before);
      RunOfQueue(before);
      StepOfQueue(s, step);
      if q.Some? { assert (QueueSteps(before) + [q.value])[..|QueueSteps(before)|] == QueueSteps(before); }
    }
  }
}
