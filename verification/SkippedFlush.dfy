/**
 * The flush that `writer_t::flush` skips while the writer is swapping. What it should have published is
 * published later, by the drain of the swap, or never: `Starved` tells which.
 */
module SkippedFlush {
  import opened Bytes
  import opened Wrappers
  import opened MessagePipe
  import P = YPipe
  import Swap

  /** The connection after a schedule of steps from `s`; None when some step was not enabled. */
  ghost function Continued(cfg: Config, s: State, steps: seq<Step>): Option<State> {
    if steps == [] then Some(s)
    else
      var step := steps[|steps| - 1];
      match Continued(cfg, s, steps[..|steps| - 1])
      case None => None
      case Some(t) => if Enabled(cfg, t, step) then Some(Apply(cfg, t, step)) else None
  }

  lemma {:induction false} RunContinued(cfg: Config, steps: seq<Step>, more: seq<Step>)
    requires Run(cfg, steps).Some?
    ensures Run(cfg, steps + more) == Continued(cfg, Run(cfg, steps).value, more)
  {
    if more == [] {
      assert steps + more == steps;
    } else {
      var n := |more| - 1;
      RunContinued(cfg, steps, more[..n]);
      assert (steps + more)[..|steps + more| - 1] == steps + more[..n];
    }
  }

  lemma {:induction false} ContinuedAfter(cfg: Config, s: State, step: Step, more: seq<Step>)
    requires Enabled(cfg, s, step)
    ensures Continued(cfg, s, [step] + more) == Continued(cfg, Apply(cfg, s, step), more)
  {
    if more == [] {
      assert [step] + more == [step] && [step][..0] == [];
    } else {
      var n := |more| - 1;
      ContinuedAfter(cfg, s, step, more[..n]);
      assert ([step] + more)[..|[step] + more| - 1] == [step] + more[..n];
    }
  }

  // ---- What is never published ----

  /** A complete message is in the pipe and not published, and the writer keeps later messages in the swap. */
  predicate Unflushed(s: State) { s.w.swapping && s.p.w < s.p.f }

  /** Reading what is published will not send the writer any news: no count on the way is a multiple of the low watermark. */
  predicate NoCreditAhead(cfg: Config, p: P.Pipe<Entry>) {
    forall j :: p.head < j <= p.w && j <= |p.items| && cfg.Lwm() > 0 ==> Done(p.items[..j]) % cfg.Lwm() != 0
  }

  /** No news for the writer is on its way, and the reader has none to send. */
  predicate Starved(cfg: Config, s: State) {
    Unflushed(s) && !s.w.drained && !s.r.terminating && s.toWriter == [] && NoCreditAhead(cfg, s.p)
  }

  /** The reader is going away, and the writer will hear of that only. */
  predicate Abandoned(s: State) {
    Unflushed(s) && !s.w.drained && s.r.terminating && (s.toWriter == [] || s.toWriter == [PipeTerm])
  }

  /** While the writer is swapping no delimiter is in the pipe. */
  lemma LookFinds(cfg: Config, s: State)
    requires Inv(cfg, s) && Unflushed(s)
    ensures var q := s.p.PrefetchStep();
      && q.w == s.p.w && q.f == s.p.f && q.items == s.p.items && q.head == s.p.head
      && (s.p.head < s.p.w <==> Front(q).Some?)
      && (Front(q).Some? ==> q.head < |q.items| && q.items[q.head].value == Front(q).value && Front(q).value.Part?)
  {
    PrefetchFacts(s.p);
  }

  /** Reading a published part: the count of messages read is sent exactly when it is a multiple of the low watermark. */
  lemma ReadFacts(cfg: Config, s: State)
    requires Inv(cfg, s) && Unflushed(s) && !s.r.terminating && s.r.active && s.p.head < s.p.w
    ensures Enabled(cfg, s, Read)
    ensures var t := Apply(cfg, s, Read);
      && Inv(cfg, t) && t.w == s.w && t.p.items == s.p.items && t.p.w == s.p.w && t.p.f == s.p.f && t.p.head == s.p.head + 1
      && !t.r.terminating && t.r.active && t.p.head <= |t.p.items|
      && t.r.msgsRead == Done(t.p.items[..t.p.head])
      && t.toWriter == s.toWriter + Credit(cfg, t.r)
  {
    LookFinds(cfg, s);
    ReadKeepsInv(cfg, s);
  }

  lemma ReadKeepsStarved(cfg: Config, s: State)
    requires Inv(cfg, s) && s.r.active && Starved(cfg, s) && s.p.head < s.p.w
    ensures Enabled(cfg, s, Read)
    ensures var t := Apply(cfg, s, Read); Starved(cfg, t) && t.p.w == s.p.w && t.p.items == s.p.items
  {
    ReadFacts(cfg, s);
  }

  lemma StepKeepsStarved(cfg: Config, s: State, step: Step)
    requires Inv(cfg, s) && Enabled(cfg, s, step) && (Starved(cfg, s) || Abandoned(s))
    ensures var t := Apply(cfg, s, step);
      (Starved(cfg, t) || Abandoned(t)) && t.p.w == s.p.w && t.p.items == s.p.items
  {
    match step
    case CheckRead => if s.r.active { LookFinds(cfg, s); }
    case Read => if s.r.active { if s.p.head < s.p.w { ReadKeepsStarved(cfg, s); } else { LookFinds(cfg, s); } }
    case _ =>
  }

  /** Then nothing is ever published, whatever happens: the reader gets no more than what is published already. */
  lemma {:induction false} StarvedForever(cfg: Config, s: State, more: seq<Step>)
    requires Inv(cfg, s) && Starved(cfg, s) && Continued(cfg, s, more).Some?
    ensures var t := Continued(cfg, s, more).value;
      && Inv(cfg, t) && (Starved(cfg, t) || Abandoned(t))
      && t.p.w == s.p.w && t.p.items == s.p.items
  {
    if more != [] {
      var n := |more| - 1;
      var u := Continued(cfg, s, more[..n]).value;
      StarvedForever(cfg, s, more[..n]);
      StepKeepsStarved(cfg, u, more[n]);
      StepKeepsInv(cfg, u, more[n]);
    }
  }

  // ---- Everything else is published ----

  /** Where the drain of the swap stopped, everything complete is published. */
  lemma {:induction false} DrainedIsFlushed(cfg: Config, steps: seq<Step>)
    requires Run(cfg, steps).Some?
    ensures var s := Run(cfg, steps).value; s.w.drained ==> s.p.w == s.p.f
  {
    if steps != [] {
      var n := |steps| - 1;
      var s := Run(cfg, steps[..n]).value;
      DrainedIsFlushed(cfg, steps[..n]);
      EveryRunKeepsInv(cfg, steps[..n]);
      StepKeepsDrained(cfg, s, steps[n]);
    }
  }

  lemma StepKeepsDrained(cfg: Config, s: State, step: Step)
    requires Inv(cfg, s) && Enabled(cfg, s, step) && (s.w.drained ==> s.p.w == s.p.f)
    ensures var t := Apply(cfg, s, step); t.w.drained ==> t.p.w == t.p.f
  {
    match step
    case WriterCommand => if s.w.swapping && s.toWriter[0].ActivateWriter? { DrainPublishes(cfg, s); }
    case CheckRead => PrefetchFacts(s.p);
    case Read => PrefetchFacts(s.p);
    case _ =>
  }

  /** News of a count publishes everything complete, whether or not it lets the writer move parts out of the swap. */
  lemma DrainPublishes(cfg: Config, s: State)
    requires Inv(cfg, s) && Enabled(cfg, s, WriterCommand) && s.w.swapping && s.toWriter[0].ActivateWriter?
    ensures var t := Apply(cfg, s, WriterCommand); t.p.w == t.p.f >= s.p.f
  {
    var w := s.w.(msgsRead := s.toWriter[0].msgsRead);
    DrainGrows(cfg, w, s.p);
    PopKeepsCredits(cfg, s.w.msgsRead, s.r.msgsRead, s.toWriter);
    DrainKeeps(cfg, w, s.r.msgsRead, s.p, s.log);
    FlushFacts(DrainedPipe(cfg, w, s.p));
  }

  /** A reader that is not terminating has sent counts only. */
  lemma OnlyCountsSent(s: State)
    requires Handshake(s.r, s.w.gone, s.toReader, s.toWriter) && !s.r.terminating
    ensures s.toWriter != [] ==> s.toWriter[0].ActivateWriter?
    ensures s.toReader != [] ==> s.toReader[0].ActivateReader?
  {
  }

  lemma WakeUpKeepsWaiting(cfg: Config, s: State)
    requires Inv(cfg, s) && !s.r.terminating && !s.r.active && s.p.head < s.p.w
    ensures Enabled(cfg, s, ReaderCommand)
    ensures Apply(cfg, s, ReaderCommand) == s.(r := s.r.(active := true), toReader := s.toReader[1..])
  {
    OnlyCountsSent(s);
  }

  lemma NextCredit(cfg: Config, p: P.Pipe<Entry>, q: P.Pipe<Entry>, j: nat)
    requires p.head < j <= p.w && j <= |p.items| && cfg.Lwm() > 0 && Done(p.items[..j]) % cfg.Lwm() == 0
    requires q.items == p.items && q.w == p.w && q.head == p.head + 1
    ensures j == q.head || !NoCreditAhead(cfg, q)
  {
  }

  /** Reading the part after which a count is due sends it; reading an earlier one brings it nearer. */
  lemma ReadTowardsCredit(cfg: Config, s: State)
    requires Inv(cfg, s) && Unflushed(s) && !s.r.terminating && s.r.active && s.toWriter == [] && !NoCreditAhead(cfg, s.p)
    ensures var t := Apply(cfg, s, Read);
      && Inv(cfg, t) && t.w == s.w && t.p.w == s.p.w && t.p.f == s.p.f && t.p.head == s.p.head + 1 <= t.p.w
      && !t.r.terminating && t.r.active
      && (t.toWriter == [] ==> !NoCreditAhead(cfg, t.p))
  {
    var j :| s.p.head < j <= s.p.w && j <= |s.p.items| && cfg.Lwm() > 0 && Done(s.p.items[..j]) % cfg.Lwm() == 0;
    ReadFacts(cfg, s);
    NextCredit(cfg, s.p, Apply(cfg, s, Read).p, j);
  }

  /** The reader reads, or one of the ends handles its next command. */
  predicate ReadsOn(step: Step) { step.WriterCommand? || step.ReaderCommand? || step.Read? }

  lemma ReadsOnMore(step: Step, more: seq<Step>)
    requires ReadsOn(step) && forall i :: 0 <= i < |more| ==> ReadsOn(more[i])
    ensures forall i :: 0 <= i < |[step] + more| ==> ReadsOn(([step] + more)[i])
  {
  }

  /** If it is not starved, some commands and reads publish what was not flushed. */
  lemma NotStarvedPublishes(cfg: Config, s: State) returns (more: seq<Step>)
    requires Inv(cfg, s) && Unflushed(s) && !s.w.drained && !s.r.terminating && !Starved(cfg, s)
    ensures Continued(cfg, s, more).Some? && Continued(cfg, s, more).value.p.w >= s.p.f
    ensures forall i :: 0 <= i < |more| ==> ReadsOn(more[i])
    decreases s.p.w - s.p.head, if s.r.active then 0 else 1
  {
    OnlyCountsSent(s);
    var step := if s.toWriter != [] then WriterCommand else if !s.r.active then ReaderCommand else Read;
    if s.toWriter != [] {
      DrainPublishes(cfg, s);
      more := [];
    } else if !s.r.active {
      WakeUpKeepsWaiting(cfg, s);
      ReaderCommandKeepsInv(cfg, s);
      more := NotStarvedPublishes(cfg, Apply(cfg, s, step));
    } else {
      ReadTowardsCredit(cfg, s);
      more := NotStarvedPublishes(cfg, Apply(cfg, s, step));
    }
    ContinuedAfter(cfg, s, step, more);
    ReadsOnMore(step, more);
    more := [step] + more;
  }

  /**
   * A message left unflushed by a skipped flush stays so for ever exactly when, at that time, no news for
   * the writer is on its way and none of the published parts will make the reader send any.
   */
  lemma LostExactlyWhenStarved(cfg: Config, steps: seq<Step>)
    requires Run(cfg, steps).Some?
    requires var s := Run(cfg, steps).value; Unflushed(s) && !s.r.terminating
    ensures var s := Run(cfg, steps).value;
      Starved(cfg, s) <==>
        forall more :: Run(cfg, steps + more).Some? ==> Run(cfg, steps + more).value.p.w == s.p.w
  {
    var s := Run(cfg, steps).value;
    EveryRunKeepsInv(cfg, steps);
    DrainedIsFlushed(cfg, steps);
    if Starved(cfg, s) {
      forall more | Run(cfg, steps + more).Some? ensures Run(cfg, steps + more).value.p.w == s.p.w {
        RunContinued(cfg, steps, more);
        StarvedForever(cfg, s, more);
      }
    } else {
      var more := NotStarvedPublishes(cfg, s);
      RunContinued(cfg, steps, more);
      assert Run(cfg, steps + more).value.p.w > s.p.w;
    }
  }

  /** So what the reader has got by then is all of what was published, at most, and the messages after it never arrive. */
  lemma StarvedMessagesNeverArrive(cfg: Config, steps: seq<Step>, more: seq<Step>)
    requires Run(cfg, steps).Some? && Starved(cfg, Run(cfg, steps).value) && Run(cfg, steps + more).Some?
    ensures var s, t := Run(cfg, steps).value, Run(cfg, steps + more).value;
      && s.p.w < s.p.f <= |s.p.items| && t.p.got <= P.Values(s.p.items[..s.p.w])
      && t.p.items == s.p.items
  {
    var s := Run(cfg, steps).value;
    EveryRunKeepsInv(cfg, steps);
    RunContinued(cfg, steps, more);
    StarvedForever(cfg, s, more);
    var head := Run(cfg, steps + more).value.p.head;
    P.ValuesPrefix(s.p.items[..s.p.w], head);
    assert s.p.items[..s.p.w][..head] == s.p.items[..head];
  }

  /** It happens: two messages written and then flushed, with room for one in the pipe. */
  lemma FlushSkippedForever(a: Message, b: Message, swapSize: nat)
    requires !HasMore(a.flags) && !HasMore(b.flags) && |Swap.Record(b)| < swapSize
    ensures var cfg := Config(1, swapSize);
      var steps := [Step.Write(a), Step.Write(b), Flush];
      && !FlushesInTime(cfg, steps)
      && Run(cfg, steps).Some?
      && Starved(cfg, Run(cfg, steps).value) && Run(cfg, steps).value.p.w == 0
  {
    var cfg := Config(1, swapSize);
    var first, second := [Step.Write(a)], [Step.Write(a), Step.Write(b)];
    var one := ApplyWrite(cfg, Init(), a);
    RunMore(cfg, [], Step.Write(a));
    assert [] + [Step.Write(a)] == first;
    assert one.w == Writer(true, 0, 1, [], false, false, false, false, false);
    RunMore(cfg, first, Step.Write(b));
    assert first + [Step.Write(b)] == second;
    RunMore(cfg, second, Flush);
    var steps := [Step.Write(a), Step.Write(b), Flush];
    assert second + [Flush] == steps;
    assert steps[..1] == first && Overflows(cfg, one.w, steps[1]);
  }

  // ---- When it cannot happen ----

  ghost predicate Overflows(cfg: Config, w: Writer, step: Step) {
    (step.Check? || step.Write?) && !w.swapping && CheckWrite(cfg, w, step.m).swapping
  }

  /** Every complete message is flushed before the next one overflows into the swap. */
  ghost predicate FlushesInTime(cfg: Config, steps: seq<Step>) {
    forall k :: 0 <= k < |steps| && Run(cfg, steps[..k]).Some? && Overflows(cfg, Run(cfg, steps[..k]).value.w, steps[k]) ==>
      Run(cfg, steps[..k]).value.p.w == Run(cfg, steps[..k]).value.p.f
  }

  lemma {:induction false} SwappingIsFlushed(cfg: Config, steps: seq<Step>)
    requires Run(cfg, steps).Some? && FlushesInTime(cfg, steps)
    ensures var s := Run(cfg, steps).value; s.w.swapping ==> s.p.w == s.p.f
  {
    if steps != [] {
      var n := |steps| - 1;
      assert forall k :: 0 <= k < n ==> steps[..n][..k] == steps[..k] && steps[..n][k] == steps[k];
      SwappingIsFlushed(cfg, steps[..n]);
      EveryRunKeepsInv(cfg, steps[..n]);
      EveryRunKeepsInv(cfg, steps);
      StepKeepsFlushed(cfg, Run(cfg, steps[..n]).value, steps[n]);
    }
  }

  lemma StepKeepsFlushed(cfg: Config, s: State, step: Step)
    requires Inv(cfg, s) && Enabled(cfg, s, step)
    requires s.w.swapping || Overflows(cfg, s.w, step) ==> s.p.w == s.p.f
    ensures var t := Apply(cfg, s, step); t.w.swapping ==> t.p.w == t.p.f
  {
    if step.WriterCommand? && s.toWriter[0].ActivateWriter? && s.w.swapping { DrainPublishes(cfg, s); }
    if step.CheckRead? || step.Read? { PrefetchFacts(s.p); }
  }

  /** Then a pipe with swap never comes to rest with messages in it while the reader waits. */
  lemma FlushingInTimeIsEnough(cfg: Config, steps: seq<Step>)
    requires Run(cfg, steps).Some? && FlushesInTime(cfg, steps)
    requires var s := Run(cfg, steps).value; Quiet(s) && !s.r.terminating
    ensures !Run(cfg, steps).value.w.swapping
  {
    SwappingIsFlushed(cfg, steps);
    EveryRunKeepsInv(cfg, steps);
    if Run(cfg, steps).value.w.swapping {
      QuietMeansUnflushed(cfg, steps);
    }
  }
}
