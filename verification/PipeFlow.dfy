/**
 * What the calls on a message pipe achieve: how much is accepted with nothing read, when a writer has to
 * wait, what a flush makes visible, and that a reader that stops brings the connection to its end.
 */
module PipeFlow {
  import opened Bytes
  import opened Wrappers
  import opened MessagePipe
  import P = YPipe
  import Swap

  // ---- Room

  /** A writer is inactive, or uses its swap, only with as many messages unconfirmed as the high watermark allows. */
  lemma WaitsOnlyWhenFull(cfg: Config, steps: seq<Step>)
    requires Run(cfg, steps).Some?
    ensures var w := Run(cfg, steps).value.w;
      !w.terminating && !w.drained && (!w.active || w.swapping) ==> cfg.hwm > 0 && w.msgsWritten == w.msgsRead + cfg.hwm
  {
    EveryRunKeepsInv(cfg, steps);
  }

  /**
   * When a part is accepted: the writer was not told to wait, and there is room for another message in the
   * pipe; or there is a swap that is not used yet; or the part fits the swap in use.
   */
  lemma AcceptedExactlyWhen(cfg: Config, s: State, m: Message)
    requires Enabled(cfg, s, Step.Write(m))
    ensures var t := Apply(cfg, s, Step.Write(m));
      if s.w.active && (if s.w.swapping then |Swap.Records(s.w.swap)| + |Swap.Record(m)| < cfg.swapSize
                        else cfg.hwm == 0 || s.w.msgsWritten != s.w.msgsRead + cfg.hwm || cfg.swapSize > 0)
      then t.log == s.log + [Clean(m)] && t.w.active
      else t.log == s.log && t.p == s.p && t.w.swap == s.w.swap && !t.w.active
  {
  }

  /** What `check_write` answers and does to the mode of the writer, which uses its swap from the first part that finds the pipe full. */
  lemma CheckAnswers(cfg: Config, w: Writer, m: Message)
    requires w.swapping ==> cfg.swapSize > 0
    ensures var v, full := CheckWrite(cfg, w, m), cfg.hwm > 0 && w.msgsWritten == w.msgsRead + cfg.hwm;
      && (v.active <==> w.active && if w.swapping then |Swap.Records(w.swap)| + |Swap.Record(m)| < cfg.swapSize else !full || cfg.swapSize > 0)
      && (v.swapping <==> w.swapping || (w.active && full && cfg.swapSize > 0))
      && v == w.(active := v.active, swapping := v.swapping)
  {
  }

  /** News of a count: a writer that uses its swap drains it; any other is active again. */
  lemma CountIsTaken(cfg: Config, s: State)
    requires Enabled(cfg, s, WriterCommand) && s.toWriter[0].ActivateWriter?
    ensures var t := Apply(cfg, s, WriterCommand);
      && t.w.msgsRead == s.toWriter[0].msgsRead && (t.w.drained <==> s.w.swapping) && t.w.swapping == s.w.swapping
      && (!s.w.swapping && !s.w.terminating ==> t.w.active)
      && (s.w.swapping ==> t.w.swap == [] || (cfg.hwm > 0 && t.w.msgsWritten == t.w.msgsRead + cfg.hwm))
  {
    var w := s.w.(msgsRead := s.toWriter[0].msgsRead);
    DrainShape(cfg, w, s.p);
    DrainGoesOn(cfg, w, s.p);
  }

  /** After the drain the writer leaves the swapping mode exactly when its swap is empty, and goes on. */
  lemma DrainIsFinished(cfg: Config, s: State)
    requires Inv(cfg, s) && Enabled(cfg, s, FinishActivation)
    ensures var t := Apply(cfg, s, FinishActivation);
      && !t.w.drained && (t.w.swapping <==> s.w.swap != []) && t.w.swap == s.w.swap
      && (!s.w.terminating ==> t.w.active) && (s.w.terminating && s.w.swap == [] ==> Ended(t.p) && t.p.w == |t.p.items|)
  {
    FinishActivationKeepsInv(cfg, s);
  }

  /** A part loses nothing but the bit that says its content is shared. */
  lemma CleanKeeps(m: Message)
    ensures Clean(m).body == m.body && HasMore(Clean(m).flags) == HasMore(m.flags) && Clean(m).flags < 128
  {
  }

  function Writes(ms: seq<Message>): seq<Step> {
    if ms == [] then [] else Writes(ms[..|ms| - 1]) + [Step.Write(ms[|ms| - 1])]
  }

  function Cleaned(ms: seq<Message>): seq<Message> {
    if ms == [] then [] else Cleaned(ms[..|ms| - 1]) + [Clean(ms[|ms| - 1])]
  }

  /** The number of complete messages. */
  function Messages(ms: seq<Message>): nat {
    if ms == [] then 0 else Messages(ms[..|ms| - 1]) + if HasMore(ms[|ms| - 1].flags) then 0 else 1
  }

  /** The writer has put all its parts into the pipe, and nobody has read or flushed any. */
  ghost predicate AllInPipe(s: State, ms: seq<Message>) {
    && s.w == Init().w.(msgsWritten := Messages(ms)) && s.r == Init().r
    && s.log == Cleaned(ms) && |s.p.items| == |ms| && s.p.head == 0
    && s.toReader == [] && s.toWriter == []
  }

  /** With nothing read at all, `hwm` complete messages of any number of parts are accepted into the pipe, and the parts of one after them only if the limit is not reached. */
  lemma {:induction false} PipeFillsUp(cfg: Config, ms: seq<Message>)
    requires cfg.hwm == 0 || ms == [] || Messages(ms[..|ms| - 1]) < cfg.hwm
    ensures Run(cfg, Writes(ms)).Some? && AllInPipe(Run(cfg, Writes(ms)).value, ms)
    decreases |ms|
  {
    if ms != [] {
      var n := |ms| - 1;
      if n > 0 { assert ms[..n][..n - 1] == ms[..n - 1]; }
      PipeFillsUp(cfg, ms[..n]);
      RunMore(cfg, Writes(ms[..n]), Step.Write(ms[n]));
    }
  }

  /** Then the swap takes parts as long as their records leave a free byte in it. */
  lemma {:induction false} SwapFillsUp(cfg: Config, ms: seq<Message>, more: seq<Message>)
    requires cfg.hwm > 0 && ms != [] && Messages(ms) == cfg.hwm && !HasMore(ms[|ms| - 1].flags)
    requires cfg.swapSize > 0 && |Swap.Records(Cleaned(more))| < cfg.swapSize
    ensures Run(cfg, Writes(ms) + Writes(more)).Some?
    ensures InSwap(cfg, Run(cfg, Writes(ms) + Writes(more)).value, more, Cleaned(ms) + Cleaned(more))
    decreases |more|
  {
    PipeFillsUp(cfg, ms);
    if more == [] {
      assert Writes(ms) + [] == Writes(ms) && Cleaned(ms) + [] == Cleaned(ms);
    } else {
      var n := |more| - 1;
      var front := Writes(ms) + Writes(more[..n]);
      OneRecordMore(more);
      SwapFillsUp(cfg, ms, more[..n]);
      SwapTakes(cfg, Run(cfg, front).value, more, Cleaned(ms) + Cleaned(more[..n]));
      RunMore(cfg, front, Step.Write(more[n]));
      OneWriteMore(ms, more);
    }
  }

  lemma OneWriteMore(ms: seq<Message>, more: seq<Message>)
    requires more != []
    ensures var n := |more| - 1;
      && Writes(ms) + Writes(more[..n]) + [Step.Write(more[n])] == Writes(ms) + Writes(more)
      && (Cleaned(ms) + Cleaned(more[..n])) + [Clean(more[n])] == Cleaned(ms) + Cleaned(more)
  {
  }

  /** The pipe is full, `more` is in the swap, and everything written was accepted. */
  ghost predicate InSwap(cfg: Config, s: State, more: seq<Message>, log: seq<Message>) {
    && s.w.active && !s.w.terminating && !s.w.drained && !s.w.gone
    && s.w.swapping == (more != []) && s.w.swap == Cleaned(more) && s.log == log
    && s.w.msgsWritten == cfg.hwm && s.w.msgsRead == 0
  }

  lemma SwapTakes(cfg: Config, s: State, more: seq<Message>, log: seq<Message>)
    requires cfg.hwm > 0 && cfg.swapSize > 0 && more != [] && InSwap(cfg, s, more[..|more| - 1], log)
    requires |Swap.Records(Cleaned(more))| < cfg.swapSize
    ensures Enabled(cfg, s, Step.Write(more[|more| - 1]))
    ensures InSwap(cfg, Apply(cfg, s, Step.Write(more[|more| - 1])), more, log + [Clean(more[|more| - 1])])
  {
    OneRecordMore(more);
  }

  lemma OneRecordMore(more: seq<Message>)
    requires more != []
    ensures var n := |more| - 1;
      |Swap.Records(Cleaned(more))| == |Swap.Records(Cleaned(more[..n]))| + |Swap.Record(more[n])|
  {
    var n := |more| - 1;
    Swap.RecordsAppend(Cleaned(more[..n]), Clean(more[n]));
  }

  /** The drain ends with nothing left in the swap, or with the pipe full again, and moves the oldest parts. */
  lemma {:induction false} DrainGoesOn(cfg: Config, w: Writer, p: P.Pipe<Entry>)
    ensures var v := DrainedWriter(cfg, w);
      && (v.swap == [] || (cfg.hwm > 0 && v.msgsWritten == v.msgsRead + cfg.hwm))
      && |v.swap| <= |w.swap| && v.swap == w.swap[|w.swap| - |v.swap|..]
      && |DrainedPipe(cfg, w, p).items| == |p.items| + |w.swap| - |v.swap|
    decreases |w.swap|
  {
    if !DrainStops(cfg, w) { DrainGoesOn(cfg, Unstored(w), PutPart(p, w.swap[0])); }
  }

  // ---- Flush and rollback

  /** After a flush outside the swapping mode every complete message can be read, and a reader that slept gets one wake-up. */
  lemma FlushPublishes(cfg: Config, s: State)
    requires Inv(cfg, s) && Enabled(cfg, s, Flush)
    ensures var t := Apply(cfg, s, Flush);
      if s.w.swapping then t == s
      else
        && t.p.w == t.p.f == s.p.f && t.p.items == s.p.items && t.w == s.w && t.r == s.r && t.log == s.log
        && t.toReader == s.toReader + (if s.p.c == P.Null && s.p.w < s.p.f then [ActivateReader] else [])
  {
    FlushFacts(s.p);
  }

  /** What a rollback leaves of the parts: the longest beginning that is whole messages. */
  lemma {:induction false} LongestFinished(parts: seq<Message>)
    ensures var r := DropUnfinished(parts);
      && r <= parts && Finished(r) && forall k :: |r| < k <= |parts| ==> !Finished(parts[..k])
    decreases |parts|
  {
    assert parts[..|parts|] == parts;
    if !Finished(parts) {
      var n := |parts| - 1;
      LongestFinished(parts[..n]);
      forall k | |DropUnfinished(parts)| < k <= |parts| ensures !Finished(parts[..k]) {
        if k <= n { assert parts[..n][..k] == parts[..k]; }
      }
    }
  }

  // ---- Counts for the writer

  /** The writer is told only of multiples of the low watermark. */
  ghost predicate MultiplesOnly(cfg: Config, s: State) {
    cfg.Lwm() > 0 ==>
      && s.w.msgsRead % cfg.Lwm() == 0
      && forall i :: 0 <= i < |s.toWriter| && s.toWriter[i].ActivateWriter? ==> s.toWriter[i].msgsRead % cfg.Lwm() == 0
  }

  lemma StepKeepsMultiples(cfg: Config, s: State, step: Step)
    requires Inv(cfg, s) && Enabled(cfg, s, step) && MultiplesOnly(cfg, s)
    ensures MultiplesOnly(cfg, Apply(cfg, s, step))
  {
    if step.WriterCommand? || step.FinishActivation? {
      WriterCountKept(cfg, s, step);
    } else if step.Read? || step.CheckRead? || step.StopReader? {
      ReaderCountKept(cfg, s, step);
    }
  }

  lemma ReaderCountKept(cfg: Config, s: State, step: Step)
    requires Enabled(cfg, s, step) && (step.Read? || step.CheckRead? || step.StopReader?)
    ensures var t := Apply(cfg, s, step);
      && t.w == s.w && |s.toWriter| <= |t.toWriter| && t.toWriter[..|s.toWriter|] == s.toWriter
      && forall i :: |s.toWriter| <= i < |t.toWriter| && t.toWriter[i].ActivateWriter? ==> cfg.Lwm() > 0 && t.toWriter[i].msgsRead % cfg.Lwm() == 0
  {
  }

  lemma WriterCountKept(cfg: Config, s: State, step: Step)
    requires Enabled(cfg, s, step) && (step.WriterCommand? || step.FinishActivation?)
    ensures var t := Apply(cfg, s, step);
      && t.w.msgsRead == (if step.WriterCommand? && s.toWriter[0].ActivateWriter? then s.toWriter[0].msgsRead else s.w.msgsRead)
      && t.toWriter == if step.WriterCommand? then s.toWriter[1..] else s.toWriter
  {
    if step.WriterCommand? && s.toWriter[0].ActivateWriter? {
      DrainShape(cfg, s.w.(msgsRead := s.toWriter[0].msgsRead), s.p);
    }
  }

  lemma {:induction false} OnlyMultiplesAreSent(cfg: Config, steps: seq<Step>)
    requires Run(cfg, steps).Some?
    ensures MultiplesOnly(cfg, Run(cfg, steps).value)
  {
    if steps != [] {
      var n := |steps| - 1;
      EveryRunKeepsInv(cfg, steps[..n]);
      OnlyMultiplesAreSent(cfg, steps[..n]);
      StepKeepsMultiples(cfg, Run(cfg, steps[..n]).value, steps[n]);
    }
  }

  // ---- Stopping

  /** A reader that stops is not active any more and has told the writer once. */
  lemma ReaderStops(cfg: Config, s: State)
    requires Inv(cfg, s) && Enabled(cfg, s, StopReader)
    ensures var t := Apply(cfg, s, StopReader);
      && t.r.terminating && t.toWriter == s.toWriter + (if s.r.terminating then [] else [PipeTerm])
      && (!s.r.terminating ==> !t.r.active) && t.p == s.p && t.w == s.w
  {
    assert s.toWriter + [] == s.toWriter;
  }

  /** A writer that stops accepts nothing more; what it leaves ends in a published delimiter, or will when its swap is empty. */
  lemma WriterStops(cfg: Config, s: State)
    requires Inv(cfg, s) && Enabled(cfg, s, StopWriter)
    ensures var t := Apply(cfg, s, StopWriter);
      && t.w.terminating && !t.w.active
      && (if t.w.swapping then t.w.pendingDelimiter else Ended(t.p) && t.p.w == |t.p.items|)
  {
    StopWriterKeepsInv(cfg, s);
  }

  /** The handling of commands that were sent. */
  predicate Handles(step: Step) { step.WriterCommand? || step.FinishActivation? || step.ReaderCommand? }

  function Underway(s: State): nat { 4 * |s.toWriter| + (if s.w.drained then 2 else 0) + |s.toReader| }

  lemma HandlingReduces(cfg: Config, s: State, step: Step)
    requires Enabled(cfg, s, step) && Handles(step) && !(step.WriterCommand? && s.w.drained)
    ensures var t := Apply(cfg, s, step); Underway(t) < Underway(s) && t.r.terminating == s.r.terminating
  {
    if step.WriterCommand? { CommandReduces(cfg, s); }
  }

  lemma CommandReduces(cfg: Config, s: State)
    requires Enabled(cfg, s, WriterCommand)
    ensures var t := Apply(cfg, s, WriterCommand); Underway(t) < Underway(s) && t.r.terminating == s.r.terminating
  {
    if s.toWriter[0].ActivateWriter? { DrainShape(cfg, s.w.(msgsRead := s.toWriter[0].msgsRead), s.p); }
  }

  ghost predicate AllHandle(steps: seq<Step>) { forall i :: 0 <= i < |steps| ==> Handles(steps[i]) }

  lemma OneBefore(steps: seq<Step>, step: Step, rest: seq<Step>)
    ensures steps + [step] + rest == steps + ([step] + rest)
    ensures Handles(step) && AllHandle(rest) ==> AllHandle([step] + rest)
  {
  }

  /** Once the reader is terminating, handling the commands that are underway frees both ends. */
  lemma {:induction false} CommandsFreeBoth(cfg: Config, steps: seq<Step>) returns (more: seq<Step>)
    requires Run(cfg, steps).Some? && Run(cfg, steps).value.r.terminating
    ensures AllHandle(more) && Run(cfg, steps + more).Some?
    ensures var s := Run(cfg, steps + more).value; s.r.gone && s.w.gone
    decreases Underway(Run(cfg, steps).value)
  {
    EveryRunKeepsInv(cfg, steps);
    var s := Run(cfg, steps).value;
    if Underway(s) == 0 {
      more := [];
      assert steps + [] == steps;
    } else {
      var step := if s.w.drained then FinishActivation else if s.toWriter != [] then WriterCommand else ReaderCommand;
      HandlingReduces(cfg, s, step);
      RunMore(cfg, steps, step);
      var rest := CommandsFreeBoth(cfg, steps + [step]);
      OneBefore(steps, step, rest);
      more := [step] + rest;
    }
  }

  /**
   * In whatever state the connection is, with messages in the pipe or in the swap and commands underway: the
   * reader can stop, and when the commands have been handled both ends are freed.
   */
  lemma ReaderCanAlwaysStop(cfg: Config, steps: seq<Step>) returns (more: seq<Step>)
    requires Run(cfg, steps).Some?
    ensures AllHandle(more)
    ensures var all := if Run(cfg, steps).value.r.gone then steps + more else steps + [StopReader] + more;
      Run(cfg, all).Some? && Run(cfg, all).value.r.gone && Run(cfg, all).value.w.gone
  {
    EveryRunKeepsInv(cfg, steps);
    var s := Run(cfg, steps).value;
    if s.r.gone {
      more := CommandsFreeBoth(cfg, steps);
    } else {
      RunMore(cfg, steps, StopReader);
      ReaderStops(cfg, s);
      more := CommandsFreeBoth(cfg, steps + [StopReader]);
    }
  }
}
