/**
 * The message pipe: a writer and a reader endpoint over the single-producer, single-consumer pipe, with
 * flow control, the overflow to the message swap, and the shutdown handshake. Both directions of
 * commands are FIFO queues. One step is one call of one endpoint, except that `process_activate_writer`
 * is two, because it may flush twice.
 */
module MessagePipe {
  import opened Bytes
  import opened Wrappers
  import opened YPipe
  import P = YPipe
  import Swap

  datatype Entry = Part(m: Message) | Delimiter

  const MAX_WM_DELTA: nat := 1024

  /** `swapSize` 0 stands for a pipe without swap, `hwm` 0 for a pipe without limit. */
  datatype Config = Config(hwm: nat, swapSize: nat) {
    function Lwm(): nat { if hwm > MAX_WM_DELTA * 2 then hwm - MAX_WM_DELTA else (hwm + 1) / 2 }
  }

  datatype ToReader = ActivateReader | PipeTermAck
  datatype ToWriter = ActivateWriter(msgsRead: nat) | PipeTerm

  /** `gone` is set when the endpoint has been freed. */
  datatype Reader = Reader(active: bool, msgsRead: nat, terminating: bool, gone: bool)

  /** `drained` is set between the two halves of `process_activate_writer`. */
  datatype Writer = Writer(
    active: bool, msgsRead: nat, msgsWritten: nat, swap: seq<Message>, swapping: bool,
    pendingDelimiter: bool, terminating: bool, gone: bool, drained: bool)

  datatype State = State(
    r: Reader, w: Writer, p: Pipe<Entry>,
    toReader: seq<ToReader>, toWriter: seq<ToWriter>,
    log: seq<Message>)  // history: the parts the writer accepted, less the unfinished ones rolled back

  function Init(): State {
    State(Reader(true, 0, false, false), Writer(true, 0, 0, [], false, false, false, false, false), Empty(), [], [], [])
  }

  // ---- The writer ----

  predicate Full(cfg: Config, w: Writer) { cfg.hwm > 0 && w.msgsWritten - w.msgsRead == cfg.hwm }

  function Clean(m: Message): Message { Message(DropShared(m.flags), m.body) }

  predicate AllClean(ms: seq<Message>) { forall i :: 0 <= i < |ms| ==> Clean(ms[i]) == ms[i] }

  predicate FitsSwap(cfg: Config, w: Writer, m: Message) {
    |Swap.Records(w.swap)| + |Swap.Record(m)| < cfg.swapSize
  }

  /** The writer after `check_write`; the answer is whether it is active. */
  function CheckWrite(cfg: Config, w: Writer, m: Message): Writer {
    if !w.active then w
    else if w.swapping then w.(active := FitsSwap(cfg, w, m))
    else if !Full(cfg, w) then w
    else if cfg.swapSize > 0 then w.(swapping := true)
    else w.(active := false)
  }

  /** The assertion on the result of `store`. */
  predicate StoreSucceeds(cfg: Config, w: Writer, m: Message) {
    var v := CheckWrite(cfg, w, m);
    v.active && v.swapping ==> FitsSwap(cfg, v, m)
  }

  function WritePart(w: Writer, m: Message): Writer {
    if HasMore(m.flags) then w else w.(msgsWritten := w.msgsWritten + 1)
  }

  function PutPart(p: Pipe<Entry>, m: Message): Pipe<Entry> { p.WriteStep(Part(m), HasMore(m.flags)) }

  function Flushed(p: Pipe<Entry>): Pipe<Entry> {
    var q := p.TryPublishStep();
    if q.writer == MustStore then q.StoreStep() else q
  }

  /** The command that goes with a flush that returned false. */
  function Wake(p: Pipe<Entry>): seq<ToReader> {
    if p.TryPublishStep().writer == MustStore then [ActivateReader] else []
  }

  function RolledBack(p: Pipe<Entry>): Pipe<Entry> {
    if p.f <= |p.items| then p.(items := p.items[..p.f]) else p
  }

  function DropUnfinished(parts: seq<Message>): seq<Message> {
    if Finished(parts) then parts else DropUnfinished(parts[..|parts| - 1])
  }

  predicate DrainStops(cfg: Config, w: Writer) { Full(cfg, w) || w.swap == [] }

  /** The oldest part has left the swap and is counted as written. */
  function Unstored(w: Writer): (v: Writer)
    requires w.swap != []
    ensures v == w.(swap := w.swap[1..], msgsWritten := v.msgsWritten)
  {
    WritePart(w.(swap := w.swap[1..]), w.swap[0])
  }

  function DrainedWriter(cfg: Config, w: Writer): Writer
    decreases |w.swap|
  {
    if DrainStops(cfg, w) then w else DrainedWriter(cfg, Unstored(w))
  }

  function DrainedPipe(cfg: Config, w: Writer, p: Pipe<Entry>): Pipe<Entry>
    decreases |w.swap|
  {
    if DrainStops(cfg, w) then p
    else DrainedPipe(cfg, Unstored(w), PutPart(p, w.swap[0]))
  }

  function Reactivated(w: Writer): Writer { if w.terminating then w else w.(active := true) }

  // ---- The reader ----

  /** The front of the pipe after the check of the pipe itself; None when there is nothing to read. */
  function Front(p: Pipe<Entry>): Option<Entry> {
    if p.HasItem() && p.head < |p.items| then Some(p.items[p.head].value) else None
  }

  function Taken(p: Pipe<Entry>): Pipe<Entry> { if p.head < |p.items| then p.TakeStep() else p }

  function CountRead(r: Reader, m: Message): Reader {
    if HasMore(m.flags) then r else r.(msgsRead := r.msgsRead + 1)
  }

  function Credit(cfg: Config, r: Reader): seq<ToWriter> {
    if cfg.Lwm() > 0 && r.msgsRead % cfg.Lwm() == 0 then [ActivateWriter(r.msgsRead)] else []
  }

  function Stopped(r: Reader): Reader { if r.terminating then r else r.(active := false, terminating := true) }

  function Farewell(r: Reader): seq<ToWriter> { if r.terminating then [] else [PipeTerm] }

  // ---- The steps ----

  datatype Step =
    | Check(m: Message) | Write(m: Message) | Rollback | Flush | StopWriter | WriterCommand | FinishActivation
    | CheckRead | Read | StopReader | ReaderCommand

  ghost predicate Enabled(cfg: Config, s: State, step: Step) {
    match step
    case Check(_) => !s.w.gone && !s.w.drained
    case Write(m) => !s.w.gone && !s.w.drained && StoreSucceeds(cfg, s.w, m)
    // Rolling back the swap is left out: nothing unfinished may be in it.
    case Rollback => !s.w.gone && !s.w.drained && (s.w.swapping ==> Finished(s.w.swap))
    case Flush => !s.w.gone && !s.w.drained
    case StopWriter => !s.w.gone && !s.w.drained && (s.w.swapping ==> Finished(s.w.swap))
    case WriterCommand => s.toWriter != [] && !s.w.drained
    case FinishActivation => s.w.drained
    // A sink stops reading once the pipe is being terminated.
    case CheckRead => !s.r.gone && !s.r.terminating
    case Read => !s.r.gone && !s.r.terminating
    case StopReader => !s.r.gone
    case ReaderCommand => s.toReader != []
  }

  /** The part goes to the end of the swap, or to the end of the pipe. */
  ghost function Appended(s: State, m: Message): State {
    if s.w.swapping then s.(w := s.w.(swap := s.w.swap + [Clean(m)]), log := s.log + [Clean(m)])
    else s.(w := WritePart(s.w, m), p := PutPart(s.p, m), log := s.log + [Clean(m)])
  }

  ghost function ApplyWrite(cfg: Config, s: State, m: Message): State {
    var t := s.(w := CheckWrite(cfg, s.w, m));
    if t.w.active then Appended(t, m) else t
  }

  ghost function ApplyRollback(s: State): State {
    if s.w.swapping then s else s.(p := RolledBack(s.p), log := DropUnfinished(s.log))
  }

  ghost function ApplyFlush(s: State): State {
    if s.w.swapping then s else s.(p := Flushed(s.p), toReader := s.toReader + Wake(s.p))
  }

  ghost function PutDelimiter(s: State): State {
    ApplyFlush(s.(p := s.p.WriteStep(Delimiter, false)))
  }

  ghost function ApplyStopWriter(s: State): State {
    if s.w.terminating then s
    else
      var t := ApplyRollback(s.(w := s.w.(terminating := true, active := false)));
      if s.w.swapping then t.(w := t.w.(pendingDelimiter := true)) else PutDelimiter(t)
  }

  /** First half of `process_activate_writer`: up to and including the flush after the drain loop. */
  ghost function Activated(cfg: Config, s: State, msgsRead: nat): State {
    var w := s.w.(msgsRead := msgsRead);
    if !w.swapping then s.(w := Reactivated(w))
    else
      var p := DrainedPipe(cfg, w, s.p);
      s.(w := DrainedWriter(cfg, w).(drained := true), p := Flushed(p), toReader := s.toReader + Wake(p))
  }

  ghost function ApplyWriterCommand(cfg: Config, s: State): State
    requires s.toWriter != []
  {
    var rest := s.(toWriter := s.toWriter[1..]);
    match s.toWriter[0]
    case PipeTerm => rest.(w := s.w.(gone := true), toReader := s.toReader + [PipeTermAck])
    case ActivateWriter(n) => Activated(cfg, rest, n)
  }

  ghost function ApplyFinishActivation(s: State): State {
    var t := s.(w := s.w.(drained := false));
    if t.w.swap != [] then t.(w := Reactivated(t.w))
    else if t.w.pendingDelimiter then PutDelimiter(t.(w := t.w.(swapping := false)))
    else t.(w := Reactivated(t.w.(swapping := false)))
  }

  ghost function ApplyStopReader(s: State): State {
    s.(r := Stopped(s.r), toWriter := s.toWriter + Farewell(s.r))
  }

  ghost function ApplyCheckRead(s: State): State {
    if !s.r.active then s
    else
      var t := s.(p := s.p.PrefetchStep());
      match Front(t.p)
      case None => t.(r := t.r.(active := false))
      case Some(Delimiter) => ApplyStopReader(t.(p := Taken(t.p)))
      case Some(Part(_)) => t
  }

  ghost function ApplyRead(cfg: Config, s: State): State {
    if !s.r.active then s
    else
      var t := s.(p := s.p.PrefetchStep());
      match Front(t.p)
      case None => t.(r := t.r.(active := false))
      case Some(Delimiter) => ApplyStopReader(t.(p := Taken(t.p)))
      case Some(Part(m)) =>
        var r := CountRead(t.r, m);
        t.(r := r, p := Taken(t.p), toWriter := t.toWriter + Credit(cfg, r))
  }

  ghost function ApplyReaderCommand(s: State): State
    requires s.toReader != []
  {
    var rest := s.(toReader := s.toReader[1..]);
    match s.toReader[0]
    case ActivateReader => rest.(r := s.r.(active := true))
    case PipeTermAck => rest.(r := s.r.(gone := true))
  }

  ghost function Apply(cfg: Config, s: State, step: Step): State
    requires Enabled(cfg, s, step)
  {
    match step
    case Check(m) => s.(w := CheckWrite(cfg, s.w, m))
    case Write(m) => ApplyWrite(cfg, s, m)
    case Rollback => ApplyRollback(s)
    case Flush => ApplyFlush(s)
    case StopWriter => ApplyStopWriter(s)
    case WriterCommand => ApplyWriterCommand(cfg, s)
    case FinishActivation => ApplyFinishActivation(s)
    case CheckRead => ApplyCheckRead(s)
    case Read => ApplyRead(cfg, s)
    case StopReader => ApplyStopReader(s)
    case ReaderCommand => ApplyReaderCommand(s)
  }

  ghost function Run(cfg: Config, steps: seq<Step>): Option<State> {
    if steps == [] then Some(Init())
    else
      var step := steps[|steps| - 1];
      match Run(cfg, steps[..|steps| - 1])
      case None => None
      case Some(s) => if Enabled(cfg, s, step) then Some(Apply(cfg, s, step)) else None
  }

  // ---- The invariant ----

  /** The message parts among the entries, in order. */
  function Parts(entries: seq<Entry>): seq<Message> {
    if entries == [] then []
    else
      var n := |entries| - 1;
      Parts(entries[..n]) + if entries[n].Part? then [Clean(entries[n].m)] else []
  }

  /** How many items end a message. */
  function Done(items: seq<Item<Entry>>): nat {
    if items == [] then 0
    else
      var n := |items| - 1;
      Done(items[..n]) + if items[n].value.Part? && !items[n].incomplete then 1 else 0
  }

  predicate Tagged(i: Item<Entry>) { i.incomplete <==> i.value.Part? && HasMore(i.value.m.flags) }

  predicate Ended(p: Pipe<Entry>) { p.items != [] && p.items[|p.items| - 1].value == Delimiter }

  /** The delimiter was taken. */
  predicate Over(p: Pipe<Entry>) { Ended(p) && p.head == |p.items| }

  predicate Pending(w: Writer) { w.pendingDelimiter && w.swapping }

  predicate Whole(p: Pipe<Entry>) { p.f == |p.items| }

  /** The flag kept with an item is its MORE bit, and a delimiter comes last. */
  ghost predicate Tidy(items: seq<Item<Entry>>) {
    && (forall i :: 0 <= i < |items| ==> Tagged(items[i]))
    && (forall i :: 0 <= i < |items| - 1 ==> items[i].value.Part?)
  }

  /** Nothing is lost, repeated or reordered on the way from the writer through pipe and swap. */
  ghost predicate Content(p: Pipe<Entry>, swap: seq<Message>, log: seq<Message>) {
    && p.Inv() && p.writer == Between
    && Tidy(p.items)
    && AllClean(swap)
    && Parts(Values(p.items)) + swap == log
  }

  ghost predicate Modes(w: Writer, p: Pipe<Entry>, log: seq<Message>) {
    && (w.swapping || w.swap == [])
    && (w.pendingDelimiter ==> w.terminating)
    && (w.terminating && w.swapping ==> w.pendingDelimiter)
    && (w.terminating ==> !w.active && Finished(log))
    && (Ended(p) <==> w.terminating && !Pending(w))
    && (Ended(p) ==> p.w == |p.items|)
    && (w.drained ==> w.swapping && !w.gone)
  }

  ghost predicate Counts(cfg: Config, w: Writer, read: nat, p: Pipe<Entry>) {
    && w.msgsWritten == Done(p.items)
    && p.head <= |p.items| && read == Done(p.items[..p.head])
    && w.msgsRead <= read <= w.msgsWritten
    && (cfg.hwm > 0 ==> w.msgsWritten <= w.msgsRead + cfg.hwm)
    && (!Whole(p) ==> !Full(cfg, w))
  }

  ghost predicate Blocked(cfg: Config, w: Writer) {
    && (w.swapping ==> cfg.swapSize > 0 && cfg.hwm > 0)
    && (w.swapping ==> Full(cfg, w) || (w.drained && w.swap == []))
    && (!w.active && !w.terminating && !w.drained ==> Full(cfg, w))
  }

  /** Some activation, already handled or in flight, confirms at least `t` messages. */
  ghost predicate Credited(confirmed: nat, toWriter: seq<ToWriter>, t: int) {
    confirmed >= t || exists i :: 0 <= i < |toWriter| && toWriter[i].ActivateWriter? && toWriter[i].msgsRead >= t
  }

  ghost predicate Credits(cfg: Config, confirmed: nat, read: nat, toWriter: seq<ToWriter>) {
    && (forall i :: 0 <= i < |toWriter| && toWriter[i].ActivateWriter? ==> confirmed <= toWriter[i].msgsRead <= read)
    && (forall i, j :: 0 <= i < j < |toWriter| && toWriter[i].ActivateWriter? && toWriter[j].ActivateWriter? ==>
          toWriter[i].msgsRead <= toWriter[j].msgsRead)
    && (cfg.hwm > 0 ==> Credited(confirmed, toWriter, Sent(cfg, read)))
  }

  /** The last multiple of the low watermark. */
  function Sent(cfg: Config, read: nat): int { if cfg.Lwm() == 0 then 0 else read - read % cfg.Lwm() }

  predicate TermSent(toWriter: seq<ToWriter>) { toWriter != [] && toWriter[|toWriter| - 1].PipeTerm? }

  predicate AckSent(toReader: seq<ToReader>) { toReader != [] && toReader[|toReader| - 1].PipeTermAck? }

  ghost predicate Handshake(r: Reader, writerGone: bool, toReader: seq<ToReader>, toWriter: seq<ToWriter>) {
    && (forall i :: 0 <= i < |toWriter| - 1 ==> toWriter[i].ActivateWriter?)
    && (forall i :: 0 <= i < |toReader| - 1 ==> toReader[i].ActivateReader?)
    && (r.terminating <==> TermSent(toWriter) || writerGone)
    && (writerGone <==> AckSent(toReader) || r.gone)
    && (writerGone ==> toWriter == [])
    && (r.gone ==> toReader == [])
  }

  /** Until it terminates, the reader is awake, or asleep in the pipe, or about to be woken. */
  ghost predicate Wakes(r: Reader, c: Ptr, toReader: seq<ToReader>) {
    !r.terminating ==> |toReader| + (if r.active then 1 else 0) == if c == Null then 0 else 1
  }

  /** Taking the delimiter terminates the reader. */
  ghost predicate Answered(r: Reader, p: Pipe<Entry>) { Over(p) ==> r.terminating }

  ghost predicate Inv(cfg: Config, s: State) {
    && Content(s.p, s.w.swap, s.log)
    && Modes(s.w, s.p, s.log)
    && Counts(cfg, s.w, s.r.msgsRead, s.p)
    && Blocked(cfg, s.w)
    && Credits(cfg, s.w.msgsRead, s.r.msgsRead, s.toWriter)
    && Handshake(s.r, s.w.gone, s.toReader, s.toWriter)
    && Wakes(s.r, s.p.c, s.toReader)
    && Answered(s.r, s.p)
  }

  // ---- Sequence lemmas ----

  lemma {:induction false} ValuesAt<T>(items: seq<Item<T>>)
    ensures |Values(items)| == |items|
    ensures forall i :: 0 <= i < |items| ==> Values(items)[i] == items[i].value
  {
    if items != [] { ValuesAt(items[..|items| - 1]); }
  }

  lemma ValuesAppend<T>(items: seq<Item<T>>, i: Item<T>)
    ensures Values(items + [i]) == Values(items) + [i.value]
  {
    assert (items + [i])[..|items|] == items;
  }

  lemma PartsAppend(entries: seq<Entry>, e: Entry)
    ensures Parts(entries + [e]) == Parts(entries) + if e.Part? then [Clean(e.m)] else []
  {
    assert (entries + [e])[..|entries|] == entries;
  }

  lemma DoneAppend(items: seq<Item<Entry>>, i: Item<Entry>)
    ensures Done(items + [i]) == Done(items) + if i.value.Part? && !i.incomplete then 1 else 0
  {
    assert (items + [i])[..|items|] == items;
  }

  lemma {:induction false} PartsConcat(a: seq<Entry>, b: seq<Entry>)
    ensures Parts(a + b) == Parts(a) + Parts(b)
  {
    if b == [] {
      assert a + b == a;
    } else {
      var n := |b| - 1;
      PartsConcat(a, b[..n]);
      LastOf(a, b);
      PartsAppend(a + b[..n], b[n]);
    }
  }

  lemma LastOf<T>(a: seq<T>, b: seq<T>)
    requires b != []
    ensures a + b == (a + b[..|b| - 1]) + [b[|b| - 1]]
  {
  }

  lemma {:induction false} DoneOfPrefix(items: seq<Item<Entry>>, n: nat)
    requires n <= |items|
    ensures Done(items[..n]) <= Done(items)
    ensures (forall i :: n <= i < |items| ==> items[i].incomplete) ==> Done(items[..n]) == Done(items)
  {
    if n < |items| {
      var last := |items| - 1;
      DoneOfPrefix(items[..last], n);
      assert items[..last][..n] == items[..n];
    } else {
      assert items[..n] == items;
    }
  }

  lemma LastPart(items: seq<Item<Entry>>)
    requires items != [] && items[|items| - 1].value.Part? && Tagged(items[|items| - 1])
    ensures var parts := Parts(Values(items));
      && parts != [] && parts[..|parts| - 1] == Parts(Values(items[..|items| - 1]))
      && HasMore(parts[|parts| - 1].flags) == items[|items| - 1].incomplete
  {
    var n := |items| - 1;
    assert items == items[..n] + [items[n]];
    ValuesAppend(items[..n], items[n]);
    PartsAppend(Values(items[..n]), items[n].value);
  }

  /** Dropping the items of the unfinished message is dropping the unfinished parts. */
  lemma {:induction false} DropIncomplete(items: seq<Item<Entry>>, f: nat)
    requires f <= |items| && (f == 0 || !items[f - 1].incomplete)
    requires forall i :: f <= i < |items| ==> items[i].incomplete
    requires forall i :: 0 <= i < |items| ==> Tagged(items[i]) && items[i].value.Part?
    ensures DropUnfinished(Parts(Values(items))) == Parts(Values(items[..f]))
    decreases |items|
  {
    if items != [] { LastPart(items); }
    if f == |items| {
      assert items[..f] == items;
    } else {
      DropIncomplete(items[..|items| - 1], f);
      assert items[..|items| - 1][..f] == items[..f];
    }
  }

  lemma {:induction false} FinishedAfterDrop(parts: seq<Message>)
    ensures Finished(DropUnfinished(parts))
  {
    if !Finished(parts) { FinishedAfterDrop(parts[..|parts| - 1]); }
  }

  lemma FlushFacts(p: Pipe<Entry>)
    requires p.Inv() && p.writer == Between
    ensures var q := Flushed(p);
      q.Inv() && q.writer == Between && q.items == p.items && q.head == p.head && q.w == q.f == p.f
      && q.c == (if p.w == p.f then p.c else At(p.f))
    ensures Wake(p) == if p.c == Null && p.w != p.f then [ActivateReader] else []
  {
    P.StepKeepsInv(p, P.Step<Entry>.TryPublish);
    var q := p.TryPublishStep();
    if q.writer == MustStore { P.StepKeepsInv(q, P.Step<Entry>.Store); }
  }

  // ---- Every step keeps the invariant ----

  lemma PutFacts(p: Pipe<Entry>, e: Entry, incomplete: bool)
    requires p.Inv() && p.writer == Between
    ensures var q := p.WriteStep(e, incomplete);
      && q.Inv()
      && Parts(Values(q.items)) == Parts(Values(p.items)) + (if e.Part? then [Clean(e.m)] else [])
      && Done(q.items) == Done(p.items) + (if e.Part? && !incomplete then 1 else 0)
      && q.items[..q.head] == p.items[..p.head]
  {
    P.StepKeepsInv(p, P.Step.Write(e, incomplete));
    ItemsAppend(p.items, e, incomplete);
    PrefixStays(p.items, Item(e, incomplete), p.head);
  }

  lemma ItemsAppend(items: seq<Item<Entry>>, e: Entry, incomplete: bool)
    ensures Parts(Values(items + [Item(e, incomplete)])) == Parts(Values(items)) + if e.Part? then [Clean(e.m)] else []
    ensures Done(items + [Item(e, incomplete)]) == Done(items) + if e.Part? && !incomplete then 1 else 0
  {
    ValuesAppend(items, Item(e, incomplete));
    PartsAppend(Values(items), e);
    DoneAppend(items, Item(e, incomplete));
  }

  lemma PrefixStays<T>(s: seq<T>, x: T, n: nat)
    requires n <= |s|
    ensures (s + [x])[..n] == s[..n]
  {
  }

  lemma PutKeepsContent(p: Pipe<Entry>, log: seq<Message>, m: Message)
    requires Content(p, [], log) && !Ended(p)
    ensures Content(PutPart(p, m), [], log + [Clean(m)]) && !Ended(PutPart(p, m))
  {
    PutFacts(p, Part(m), HasMore(m.flags));
    TidyAppend(p.items, Item(Part(m), HasMore(m.flags)));
  }

  lemma TidyAppend(items: seq<Item<Entry>>, i: Item<Entry>)
    requires Tidy(items) && Tagged(i) && (items != [] ==> items[|items| - 1].value.Part?)
    ensures Tidy(items + [i])
  {
  }

  lemma PutKeepsCounts(cfg: Config, w: Writer, read: nat, p: Pipe<Entry>, m: Message)
    requires Counts(cfg, w, read, p) && !Full(cfg, w) && p.Inv() && p.writer == Between
    ensures Counts(cfg, WritePart(w, m), read, PutPart(p, m))
  {
    PutFacts(p, Part(m), HasMore(m.flags));
  }

  lemma CheckKeepsInv(cfg: Config, s: State, m: Message)
    requires Inv(cfg, s) && Enabled(cfg, s, Check(m))
    ensures Inv(cfg, Apply(cfg, s, Check(m)))
  {
  }

  lemma StoreKeepsContent(p: Pipe<Entry>, swap: seq<Message>, log: seq<Message>, m: Message)
    requires Content(p, swap, log)
    ensures Content(p, swap + [Clean(m)], log + [Clean(m)])
  {
    assert Parts(Values(p.items)) + (swap + [Clean(m)]) == (Parts(Values(p.items)) + swap) + [Clean(m)];
  }

  lemma WriteKeepsInv(cfg: Config, s: State, m: Message)
    requires Inv(cfg, s) && Enabled(cfg, s, Step.Write(m))
    ensures Inv(cfg, Apply(cfg, s, Step.Write(m)))
  {
    CheckKeepsInv(cfg, s, m);
    var w := CheckWrite(cfg, s.w, m);
    if w.active && w.swapping {
      StoreKeepsContent(s.p, w.swap, s.log, m);
    } else if w.active {
      PutKeepsInv(cfg, s, m);
    }
  }

  lemma PutKeepsInv(cfg: Config, s: State, m: Message)
    requires Inv(cfg, s) && !s.w.gone && !s.w.drained && s.w.active && !s.w.swapping && !Full(cfg, s.w)
    ensures Inv(cfg, Appended(s, m))
  {
    PutKeepsContent(s.p, s.log, m);
    PutKeepsCounts(cfg, s.w, s.r.msgsRead, s.p, m);
    assert Modes(WritePart(s.w, m), PutPart(s.p, m), s.log + [Clean(m)]);
    assert Credits(cfg, s.w.msgsRead, s.r.msgsRead, s.toWriter);
  }

  lemma RollbackFacts(p: Pipe<Entry>)
    requires p.Inv() && p.writer == Between
    ensures var q := RolledBack(p);
      q.Inv() && Whole(q) && Done(q.items) == Done(p.items) && q.items[..p.head] == p.items[..p.head]
  {
    DoneOfPrefix(p.items, p.f);
    assert RolledBack(p).items[..p.head] == p.items[..p.head];
  }

  lemma RollbackDropsItems(p: Pipe<Entry>)
    requires p.Inv() && Tidy(p.items) && !Ended(p)
    ensures Parts(Values(RolledBack(p).items)) == DropUnfinished(Parts(Values(p.items)))
  {
    DropIncomplete(p.items, p.f);
  }

  lemma RollbackDropsParts(p: Pipe<Entry>, log: seq<Message>)
    requires Content(p, [], log) && (Ended(p) ==> Finished(log) && Whole(p))
    ensures Parts(Values(RolledBack(p).items)) == DropUnfinished(log) && Finished(DropUnfinished(log))
  {
    FinishedAfterDrop(log);
    ContentSplits(p, [], log);
    if Ended(p) {
      assert p.items[..|p.items|] == p.items;
    } else {
      RollbackDropsItems(p);
    }
  }

  lemma RollbackKeepsTidy(p: Pipe<Entry>)
    requires p.Inv() && Tidy(p.items) && (Ended(p) ==> Whole(p))
    ensures Tidy(RolledBack(p).items) && Ended(RolledBack(p)) == Ended(p)
  {
    if Whole(p) { assert RolledBack(p).items == p.items; }
  }

  lemma RollbackKeepsContent(p: Pipe<Entry>, log: seq<Message>)
    requires Content(p, [], log) && (Ended(p) ==> Finished(log) && Whole(p))
    ensures Content(RolledBack(p), [], DropUnfinished(log)) && Finished(DropUnfinished(log))
    ensures Ended(RolledBack(p)) == Ended(p)
  {
    RollbackFacts(p);
    RollbackKeepsTidy(p);
    RollbackDropsParts(p, log);
    assert DropUnfinished(log) + [] == DropUnfinished(log);
  }

  lemma RollbackKeepsInv(cfg: Config, s: State)
    requires Inv(cfg, s) && Enabled(cfg, s, Rollback)
    ensures Inv(cfg, Apply(cfg, s, Rollback))
  {
    if !s.w.swapping {
      RollbackKeepsContent(s.p, s.log);
      RollbackFacts(s.p);
    }
  }

  lemma FlushKeepsContent(p: Pipe<Entry>, swap: seq<Message>, log: seq<Message>)
    requires Content(p, swap, log)
    ensures Content(Flushed(p), swap, log) && Ended(Flushed(p)) == Ended(p)
  {
    FlushFacts(p);
  }

  /** A flush wakes a sleeping reader, and only that. */
  lemma FlushKeepsReader(r: Reader, p: Pipe<Entry>, toReader: seq<ToReader>, toWriter: seq<ToWriter>)
    requires p.Inv() && p.writer == Between
    requires Wakes(r, p.c, toReader) && Handshake(r, false, toReader, toWriter)
    ensures Wakes(r, Flushed(p).c, toReader + Wake(p)) && Handshake(r, false, toReader + Wake(p), toWriter)
  {
    FlushFacts(p);
  }

  lemma PublishKeepsInv(cfg: Config, s: State)
    requires Inv(cfg, s) && !s.w.gone
    ensures Inv(cfg, s.(p := Flushed(s.p), toReader := s.toReader + Wake(s.p)))
  {
    FlushKeepsContent(s.p, s.w.swap, s.log);
    FlushKeepsReader(s.r, s.p, s.toReader, s.toWriter);
    FlushFacts(s.p);
  }

  lemma FlushKeepsInv(cfg: Config, s: State)
    requires Inv(cfg, s) && Enabled(cfg, s, Flush)
    ensures Inv(cfg, Apply(cfg, s, Flush))
  {
    PublishKeepsInv(cfg, s);
  }

  lemma ReaderCommandKeepsInv(cfg: Config, s: State)
    requires Inv(cfg, s) && Enabled(cfg, s, ReaderCommand)
    ensures Inv(cfg, Apply(cfg, s, ReaderCommand))
  {
    var t := Apply(cfg, s, ReaderCommand);
    PopKeepsReader(s.r, s.p.c, s.w.gone, s.toReader, s.toWriter);
    assert t.p == s.p && t.w == s.w && t.log == s.log && t.toWriter == s.toWriter;
  }

  lemma PopKeepsReader(r: Reader, c: Ptr, writerGone: bool, toReader: seq<ToReader>, toWriter: seq<ToWriter>)
    requires Handshake(r, writerGone, toReader, toWriter) && Wakes(r, c, toReader) && toReader != []
    ensures var t := if toReader[0].PipeTermAck? then r.(gone := true) else r.(active := true);
      Handshake(t, writerGone, toReader[1..], toWriter) && Wakes(t, c, toReader[1..])
  {
  }

  lemma StopReaderKeepsInv(cfg: Config, s: State)
    requires Inv(cfg, s) && Enabled(cfg, s, StopReader)
    ensures Inv(cfg, Apply(cfg, s, StopReader))
  {
    if !s.r.terminating {
      StopKeepsHandshake(s.r, s.w.gone, s.toReader, s.toWriter);
      SendKeepsCredits(cfg, s.w.msgsRead, s.r.msgsRead, s.toWriter, PipeTerm);
    } else {
      assert s.toWriter + [] == s.toWriter;
    }
  }

  lemma StopKeepsHandshake(r: Reader, writerGone: bool, toReader: seq<ToReader>, toWriter: seq<ToWriter>)
    requires Handshake(r, writerGone, toReader, toWriter) && !r.terminating
    ensures Handshake(Stopped(r), writerGone, toReader, toWriter + [PipeTerm])
  {
  }

  /** A further command leaves the credits sent so far in place. */
  lemma SendKeepsCredits(cfg: Config, confirmed: nat, read: nat, toWriter: seq<ToWriter>, cmd: ToWriter)
    requires Credits(cfg, confirmed, read, toWriter)
    requires cmd.ActivateWriter? ==> cmd.msgsRead == read && confirmed <= read
    ensures Credits(cfg, confirmed, read, toWriter + [cmd])
  {
    CreditedMore(confirmed, toWriter, [cmd], Sent(cfg, read));
  }

  lemma CreditedMore(confirmed: nat, toWriter: seq<ToWriter>, more: seq<ToWriter>, t: int)
    requires Credited(confirmed, toWriter, t)
    ensures Credited(confirmed, toWriter + more, t)
  {
    if confirmed < t {
      var i :| 0 <= i < |toWriter| && toWriter[i].ActivateWriter? && toWriter[i].msgsRead >= t;
      assert (toWriter + more)[i] == toWriter[i];
    }
  }

  // ---- Reading ----

  lemma PrefetchFacts(p: Pipe<Entry>)
    requires p.Inv()
    ensures var q := p.PrefetchStep();
      && q.Inv() && q.writer == p.writer && q.items == p.items && q.head == p.head && q.f == p.f && q.w == p.w
      && (Front(q).Some? <==> p.head < p.w)
      && q.c == (if p.head < p.w then p.c else Null)
  {
    P.StepKeepsInv(p, P.Step<Entry>.Prefetch);
    CheckReadSeesFlushed(p);
  }

  lemma TakeFacts(p: Pipe<Entry>)
    requires p.Inv() && Front(p).Some?
    ensures var q := Taken(p);
      && q.Inv() && q.writer == p.writer && q.items == p.items && q.head == p.head + 1 && q.f == p.f && q.w == p.w && q.c == p.c
      && Done(q.items[..q.head]) == Done(p.items[..p.head]) +
          (if p.items[p.head].value.Part? && !p.items[p.head].incomplete then 1 else 0)
      && Done(q.items[..q.head]) <= Done(p.items)
  {
    P.StepKeepsInv(p, P.Step<Entry>.Take);
    assert p.items[..p.head + 1] == p.items[..p.head] + [p.items[p.head]];
    DoneAppend(p.items[..p.head], p.items[p.head]);
    DoneOfPrefix(p.items, p.head + 1);
  }

  lemma NextMultiple(read: nat, d: nat)
    requires d > 0
    ensures (read + 1) % d == 0 || (read + 1) - (read + 1) % d == read - read % d
    ensures read % d < d
  {
    if (read + 1) % d != 0 {
      Swap.DivModUnique(read, (read + 1) / d, (read + 1) % d - 1, d);
    }
  }

  lemma ReadKeepsCredits(cfg: Config, confirmed: nat, r: Reader, toWriter: seq<ToWriter>, m: Message)
    requires Credits(cfg, confirmed, r.msgsRead, toWriter) && confirmed <= r.msgsRead
    ensures var t := CountRead(r, m); Credits(cfg, confirmed, t.msgsRead, toWriter + Credit(cfg, t))
  {
    var t := CountRead(r, m);
    if cfg.Lwm() > 0 {
      NextMultiple(r.msgsRead, cfg.Lwm());
    }
    if Credit(cfg, t) == [] {
      assert toWriter + [] == toWriter;
    } else {
      var more := toWriter + [ActivateWriter(t.msgsRead)];
      assert more[|toWriter|] == ActivateWriter(t.msgsRead);
      assert Credited(confirmed, more, Sent(cfg, t.msgsRead));
    }
  }

  lemma ReadKeepsHandshake(cfg: Config, r: Reader, writerGone: bool, toReader: seq<ToReader>, toWriter: seq<ToWriter>, m: Message)
    requires Handshake(r, writerGone, toReader, toWriter) && !r.terminating
    ensures var t := CountRead(r, m); Handshake(t, writerGone, toReader, toWriter + Credit(cfg, t))
  {
  }

  /** The check of the pipe itself; a reader that finds nothing goes to sleep. */
  lemma LookKeepsInv(cfg: Config, s: State)
    requires Inv(cfg, s) && !s.r.terminating && s.r.active
    ensures var t := s.(p := s.p.PrefetchStep());
      Inv(cfg, if Front(t.p) == None then t.(r := t.r.(active := false)) else t)
  {
    var r := if Front(s.p.PrefetchStep()) == None then s.r.(active := false) else s.r;
    PrefetchFacts(s.p);
    PrefetchKeepsContent(s.p, s.w.swap, s.log);
    PrefetchKeepsReader(s.r, s.p, s.toReader);
    assert Handshake(r, s.w.gone, s.toReader, s.toWriter);
  }

  lemma PrefetchKeepsContent(p: Pipe<Entry>, swap: seq<Message>, log: seq<Message>)
    requires Content(p, swap, log)
    ensures Content(p.PrefetchStep(), swap, log)
  {
    PrefetchFacts(p);
  }

  /** The reader goes to sleep exactly when the pipe notes that it does. */
  lemma PrefetchKeepsReader(r: Reader, p: Pipe<Entry>, toReader: seq<ToReader>)
    requires p.Inv() && Wakes(r, p.c, toReader) && r.active
    ensures var q := p.PrefetchStep();
      Wakes(if Front(q) == None then r.(active := false) else r, q.c, toReader)
  {
    PrefetchFacts(p);
  }

  lemma CheckReadKeepsInv(cfg: Config, s: State)
    requires Inv(cfg, s) && Enabled(cfg, s, CheckRead)
    ensures Inv(cfg, Apply(cfg, s, CheckRead))
  {
    if s.r.active {
      LookKeepsInv(cfg, s);
      var t := s.(p := s.p.PrefetchStep());
      match Front(t.p)
      case None =>
      case Some(Delimiter) => DelimiterKeepsInv(cfg, t);
      case Some(Part(_)) =>
    }
  }

  lemma DelimiterKeepsInv(cfg: Config, s: State)
    requires Inv(cfg, s) && !s.r.terminating && Front(s.p) == Some(Delimiter)
    ensures Inv(cfg, ApplyStopReader(s.(p := Taken(s.p))))
  {
    TakeFacts(s.p);
    StopKeepsHandshake(s.r, s.w.gone, s.toReader, s.toWriter);
    SendKeepsCredits(cfg, s.w.msgsRead, s.r.msgsRead, s.toWriter, PipeTerm);
  }

  lemma ReadKeepsInv(cfg: Config, s: State)
    requires Inv(cfg, s) && Enabled(cfg, s, Read)
    ensures Inv(cfg, Apply(cfg, s, Read))
  {
    if s.r.active {
      LookKeepsInv(cfg, s);
      var t := s.(p := s.p.PrefetchStep());
      match Front(t.p)
      case None =>
      case Some(Delimiter) => DelimiterKeepsInv(cfg, t);
      case Some(Part(_)) => ReadPartKeepsInv(cfg, t);
    }
  }

  lemma ReadPartKeepsInv(cfg: Config, s: State)
    requires Inv(cfg, s) && !s.r.terminating && Front(s.p).Some? && Front(s.p).value.Part?
    ensures var r := CountRead(s.r, Front(s.p).value.m);
      Inv(cfg, s.(r := r, p := Taken(s.p), toWriter := s.toWriter + Credit(cfg, r)))
  {
    var m := Front(s.p).value.m;
    TakeFacts(s.p);
    ReadKeepsCredits(cfg, s.w.msgsRead, s.r, s.toWriter, m);
    ReadKeepsHandshake(cfg, s.r, s.w.gone, s.toReader, s.toWriter, m);
    ReadKeepsCounts(cfg, s.w, s.r, s.p, s.w.swap, s.log);
  }

  lemma ReadKeepsCounts(cfg: Config, w: Writer, r: Reader, p: Pipe<Entry>, swap: seq<Message>, log: seq<Message>)
    requires Content(p, swap, log) && Counts(cfg, w, r.msgsRead, p) && Front(p).Some? && Front(p).value.Part?
    ensures Content(Taken(p), swap, log) && Counts(cfg, w, CountRead(r, Front(p).value.m).msgsRead, Taken(p))
    ensures !Over(Taken(p))
  {
    TakeKeepsContent(p, swap, log);
    TakeKeepsCounts(cfg, w, r, p);
    TakePartFacts(p);
  }

  lemma TakePartFacts(p: Pipe<Entry>)
    requires p.Inv() && Front(p).Some? && Front(p).value.Part?
    ensures !Over(Taken(p))
  {
  }

  lemma TakeKeepsContent(p: Pipe<Entry>, swap: seq<Message>, log: seq<Message>)
    requires Content(p, swap, log) && Front(p).Some?
    ensures Content(Taken(p), swap, log)
  {
    TakeFacts(p);
  }

  lemma TakeKeepsCounts(cfg: Config, w: Writer, r: Reader, p: Pipe<Entry>)
    requires p.Inv() && Counts(cfg, w, r.msgsRead, p) && Front(p).Some? && Front(p).value.Part? && Tagged(p.items[p.head])
    ensures Counts(cfg, w, CountRead(r, Front(p).value.m).msgsRead, Taken(p))
  {
    TakeFacts(p);
  }

  // ---- Stopping the writer, and its commands ----

  /** The pipe with the delimiter written and not yet flushed. */
  lemma PutDelimiterKeepsInv(cfg: Config, s: State)
    requires Content(s.p, [], s.log) && !Ended(s.p) && Counts(cfg, s.w, s.r.msgsRead, s.p)
    requires s.w.terminating && !s.w.swapping && !s.w.active && !s.w.gone && !s.w.drained && s.w.swap == [] && Finished(s.log)
    requires Credits(cfg, s.w.msgsRead, s.r.msgsRead, s.toWriter)
    requires Handshake(s.r, false, s.toReader, s.toWriter) && Wakes(s.r, s.p.c, s.toReader)
    ensures Inv(cfg, PutDelimiter(s))
  {
    var t := s.(p := s.p.WriteStep(Delimiter, false));
    PutFacts(s.p, Delimiter, false);
    PutDelimiterKeepsContent(s.p, s.log);
    assert Counts(cfg, t.w, t.r.msgsRead, t.p);
    FlushDelimiterKeepsInv(cfg, t);
  }

  lemma FlushDelimiterKeepsInv(cfg: Config, s: State)
    requires Content(s.p, [], s.log) && Ended(s.p) && Whole(s.p) && s.p.head < |s.p.items|
    requires Counts(cfg, s.w, s.r.msgsRead, s.p)
    requires s.w.terminating && !s.w.swapping && !s.w.active && !s.w.gone && !s.w.drained && s.w.swap == [] && Finished(s.log)
    requires Credits(cfg, s.w.msgsRead, s.r.msgsRead, s.toWriter)
    requires Handshake(s.r, false, s.toReader, s.toWriter) && Wakes(s.r, s.p.c, s.toReader)
    ensures Inv(cfg, ApplyFlush(s))
  {
    FlushKeepsContent(s.p, [], s.log);
    FlushKeepsReader(s.r, s.p, s.toReader, s.toWriter);
    FlushFacts(s.p);
  }

  lemma PutDelimiterKeepsContent(p: Pipe<Entry>, log: seq<Message>)
    requires Content(p, [], log) && !Ended(p)
    ensures Content(p.WriteStep(Delimiter, false), [], log) && Ended(p.WriteStep(Delimiter, false))
  {
    var parts := Parts(Values(p.items));
    PutFacts(p, Delimiter, false);
    TidyAppend(p.items, Item(Delimiter, false));
    assert parts + [] == parts && log + [] == log;
  }

  lemma StopWriterKeepsInv(cfg: Config, s: State)
    requires Inv(cfg, s) && Enabled(cfg, s, StopWriter)
    ensures Inv(cfg, Apply(cfg, s, StopWriter))
  {
    if !s.w.terminating && !s.w.swapping {
      RollbackKeepsContent(s.p, s.log);
      RollbackFacts(s.p);
      PutDelimiterKeepsInv(cfg, ApplyRollback(s.(w := s.w.(terminating := true, active := false))));
    }
  }

  lemma PopKeepsCredits(cfg: Config, confirmed: nat, read: nat, toWriter: seq<ToWriter>)
    requires Credits(cfg, confirmed, read, toWriter) && toWriter != [] && toWriter[0].ActivateWriter?
    ensures Credits(cfg, toWriter[0].msgsRead, read, toWriter[1..])
  {
    var t := Sent(cfg, read);
    if cfg.hwm > 0 && toWriter[0].msgsRead < t {
      var i :| 0 <= i < |toWriter| && toWriter[i].ActivateWriter? && toWriter[i].msgsRead >= t;
      assert toWriter[1..][i - 1] == toWriter[i];
    }
  }

  lemma {:induction false} DrainShape(cfg: Config, w: Writer, p: Pipe<Entry>)
    ensures var v := DrainedWriter(cfg, w);
      v == w.(swap := v.swap, msgsWritten := v.msgsWritten) && DrainStops(cfg, v)
    ensures var q := DrainedPipe(cfg, w, p); q == p.(items := q.items, f := q.f)
    decreases |w.swap|
  {
    if !DrainStops(cfg, w) {
      DrainShape(cfg, Unstored(w), PutPart(p, w.swap[0]));
    }
  }

  lemma {:induction false} DrainGrows(cfg: Config, w: Writer, p: Pipe<Entry>)
    requires p.f <= |p.items|
    ensures p.f <= DrainedPipe(cfg, w, p).f
    decreases |w.swap|
  {
    if !DrainStops(cfg, w) {
      DrainGrows(cfg, Unstored(w), PutPart(p, w.swap[0]));
    }
  }

  lemma {:induction false} DrainKeeps(cfg: Config, w: Writer, read: nat, p: Pipe<Entry>, log: seq<Message>)
    requires Content(p, w.swap, log) && !Ended(p) && Counts(cfg, w, read, p)
    ensures var v, q := DrainedWriter(cfg, w), DrainedPipe(cfg, w, p);
      Content(q, v.swap, log) && !Ended(q) && Counts(cfg, v, read, q)
    decreases |w.swap|
  {
    if !DrainStops(cfg, w) {
      MoveKeepsCounts(cfg, w, read, p);
      MoveKeepsContent(p, w.swap, log);
      DrainKeeps(cfg, Unstored(w), read, PutPart(p, w.swap[0]), log);
    }
  }

  lemma MoveKeepsCounts(cfg: Config, w: Writer, read: nat, p: Pipe<Entry>)
    requires Counts(cfg, w, read, p) && p.Inv() && p.writer == Between && !DrainStops(cfg, w)
    ensures Counts(cfg, Unstored(w), read, PutPart(p, w.swap[0]))
  {
    PutKeepsCounts(cfg, w.(swap := w.swap[1..]), read, p, w.swap[0]);
  }

  lemma MoveKeepsContent(p: Pipe<Entry>, swap: seq<Message>, log: seq<Message>)
    requires Content(p, swap, log) && !Ended(p) && swap != []
    ensures Content(PutPart(p, swap[0]), swap[1..], log) && !Ended(PutPart(p, swap[0]))
  {
    var done := Parts(Values(p.items));
    ContentSplits(p, swap, log);
    PutKeepsContent(p, done, swap[0]);
    ContentJoins(PutPart(p, swap[0]), done + [Clean(swap[0])], swap[1..]);
    OneMoved(done, swap);
  }

  lemma OneMoved<T>(done: seq<T>, more: seq<T>)
    requires more != []
    ensures done + [more[0]] + more[1..] == done + more
  {
  }

  lemma ContentJoins(p: Pipe<Entry>, parts: seq<Message>, swap: seq<Message>)
    requires Content(p, [], parts) && AllClean(swap)
    ensures Content(p, swap, parts + swap)
  {
    ContentSplits(p, [], parts);
  }

  /** The parts in the pipe and the parts in the swap can be looked at separately. */
  lemma ContentSplits(p: Pipe<Entry>, swap: seq<Message>, log: seq<Message>)
    requires Content(p, swap, log)
    ensures Content(p, [], Parts(Values(p.items)))
    ensures swap == [] ==> log == Parts(Values(p.items))
  {
    assert Parts(Values(p.items)) + [] == Parts(Values(p.items));
  }

  lemma TermKeepsInv(cfg: Config, s: State)
    requires Inv(cfg, s) && Enabled(cfg, s, WriterCommand) && s.toWriter[0].PipeTerm?
    ensures Inv(cfg, Apply(cfg, s, WriterCommand))
  {
    assert s.toWriter == [PipeTerm];
    assert !s.w.gone && s.r.terminating;
  }

  lemma ActivateKeepsInv(cfg: Config, s: State)
    requires Inv(cfg, s) && Enabled(cfg, s, WriterCommand) && s.toWriter[0].ActivateWriter?
    ensures Inv(cfg, Apply(cfg, s, WriterCommand))
  {
    PopKeepsCredits(cfg, s.w.msgsRead, s.r.msgsRead, s.toWriter);
    var t := s.(w := s.w.(msgsRead := s.toWriter[0].msgsRead), toWriter := s.toWriter[1..]);
    assert Handshake(t.r, false, t.toReader, t.toWriter);
    assert Counts(cfg, t.w, t.r.msgsRead, t.p);
    if s.w.swapping {
      DrainKeepsInv(cfg, t);
    }
  }

  /** The drain loop and the flush after it, once the new count has been stored. */
  lemma DrainKeepsInv(cfg: Config, s: State)
    requires Content(s.p, s.w.swap, s.log) && Modes(s.w, s.p, s.log) && Counts(cfg, s.w, s.r.msgsRead, s.p)
    requires s.w.swapping && cfg.swapSize > 0 && cfg.hwm > 0 && !s.w.gone
    requires Credits(cfg, s.w.msgsRead, s.r.msgsRead, s.toWriter)
    requires Handshake(s.r, false, s.toReader, s.toWriter) && Wakes(s.r, s.p.c, s.toReader)
    ensures var p := DrainedPipe(cfg, s.w, s.p);
      Inv(cfg, s.(w := DrainedWriter(cfg, s.w).(drained := true), p := Flushed(p), toReader := s.toReader + Wake(p)))
  {
    var t := s.(w := DrainedWriter(cfg, s.w).(drained := true), p := DrainedPipe(cfg, s.w, s.p));
    DrainShape(cfg, s.w, s.p);
    DrainKeeps(cfg, s.w, s.r.msgsRead, s.p, s.log);
    assert Modes(t.w, t.p, t.log) && Counts(cfg, t.w, t.r.msgsRead, t.p) && Blocked(cfg, t.w);
    PublishKeepsInv(cfg, t);
  }

  lemma FinishActivationKeepsInv(cfg: Config, s: State)
    requires Inv(cfg, s) && Enabled(cfg, s, FinishActivation)
    ensures Inv(cfg, Apply(cfg, s, FinishActivation))
  {
    if s.w.swap == [] && s.w.pendingDelimiter {
      PutDelimiterKeepsInv(cfg, s.(w := s.w.(drained := false, swapping := false)));
    }
  }

  lemma StepKeepsInv(cfg: Config, s: State, step: Step)
    requires Inv(cfg, s) && Enabled(cfg, s, step)
    ensures Inv(cfg, Apply(cfg, s, step))
  {
    match step
    case Check(m) => CheckKeepsInv(cfg, s, m);
    case Write(m) => WriteKeepsInv(cfg, s, m);
    case Rollback => RollbackKeepsInv(cfg, s);
    case Flush => FlushKeepsInv(cfg, s);
    case StopWriter => StopWriterKeepsInv(cfg, s);
    case WriterCommand => if s.toWriter[0].PipeTerm? { TermKeepsInv(cfg, s); } else { ActivateKeepsInv(cfg, s); }
    case FinishActivation => FinishActivationKeepsInv(cfg, s);
    case CheckRead => CheckReadKeepsInv(cfg, s);
    case Read => ReadKeepsInv(cfg, s);
    case StopReader => StopReaderKeepsInv(cfg, s);
    case ReaderCommand => ReaderCommandKeepsInv(cfg, s);
  }

  lemma {:induction false} EveryRunKeepsInv(cfg: Config, steps: seq<Step>)
    requires Run(cfg, steps).Some?
    ensures Inv(cfg, Run(cfg, steps).value)
  {
    if steps != [] {
      EveryRunKeepsInv(cfg, steps[..|steps| - 1]);
      StepKeepsInv(cfg, Run(cfg, steps[..|steps| - 1]).value, steps[|steps| - 1]);
    }
  }

  // ---- What holds in every run ----

  /** Taken, unread in the pipe, in the swap: together the accepted parts in order; only whole messages are visible. */
  lemma OrderKept(cfg: Config, steps: seq<Step>)
    requires Run(cfg, steps).Some?
    ensures var s := Run(cfg, steps).value;
      && s.p.head <= s.p.w <= |s.p.items|
      && Parts(s.p.got) + Parts(Values(s.p.items[s.p.head..])) + s.w.swap == s.log
      && (!s.w.swapping ==> s.w.swap == [])
      && s.p.Boundary(s.p.w)
  {
    EveryRunKeepsInv(cfg, steps);
    var p := Run(cfg, steps).value.p;
    GotIsPrefix(p);
    PartsConcat(p.got, Values(p.items[p.head..]));
  }

  lemma GotIsPrefix(p: Pipe<Entry>)
    requires p.Inv()
    ensures p.head <= |p.items| && Values(p.items) == p.got + Values(p.items[p.head..])
  {
    ValuesAt(p.items);
    ValuesAt(p.items[..p.head]);
    ValuesAt(p.items[p.head..]);
  }

  lemma {:induction false} DoneConcat(a: seq<Item<Entry>>, b: seq<Item<Entry>>)
    ensures Done(a + b) == Done(a) + Done(b)
  {
    if b == [] {
      assert a + b == a;
    } else {
      var n := |b| - 1;
      DoneConcat(a, b[..n]);
      assert a + b == (a + b[..n]) + [b[n]];
      DoneAppend(a + b[..n], b[n]);
    }
  }

  /** The complete messages in the pipe that the reader has not taken. */
  function Unread(p: Pipe<Entry>): nat
    requires p.head <= |p.items|
  {
    Done(p.items[p.head..])
  }

  lemma UnreadIsDifference(p: Pipe<Entry>)
    requires p.head <= |p.items|
    ensures Unread(p) == Done(p.items) - Done(p.items[..p.head])
  {
    DoneConcat(p.items[..p.head], p.items[p.head..]);
    assert p.items == p.items[..p.head] + p.items[p.head..];
  }

  /** The low watermark is half the high one below it, but never further away than the greatest distance wanted. */
  lemma WaterMarks(cfg: Config)
    ensures cfg.hwm - cfg.Lwm() == if cfg.hwm / 2 <= MAX_WM_DELTA then cfg.hwm / 2 else MAX_WM_DELTA
    ensures cfg.hwm > 0 ==> 1 <= cfg.Lwm() <= cfg.hwm
  {
  }

  /** The high watermark bounds what the pipe holds, with and without swap. */
  lemma NeverOverfull(cfg: Config, steps: seq<Step>)
    requires Run(cfg, steps).Some? && cfg.hwm > 0
    ensures var s := Run(cfg, steps).value; s.p.head <= |s.p.items| && Unread(s.p) <= cfg.hwm
  {
    EveryRunKeepsInv(cfg, steps);
    UnreadIsDifference(Run(cfg, steps).value.p);
  }

  /** The writer waits for the reader: it refuses messages, or keeps them in the swap. */
  predicate Waiting(w: Writer) { !w.drained && (w.swapping || (!w.active && !w.terminating)) }

  /** A waiting writer has a message to be read, or news of a larger count on its way. */
  lemma NoStall(cfg: Config, steps: seq<Step>)
    requires Run(cfg, steps).Some? && Waiting(Run(cfg, steps).value.w)
    ensures var s := Run(cfg, steps).value;
      && s.p.head <= |s.p.items|
      && (Unread(s.p) > 0 || exists i :: 0 <= i < |s.toWriter| && s.toWriter[i].ActivateWriter? && s.toWriter[i].msgsRead > s.w.msgsRead)
  {
    EveryRunKeepsInv(cfg, steps);
    var s := Run(cfg, steps).value;
    UnreadIsDifference(s.p);
    WaterMarks(cfg);
    NextMultiple(s.r.msgsRead, cfg.Lwm());
    if Unread(s.p) == 0 {
      assert Sent(cfg, s.r.msgsRead) > s.w.msgsRead;
      var i :| 0 <= i < |s.toWriter| && s.toWriter[i].ActivateWriter? && s.toWriter[i].msgsRead >= Sent(cfg, s.r.msgsRead);
    }
  }

  /** A reader that sleeps with no wake-up on its way has taken everything that was flushed. */
  lemma NoLostWakeUp(cfg: Config, steps: seq<Step>)
    requires Run(cfg, steps).Some?
    ensures var s := Run(cfg, steps).value;
      !s.r.terminating && !s.r.active && s.toReader == [] ==> s.p.head == s.p.w
  {
    EveryRunKeepsInv(cfg, steps);
  }

  /** No command is on its way, and the reader has nothing to read. */
  predicate Quiet(s: State) {
    s.toReader == [] && s.toWriter == [] && !s.w.drained && (s.r.active ==> s.p.head == s.p.w)
  }

  /** When all is quiet and the writer still waits, complete messages were never flushed. */
  lemma QuietMeansUnflushed(cfg: Config, steps: seq<Step>)
    requires Run(cfg, steps).Some? && Quiet(Run(cfg, steps).value) && Waiting(Run(cfg, steps).value.w)
    requires !Run(cfg, steps).value.r.terminating
    ensures var s := Run(cfg, steps).value; s.p.w < s.p.f && s.p.head <= |s.p.items| && Unread(s.p) > 0
  {
    NoStall(cfg, steps);
    EveryRunKeepsInv(cfg, steps);
    var p := Run(cfg, steps).value.p;
    if p.w == p.f {
      NothingUnread(p);
    }
  }

  lemma NothingUnread(p: Pipe<Entry>)
    requires p.Inv() && p.head == p.w == p.f
    ensures Unread(p) == 0
  {
    DoneOfPrefix(p.items, p.head);
    UnreadIsDifference(p);
  }

  /** The store that follows `check_write` fails exactly when this part is the first to overflow and its record is too big. */
  lemma StoreFailsWhen(cfg: Config, steps: seq<Step>, m: Message)
    requires Run(cfg, steps).Some?
    ensures var w := Run(cfg, steps).value.w;
      !StoreSucceeds(cfg, w, m) <==>
        w.active && !w.swapping && Full(cfg, w) && cfg.swapSize > 0 && |Swap.Record(m)| >= cfg.swapSize
  {
    EveryRunKeepsInv(cfg, steps);
  }

  /** It can fail: the pipe has room for one message, and the second does not fit an empty swap. */
  lemma StoreCanFail(a: Message, b: Message, swapSize: nat)
    requires !HasMore(a.flags) && 0 < swapSize <= |Swap.Record(b)|
    ensures var cfg := Config(1, swapSize);
      Run(cfg, [Step.Write(a)]).Some? && !StoreSucceeds(cfg, Run(cfg, [Step.Write(a)]).value.w, b)
  {
    RunMore(Config(1, swapSize), [], Step.Write(a));
    assert [] + [Step.Write(a)] == [Step.Write(a)];
  }

  /** Without swap, a message whose first part was accepted is accepted to the end. */
  lemma NoRefusalInsideMessage(cfg: Config, steps: seq<Step>, m: Message)
    requires Run(cfg, steps).Some? && cfg.swapSize == 0
    requires var s := Run(cfg, steps).value; !Whole(s.p) && !s.w.terminating
    ensures CheckWrite(cfg, Run(cfg, steps).value.w, m).active
  {
    EveryRunKeepsInv(cfg, steps);
  }

  // ---- Shutdown ----

  /** With the delimiter the reader has got exactly the accepted parts, which are whole messages. */
  lemma DelimiterComesLast(cfg: Config, steps: seq<Step>)
    requires Run(cfg, steps).Some?
    ensures var s := Run(cfg, steps).value;
      Delimiter in s.p.got ==> Parts(s.p.got) == s.log && Finished(s.log) && s.w.terminating && s.w.swap == []
  {
    EveryRunKeepsInv(cfg, steps);
    var s := Run(cfg, steps).value;
    if Delimiter in s.p.got {
      DelimiterIsLast(s.p, s.w.swap, s.log);
    }
  }

  lemma DelimiterIsLast(p: Pipe<Entry>, swap: seq<Message>, log: seq<Message>)
    requires Content(p, swap, log) && Delimiter in p.got
    ensures Ended(p) && p.head == |p.items| && p.got == Values(p.items)
  {
    ValuesAt(p.items[..p.head]);
    var i :| 0 <= i < |p.got| && p.got[i] == Delimiter;
    assert p.items[i].value == Delimiter;
    assert i == |p.items| - 1 && p.items[..p.head] == p.items;
  }

  predicate OnlyAcks(toReader: seq<ToReader>) { forall i :: 0 <= i < |toReader| ==> toReader[i].PipeTermAck? }

  /** Once the delimiter was taken, the reader is asleep and no wake-up is on its way to it. */
  predicate Silent(s: State) { Over(s.p) ==> !s.r.active && OnlyAcks(s.toReader) }

  /** Nothing is put behind a delimiter. */
  lemma WriteKeepsSilence(cfg: Config, s: State, m: Message)
    requires Inv(cfg, s) && Silent(s)
    ensures Silent(ApplyWrite(cfg, s, m))
  {
  }

  lemma RollbackKeepsSilence(cfg: Config, s: State)
    requires Inv(cfg, s) && Silent(s)
    ensures Silent(ApplyRollback(s))
  {
    if !s.w.swapping { RollbackKeepsTidy(s.p); }
  }

  /** A delimiter is published at once, so that a later flush has nothing to announce. */
  lemma FlushKeepsSilence(cfg: Config, s: State)
    requires Inv(cfg, s) && Silent(s)
    ensures Silent(ApplyFlush(s))
  {
    FlushFacts(s.p);
  }

  lemma DelimiterIsUnread(s: State)
    requires s.p.Inv() && s.p.writer == Between && !s.w.swapping
    ensures !Over(PutDelimiter(s).p)
  {
    PutFacts(s.p, Delimiter, false);
    FlushFacts(s.p.WriteStep(Delimiter, false));
  }

  lemma StopWriterKeepsSilence(cfg: Config, s: State)
    requires Inv(cfg, s) && Silent(s)
    ensures Silent(ApplyStopWriter(s))
  {
    if !s.w.terminating && !s.w.swapping {
      RollbackFacts(s.p);
      DelimiterIsUnread(ApplyRollback(s.(w := s.w.(terminating := true, active := false))));
    }
  }

  lemma WriterCommandKeepsSilence(cfg: Config, s: State)
    requires Inv(cfg, s) && Silent(s) && Enabled(cfg, s, WriterCommand)
    ensures Silent(ApplyWriterCommand(cfg, s))
  {
    if s.toWriter[0].ActivateWriter? && s.w.swapping {
      var w := s.w.(msgsRead := s.toWriter[0].msgsRead);
      ActivateKeepsInv(cfg, s);
      PopKeepsCredits(cfg, s.w.msgsRead, s.r.msgsRead, s.toWriter);
      DrainKeeps(cfg, w, s.r.msgsRead, s.p, s.log);
      FlushFacts(DrainedPipe(cfg, w, s.p));
    }
  }

  lemma FinishActivationKeepsSilence(cfg: Config, s: State)
    requires Inv(cfg, s) && Silent(s) && Enabled(cfg, s, FinishActivation)
    ensures Silent(ApplyFinishActivation(s))
  {
    if s.w.swap == [] && s.w.pendingDelimiter {
      DelimiterIsUnread(s.(w := s.w.(drained := false, swapping := false)));
    }
  }

  /** An active reader has no wake-up coming, and taking the delimiter puts it to sleep. */
  lemma LookingIsSilent(r: Reader, c: Ptr, t: State)
    requires Wakes(r, c, t.toReader) && !r.terminating && Answered(t.r, t.p)
    requires t.r.terminating ==> r.active && !t.r.active
    ensures Silent(t)
  {
  }

  lemma CheckReadStops(s: State)
    requires !s.r.terminating
    ensures var t := ApplyCheckRead(s); t.toReader == s.toReader && (t.r.terminating ==> s.r.active && !t.r.active)
  {
  }

  lemma ReadStops(cfg: Config, s: State)
    requires !s.r.terminating
    ensures var t := ApplyRead(cfg, s); t.toReader == s.toReader && (t.r.terminating ==> s.r.active && !t.r.active)
  {
  }

  lemma CheckReadKeepsSilence(cfg: Config, s: State)
    requires Inv(cfg, s) && Enabled(cfg, s, CheckRead)
    ensures Silent(ApplyCheckRead(s))
  {
    CheckReadKeepsInv(cfg, s);
    CheckReadStops(s);
    LookingIsSilent(s.r, s.p.c, ApplyCheckRead(s));
  }

  lemma ReadKeepsSilence(cfg: Config, s: State)
    requires Inv(cfg, s) && Enabled(cfg, s, Read)
    ensures Silent(ApplyRead(cfg, s))
  {
    ReadKeepsInv(cfg, s);
    ReadStops(cfg, s);
    LookingIsSilent(s.r, s.p.c, ApplyRead(cfg, s));
  }

  lemma StepKeepsSilence(cfg: Config, s: State, step: Step)
    requires Inv(cfg, s) && Enabled(cfg, s, step) && Silent(s)
    ensures Silent(Apply(cfg, s, step))
  {
    match step
    case Check(_) =>
    case Write(m) => WriteKeepsSilence(cfg, s, m);
    case Rollback => RollbackKeepsSilence(cfg, s);
    case Flush => FlushKeepsSilence(cfg, s);
    case StopWriter => StopWriterKeepsSilence(cfg, s);
    case WriterCommand => WriterCommandKeepsSilence(cfg, s);
    case FinishActivation => FinishActivationKeepsSilence(cfg, s);
    case CheckRead => CheckReadKeepsSilence(cfg, s);
    case Read => ReadKeepsSilence(cfg, s);
    case StopReader =>
    case ReaderCommand =>
  }

  /** So the pipe is never reported active again to the socket that read the delimiter. */
  lemma {:induction false} NoWakeUpAfterDelimiter(cfg: Config, steps: seq<Step>)
    requires Run(cfg, steps).Some?
    ensures var s := Run(cfg, steps).value;
      && Silent(s)
      && (Delimiter in s.p.got ==> !s.r.active && OnlyAcks(s.toReader))
  {
    EveryRunKeepsInv(cfg, steps);
    if steps != [] {
      var n := |steps| - 1;
      EveryRunKeepsInv(cfg, steps[..n]);
      NoWakeUpAfterDelimiter(cfg, steps[..n]);
      StepKeepsSilence(cfg, Run(cfg, steps[..n]).value, steps[n]);
    }
    var s := Run(cfg, steps).value;
    if Delimiter in s.p.got { DelimiterIsLast(s.p, s.w.swap, s.log); }
  }

  /** Terminating drops the unfinished message; after that nothing is accepted and nothing is dropped. */
  lemma LogAfterStop(cfg: Config, steps: seq<Step>, step: Step)
    requires Run(cfg, steps).Some? && Enabled(cfg, Run(cfg, steps).value, step)
    ensures var s := Run(cfg, steps).value;
      && (s.w.terminating ==> Apply(cfg, s, step).log == s.log)
      && (step.StopWriter? && !s.w.terminating && !s.w.swapping ==> Apply(cfg, s, step).log == DropUnfinished(s.log))
  {
    EveryRunKeepsInv(cfg, steps);
  }

  /**
   * An endpoint that was freed gets no command and so is not freed again; the pipe goes with the
   * reader, and by then the writer has dropped it.
   */
  lemma FreedOnce(cfg: Config, steps: seq<Step>)
    requires Run(cfg, steps).Some?
    ensures var s := Run(cfg, steps).value;
      && (s.w.gone ==> s.toWriter == [] && s.r.terminating)
      && (s.r.gone ==> s.toReader == [] && s.w.gone)
  {
    EveryRunKeepsInv(cfg, steps);
  }

  /** Once either side terminates, all is quiet only when both endpoints are freed, or the writer still waits to empty its swap. */
  lemma ShutdownCompletes(cfg: Config, steps: seq<Step>)
    requires Run(cfg, steps).Some? && Quiet(Run(cfg, steps).value)
    requires var s := Run(cfg, steps).value; s.r.terminating || s.w.terminating
    ensures var s := Run(cfg, steps).value;
      (s.r.gone && s.w.gone) || (Waiting(s.w) && s.w.swapping && s.p.w < s.p.f)
  {
    EveryRunKeepsInv(cfg, steps);
    var s := Run(cfg, steps).value;
    if s.r.terminating {
      QuietHandshake(s.r, s.w.gone);
    } else if s.w.swapping {
      QuietMeansUnflushed(cfg, steps);
    }
  }

  lemma QuietHandshake(r: Reader, writerGone: bool)
    requires Handshake(r, writerGone, [], []) && r.terminating
    ensures r.gone && writerGone
  {
  }

  lemma RunMore(cfg: Config, steps: seq<Step>, step: Step)
    requires Run(cfg, steps).Some? && Enabled(cfg, Run(cfg, steps).value, step)
    ensures Run(cfg, steps + [step]) == Some(Apply(cfg, Run(cfg, steps).value, step))
  {
    assert (steps + [step])[..|steps|] == steps;
  }
}
