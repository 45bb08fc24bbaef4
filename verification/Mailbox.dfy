/**
 * The mailbox: any number of senders, serialised by a mutex, and one receiver that goes to sleep on a
 * signal byte. The socket pair of the signaler is a byte counter. Every shared access is its own step.
 */
module Mailbox {
  import opened Wrappers
  import opened YPipe
  import P = YPipe

  /** Where a sender is in `send`. `Owes` is after the unlock, before `signaler.send`. */
  datatype Sender<T> = Idle | Locked(cmd: T) | Written | Failed | Stored | Published | Owes

  /** Where the receiver is in `recv`. `Draining` is after the failed read, before `signaler.recv`. */
  datatype Receiver = Outside | Draining | Waiting | Woken

  datatype State<T> = State(
    pipe: Pipe<T>, senders: seq<Sender<T>>, holder: Option<nat>,
    signals: nat, active: bool, receiver: Receiver)

  /** The constructor's failed read puts the pipe to sleep before any sender exists. */
  function Init<T>(n: nat): State<T> {
    State(Empty<T>().PrefetchStep(), seq(n, _ => Idle), None, 0, false, Outside)
  }

  datatype Step<T> =
    | Lock(t: nat, cmd: T) | Write(t: nat) | Cas(t: nat) | Store(t: nat) | Unlock(t: nat) | Signal(t: nat)
    | Read | Drain | Wait | WaitFails | ReadWoken

  /** A signal is owed from the plain store on, until `signaler.send`. */
  predicate Owing<T>(s: Sender<T>) { s.Stored? || s.Owes? }

  predicate Holding<T>(s: Sender<T>) { !s.Idle? && !s.Owes? }

  function Owed<T>(senders: seq<Sender<T>>): nat {
    if senders == [] then 0
    else Owed(senders[..|senders| - 1]) + if Owing(senders[|senders| - 1]) then 1 else 0
  }

  lemma {:induction false} OwedUpdate<T>(senders: seq<Sender<T>>, t: nat, s: Sender<T>)
    requires t < |senders|
    ensures Owed(senders[t := s]) == Owed(senders) - (if Owing(senders[t]) then 1 else 0) + if Owing(s) then 1 else 0
  {
    var n := |senders| - 1;
    if t == n {
      assert senders[t := s][..n] == senders[..n];
    } else {
      OwedUpdate(senders[..n], t, s);
      assert senders[t := s][..n] == senders[..n][t := s];
    }
  }

  /** Whether a sender is blocked on its way at `pc`. */
  ghost predicate Enabled<T(!new)>(m: State<T>, s: Step<T>) {
    match s
    case Lock(t, _) => t < |m.senders| && m.senders[t].Idle? && m.holder == None
    case Write(t) => t < |m.senders| && m.senders[t].Locked?
    case Cas(t) => t < |m.senders| && m.senders[t].Written?
    case Store(t) => t < |m.senders| && m.senders[t].Failed?
    case Unlock(t) => t < |m.senders| && (m.senders[t].Stored? || m.senders[t].Published?)
    case Signal(t) => t < |m.senders| && m.senders[t].Owes?
    case Read => m.receiver == Outside && m.active
    case Drain => m.receiver == Draining && m.signals > 0
    case Wait => (m.receiver == Waiting || (m.receiver == Outside && !m.active)) && m.signals > 0
    case WaitFails => m.receiver == Waiting || (m.receiver == Outside && !m.active)
    case ReadWoken => m.receiver == Woken
  }

  ghost function ReadPipe<T>(p: Pipe<T>): Pipe<T> {
    var q := p.PrefetchStep();
    if q.HasItem() && q.head < |q.items| then q.TakeStep() else q
  }

  ghost function Apply<T(!new)>(m: State<T>, s: Step<T>): State<T>
    requires Enabled(m, s)
  {
    match s
    case Lock(t, cmd) => m.(senders := m.senders[t := Locked(cmd)], holder := Some(t))
    case Write(t) => m.(senders := m.senders[t := Written], pipe := m.pipe.WriteStep(m.senders[t].cmd, false))
    case Cas(t) =>
      var q := m.pipe.TryPublishStep();
      m.(senders := m.senders[t := if q.writer == MustStore then Failed else Published], pipe := q)
    case Store(t) => m.(senders := m.senders[t := Stored], pipe := m.pipe.StoreStep())
    case Unlock(t) => m.(senders := m.senders[t := if m.senders[t].Stored? then Owes else Idle], holder := None)
    case Signal(t) => m.(senders := m.senders[t := Idle], signals := m.signals + 1)
    case Read =>
      var q := ReadPipe(m.pipe);
      if q.head == m.pipe.head then m.(pipe := q, active := false, receiver := Draining) else m.(pipe := q)
    case Drain => m.(signals := m.signals - 1, receiver := Waiting)
    case Wait => m.(active := true, receiver := Woken)
    case WaitFails => m.(receiver := Outside)
    case ReadWoken => m.(pipe := ReadPipe(m.pipe), receiver := Outside)
  }

  ghost function Run<T(!new)>(n: nat, steps: seq<Step<T>>): Option<State<T>> {
    if steps == [] then Some(Init(n))
    else
      var s := steps[|steps| - 1];
      match Run(n, steps[..|steps| - 1])
      case None => None
      case Some(m) => if Enabled(m, s) then Some(Apply(m, s)) else None
  }

  /** Signal bytes plus signals owed: one for an awake pipe, one more while the receiver is about to drain. */
  ghost predicate Conserved<T>(m: State<T>) {
    m.signals + Owed(m.senders) ==
      (if m.pipe.c == Null then 0 else 1) + (if m.receiver == Draining then 1 else 0)
  }

  ghost predicate LockDiscipline<T>(m: State<T>) {
    && (m.holder.Some? ==> m.holder.value < |m.senders| && Holding(m.senders[m.holder.value]))
    && (forall t :: 0 <= t < |m.senders| && Holding(m.senders[t]) ==> m.holder == Some(t))
    && (m.pipe.writer == MustStore <==> m.holder.Some? && m.senders[m.holder.value].Failed?)
    && m.pipe.f == m.pipe.Back()
    && (m.pipe.w == m.pipe.f || (m.holder.Some? && (m.senders[m.holder.value].Written? || m.senders[m.holder.value].Failed?)))
    && (m.holder.Some? && m.senders[m.holder.value].Written? ==> m.pipe.w != m.pipe.f)
  }

  ghost predicate ReceiverFacts<T>(m: State<T>) {
    && (m.active || m.receiver == Draining ==> m.signals >= 1)
    && (m.active ==> m.pipe.c != Null && m.receiver in {Outside, Woken})
    && (m.receiver == Woken ==> m.active)
    && (!m.active || m.receiver == Woken ==> m.pipe.c == Null || m.pipe.head < m.pipe.w)
  }

  ghost predicate Inv<T>(m: State<T>) {
    m.pipe.Inv() && Conserved(m) && LockDiscipline(m) && ReceiverFacts(m)
  }

  lemma SenderStepKeepsInv<T(!new)>(m: State<T>, s: Step<T>)
    requires Inv(m) && Enabled(m, s) && (s.Lock? || s.Unlock? || s.Signal?)
    ensures Inv(Apply(m, s))
  {
    var n := Apply(m, s);
    OwedUpdate(m.senders, s.t, n.senders[s.t]);
    assert n.senders == m.senders[s.t := n.senders[s.t]];
  }

  /** The steps that touch the pipe are taken by the sender that holds the lock. */
  lemma HolderStepKeepsInv<T(!new)>(m: State<T>, s: Step<T>)
    requires Inv(m) && Enabled(m, s) && (s.Write? || s.Cas? || s.Store?)
    ensures Inv(Apply(m, s))
  {
    if s.Write? { WriteKeepsInv(m, s.t); } else { FlushKeepsInv(m, s); }
  }

  lemma WriteKeepsInv<T(!new)>(m: State<T>, t: nat)
    requires Inv(m) && Enabled(m, Step<T>.Write(t))
    ensures Inv(Apply(m, Step<T>.Write(t)))
  {
    OwedUpdate(m.senders, t, Written);
    StepKeepsInv(m.pipe, P.Step.Write(m.senders[t].cmd, false));
  }

  lemma FlushKeepsInv<T(!new)>(m: State<T>, s: Step<T>)
    requires Inv(m) && Enabled(m, s) && (s.Cas? || s.Store?)
    ensures Inv(Apply(m, s))
  {
    OwedUpdate(m.senders, s.t, Apply(m, s).senders[s.t]);
    StepKeepsInv(m.pipe, if s.Cas? then P.Step<T>.TryPublish else P.Step<T>.Store);
  }

  lemma ReadKeepsInv<T>(p: Pipe<T>)
    requires p.Inv()
    ensures ReadPipe(p).Inv()
    ensures ReadPipe(p).head == (if p.head < p.w then p.head + 1 else p.head)
    ensures ReadPipe(p).c == (if p.head < p.w then p.c else Null)
    ensures ReadPipe(p).w == p.w && ReadPipe(p).f == p.f && ReadPipe(p).items == p.items && ReadPipe(p).writer == p.writer
  {
    StepKeepsInv(p, P.Step<T>.Prefetch);
    CheckReadSeesFlushed(p);
    var q := p.PrefetchStep();
    if q.HasItem() && q.head < |q.items| { StepKeepsInv(q, P.Step<T>.Take); }
  }

  lemma ReceiverStepKeepsInv<T(!new)>(m: State<T>, s: Step<T>)
    requires Inv(m) && Enabled(m, s) && (s.Read? || s.Drain? || s.Wait? || s.WaitFails? || s.ReadWoken?)
    ensures Inv(Apply(m, s))
  {
    ReadKeepsInv(m.pipe);
  }

  lemma {:induction false} OwedOfIdle<T>(n: nat)
    ensures Owed(seq<Sender<T>>(n, _ => Idle)) == 0
  {
    if n > 0 {
      OwedOfIdle<T>(n - 1);
      assert seq<Sender<T>>(n, _ => Idle)[..n - 1] == seq<Sender<T>>(n - 1, _ => Idle);
    }
  }

  lemma {:induction false} EveryRunKeepsInv<T(!new)>(n: nat, steps: seq<Step<T>>)
    requires Run(n, steps).Some?
    ensures Inv(Run(n, steps).value)
  {
    if steps == [] {
      OwedOfIdle<T>(n);
      StepKeepsInv(Empty<T>(), P.Step<T>.Prefetch);
    } else {
      var s := steps[|steps| - 1];
      var m := Run(n, steps[..|steps| - 1]).value;
      EveryRunKeepsInv(n, steps[..|steps| - 1]);
      if s.Lock? || s.Unlock? || s.Signal? {
        SenderStepKeepsInv(m, s);
      } else if s.Write? || s.Cas? || s.Store? {
        HolderStepKeepsInv(m, s);
      } else {
        ReceiverStepKeepsInv(m, s);
      }
    }
  }

  /**
   * Wake-ups are conserved in every run. So the receiver always finds a byte when it drains, the read
   * after a successful wait always yields a command, a flushed command that is not read yet never waits
   * for a receiver that nothing is going to wake, and there are never more than two bytes.
   */
  lemma {:induction false} NoLostWakeUp<T(!new)>(n: nat, steps: seq<Step<T>>)
    requires Run(n, steps).Some?
    ensures var m := Run(n, steps).value;
      && Conserved(m)
      && (m.receiver == Draining ==> Enabled(m, Drain))
      && (m.receiver == Woken ==> ReadPipe(m.pipe).head == m.pipe.head + 1)
      && (m.pipe.head < m.pipe.w && !m.active ==> m.signals + Owed(m.senders) >= 1)
      && m.signals + Owed(m.senders) <= 2
  {
    EveryRunKeepsInv(n, steps);
    ReadKeepsInv(Run(n, steps).value.pipe);
  }

  /** What the receiver gets is a prefix of the flushed commands in the order the senders wrote them. */
  lemma CommandsArriveInOrder<T(!new)>(n: nat, steps: seq<Step<T>>)
    requires Run(n, steps).Some?
    ensures var p := Run(n, steps).value.pipe;
      p.w <= |p.items| && p.got <= Values(p.items[..p.w]) && p.head <= p.w
  {
    EveryRunKeepsInv(n, steps);
    var p := Run(n, steps).value.pipe;
    ValuesPrefix(p.items[..p.w], p.head);
    assert p.items[..p.w][..p.head] == p.items[..p.head];
  }

  /** With the senders at rest and the receiver waiting, it can be woken exactly when a command is unread. */
  lemma AtRest<T(!new)>(n: nat, steps: seq<Step<T>>)
    requires Run(n, steps).Some?
    requires var m := Run(n, steps).value;
      m.receiver == Waiting && forall t :: 0 <= t < |m.senders| ==> m.senders[t] == Idle
    ensures var m := Run(n, steps).value;
      Enabled(m, Wait) <==> m.pipe.head < |m.pipe.items|
  {
    EveryRunKeepsInv(n, steps);
    NothingOwed(Run(n, steps).value.senders);
  }

  /** What lets an unread command through: a step of the receiver, or the rest of a `send` that owes a signal. */
  predicate Helps<T>(s: Step<T>) { s.Unlock? || s.Signal? || s.Read? || s.Drain? || s.Wait? || s.ReadWoken? }

  ghost function StepsToGo<T(!new)>(m: State<T>): nat {
    match m.receiver
    case Draining => 5
    case Woken => 0
    case _ =>
      if m.receiver == Outside && m.active then 0
      else if m.signals > 0 then 1
      else if exists t :: 0 <= t < |m.senders| && m.senders[t].Owes? then 2
      else 3
  }

  /** A signal that is owed is owed by some sender. */
  lemma {:induction false} OwingSender<T>(senders: seq<Sender<T>>) returns (t: nat)
    requires Owed(senders) > 0
    ensures t < |senders| && Owing(senders[t])
  {
    t := |senders| - 1;
    if !Owing(senders[t]) { t := OwingSender(senders[..t]); }
  }

  /** The next step on the way. */
  lemma NextStep<T(!new)>(m: State<T>) returns (s: Step<T>)
    requires Inv(m) && m.pipe.head < m.pipe.w
    ensures Helps(s) && Enabled(m, s)
    ensures var k := Apply(m, s);
      if StepsToGo(m) == 0 then k.pipe.got == m.pipe.got + [m.pipe.items[m.pipe.head].value]
      else k.pipe == m.pipe && StepsToGo(k) < StepsToGo(m)
  {
    ReadKeepsInv(m.pipe);
    match m.receiver
    case Draining => s := Drain;
    case Woken => s := ReadWoken;
    case _ =>
      if m.receiver == Outside && m.active {
        s := Read;
      } else if m.signals > 0 {
        s := Wait;
      } else {
        s := OwedStep(m);
      }
  }

  lemma OwedStep<T(!new)>(m: State<T>) returns (s: Step<T>)
    requires Inv(m) && m.pipe.head < m.pipe.w && m.signals == 0
    requires m.receiver == Waiting || (m.receiver == Outside && !m.active)
    ensures Helps(s) && Enabled(m, s)
    ensures var k := Apply(m, s); k.pipe == m.pipe && StepsToGo(k) < StepsToGo(m)
  {
    if t :| 0 <= t < |m.senders| && m.senders[t].Owes? {
      s := Signal(t);
    } else {
      var t := OwingSender(m.senders);
      s := Unlock(t);
      assert Apply(m, s).senders[t].Owes?;
    }
  }

  /**
   * From every state that can be reached a published command that is not read yet gets through to the
   * receiver, by steps of the receiver and by what senders still have to do after their unlock.
   */
  lemma {:induction false} CommandComesThrough<T(!new)>(n: nat, steps: seq<Step<T>>) returns (more: seq<Step<T>>)
    requires Run(n, steps).Some?
    requires var p := Run(n, steps).value.pipe; p.head < p.w
    ensures var p := Run(n, steps).value.pipe;
      p.head < |p.items| && Run(n, steps + more).Some? && Run(n, steps + more).value.pipe.got == p.got + [p.items[p.head].value]
    ensures AllHelp(more)
    decreases StepsToGo(Run(n, steps).value)
  {
    EveryRunKeepsInv(n, steps);
    var m := Run(n, steps).value;
    var s := NextStep(m);
    RunMore(n, steps, s);
    if StepsToGo(m) == 0 {
      more := [s];
    } else {
      assert Run(n, steps + [s]).value.pipe == m.pipe;
      var rest := CommandComesThrough(n, steps + [s]);
      OneBefore(steps, s, rest);
      more := [s] + rest;
    }
  }

  ghost predicate AllHelp<T>(steps: seq<Step<T>>) { forall i :: 0 <= i < |steps| ==> Helps(steps[i]) }

  lemma RunMore<T(!new)>(n: nat, steps: seq<Step<T>>, s: Step<T>)
    requires Run(n, steps).Some? && Enabled(Run(n, steps).value, s)
    ensures Run(n, steps + [s]) == Some(Apply(Run(n, steps).value, s))
  {
    assert (steps + [s])[..|steps|] == steps;
  }

  lemma OneBefore<T>(steps: seq<Step<T>>, s: Step<T>, rest: seq<Step<T>>)
    ensures steps + [s] + rest == steps + ([s] + rest)
    ensures Helps(s) && AllHelp(rest) ==> AllHelp([s] + rest)
  {
  }

  lemma {:induction false} NothingOwed<T>(senders: seq<Sender<T>>)
    requires forall t :: 0 <= t < |senders| ==> senders[t] == Idle
    ensures Owed(senders) == 0
  {
    if senders != [] { NothingOwed(senders[..|senders| - 1]); }
  }

  function Flushed<T>(p: Pipe<T>): Pipe<T> {
    var q := p.TryPublishStep();
    if q.writer == MustStore then q.StoreStep() else q
  }

  /** Between calls: awake pipe and signal byte go together; a passive mailbox with an awake pipe holds a command. */
  ghost predicate Settled<T>(p: Pipe<T>, signals: nat, active: bool) {
    && p.Inv() && p.writer == Between && p.w == p.f == |p.items|
    && signals == (if p.c == Null then 0 else 1)
    && (active ==> p.c != Null)
    && (!active && p.c != Null ==> p.head < p.w)
  }

  function Pending<T>(p: Pipe<T>): seq<Item<T>>
    requires p.head <= |p.items|
  {
    p.items[p.head..]
  }

  /** A command written and flushed is unread behind the others; a sleeping pipe gets a signal. */
  lemma SendFacts<T>(p: Pipe<T>, signals: nat, active: bool, cmd: T)
    requires Settled(p, signals, active)
    ensures var q := p.WriteStep(cmd, false);
      && q.Inv() && (q.TryPublishStep().writer == MustStore <==> p.c == Null)
      && Settled(Flushed(q), if p.c == Null then signals + 1 else signals, active)
      && Pending(Flushed(q)) == Pending(p) + [Item(cmd, false)]
  {
    StepKeepsInv(p, P.Step.Write(cmd, false));
    var q := p.WriteStep(cmd, false);
    StepKeepsInv(q, P.Step<T>.TryPublish);
    if q.TryPublishStep().writer == MustStore { StepKeepsInv(q.TryPublishStep(), P.Step<T>.Store); }
  }

  /** A read takes the oldest command, or puts the pipe to sleep. */
  lemma ReadFacts<T>(p: Pipe<T>)
    requires p.Inv() && p.writer == Between && p.w == p.f == |p.items|
    ensures var q := ReadPipe(p);
      && q.Inv() && q.writer == Between && q.w == q.f == |q.items|
      && (p.head < p.w ==> Pending(p) == [p.items[p.head]] + Pending(q) && q.c == p.c && q == p.PrefetchStep().TakeStep())
      && (p.head == p.w ==> Pending(p) == Pending(q) == [] && q.c == Null && q == p.PrefetchStep())
  {
    ReadKeepsInv(p);
    CheckReadSeesFlushed(p);
  }

  /** The mailbox object; each method is a whole call that is not interrupted by other threads. */
  class Mailbox<T(0)> {
    const cpipe: YPipe<T>
    var signals: nat
    var active: bool

    ghost predicate Valid()
      reads this, cpipe
    {
      Settled(cpipe.View(), signals, active)
    }

    ghost function Unread(): seq<Item<T>>
      requires cpipe.View().head <= |cpipe.View().items|
      reads this, cpipe
    {
      Pending(cpipe.View())
    }

    constructor ()
      ensures Valid() && Unread() == [] && fresh(cpipe)
      ensures !active && signals == 0 && cpipe.c == Null
    {
      cpipe := new YPipe<T>();
      active, signals := false, 0;
      new;
      ReadFacts(cpipe.View());
      var ok, _ := cpipe.Read();
    }

    method Send(cmd: T)
      requires Valid()
      modifies this, cpipe
      ensures Valid() && Unread() == old(Unread()) + [Item(cmd, false)]
    {
      SendFacts(cpipe.View(), signals, active, cmd);
      cpipe.Write(cmd, false);
      var ok := FlushPipe();
      if !ok {
        signals := signals + 1;
      }
    }

    /** Both halves of `flush`. */
    method FlushPipe() returns (ok: bool)
      requires cpipe.View().Inv() && cpipe.writer == Between
      modifies cpipe
      ensures cpipe.View() == Flushed(old(cpipe.View()))
      ensures ok <==> old(cpipe.View()).TryPublishStep().writer != MustStore
    {
      ok := cpipe.TryPublish();
      if !ok {
        cpipe.Store();
      }
    }

    /**
     * Gets the oldest command. None is the EAGAIN of a wait that ran out, or was interrupted before it
     * looked at the signal; an active mailbox with a command does not wait.
     */
    method Recv(interrupted: bool) returns (cmd: Option<T>)
      requires Valid()
      modifies this, cpipe
      ensures Valid()
      ensures cmd == None <==> old(Unread()) == [] || (!old(active) && interrupted)
      ensures cmd.Some? ==> old(Unread()) == [Item(cmd.value, old(Unread())[0].incomplete)] + Unread()
      ensures cmd == None ==> Unread() == old(Unread())
      ensures active <==> cmd.Some?
    {
      if active {
        cmd := ReadOne();
        if cmd.Some? { return; }
        active := false;
        assert signals > 0;
        signals := signals - 1;
      }
      if signals == 0 || interrupted { return None; }
      active := true;
      cmd := ReadOne();
      assert cmd.Some?;
    }

    /** The read of the pipe. */
    method ReadOne() returns (cmd: Option<T>)
      requires cpipe.View().Inv() && cpipe.writer == Between && cpipe.w == cpipe.f == |cpipe.items| && cpipe.c != Null
      modifies cpipe
      ensures cpipe.View() == ReadPipe(old(cpipe.View()))
      ensures cpipe.View().Inv() && cpipe.writer == Between && cpipe.w == cpipe.f == |cpipe.items|
      ensures cmd.Some? <==> old(cpipe.head < cpipe.w)
      ensures cmd.Some? ==> cpipe.c != Null && old(Unread()) == [Item(cmd.value, old(Unread())[0].incomplete)] + Unread()
      ensures cmd == None ==> cpipe.c == Null && Unread() == old(Unread()) == []
    {
      ReadFacts(cpipe.View());
      var ok, v := cpipe.Read();
      cmd := if ok then Some(v) else None;
    }
  }
}
