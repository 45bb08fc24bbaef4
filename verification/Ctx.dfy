/**
 * The life of sockets in a context and its shutdown: application threads create and close sockets, the
 * reaper thread destroys them, and one thread terminates the context, possibly interrupted and restarted.
 * What happens under the slot lock is one step; the posting of a command is another.
 */
module Ctx {
  import opened Wrappers

  type Tid = nat

  /** A socket is open, or closed with a `reap` command on its way, or owned by the reaper. */
  datatype Phase = Open | Closing | Dying

  datatype Cmd = Reap(tid: Tid) | Reaped | Stop

  /** The sockets by their slots. */
  datatype Context = Context(sockets: map<Tid, Phase>, emptySlots: seq<Tid>, terminating: bool)

  datatype Reaper = Reaper(sockets: nat, terminating: bool, done: bool)

  /** Where the reaper thread is: a socket is destroyed in `process_reap` or in a later event of its own. */
  datatype Pc = Idle | Reaping(tid: Tid) | Destroyed(inReap: bool) | Counting

  /** Where the terminating thread is in `terminate`. */
  datatype TermPc = Outside | LogClosed | Waiting | Returned

  datatype State = State(
    ctx: Context, reaper: Reaper, pc: Pc, mailbox: seq<Cmd>, term: TermPc, log: Option<Tid>,
    stops: nat, dones: nat)  // history: how often `stop` and `done` were sent

  /** `slots` are the slots for sockets; the last one is taken by the log socket. */
  function Init(slots: seq<Tid>): State
    requires slots != []
  {
    var log := slots[|slots| - 1];
    State(Context(map[log := Open], slots[..|slots| - 1], false), Reaper(0, false, false), Idle, [], Outside, Some(log), 0, 0)
  }

  datatype Outcome = Socket(tid: Tid) | NoMoreSlots | Terminating | BadType

  function CreateOutcome(c: Context, valid: bool): Outcome {
    if c.terminating then Terminating
    else if c.emptySlots == [] then NoMoreSlots
    else if !valid then BadType
    else Socket(c.emptySlots[|c.emptySlots| - 1])
  }

  /** `create_socket`; `valid` says whether the socket type exists. */
  function Created(c: Context, valid: bool): Context {
    match CreateOutcome(c, valid)
    case Socket(tid) => c.(emptySlots := c.emptySlots[..|c.emptySlots| - 1], sockets := c.sockets[tid := Open])
    case _ => c
  }

  function Removed(c: Context, tid: Tid): Context {
    c.(emptySlots := c.emptySlots + [tid], sockets := c.sockets - {tid})
  }

  /** The reaper is told to stop when the last socket is gone from a terminating context. */
  function StopIfLast(c: Context): seq<Cmd> { if c.terminating && c.sockets == map[] then [Stop] else [] }

  function SetPhase(c: Context, tid: Tid, phase: Phase): Context { c.(sockets := c.sockets[tid := phase]) }

  function DoneIfLast(r: Reaper): Reaper { if r.terminating && r.sockets == 0 then r.(done := true) else r }

  datatype Step =
    | Create(valid: bool) | Close(tid: Tid)
    | Take                  // the reaper handles its next command; of a `reap`, up to the test of `destroyed`
    | Destroy(tid: Tid)     // `destroy_socket`, inside `process_reap` or in an event of the socket
    | NotYet                // the test fails
    | SendReaped | Count
    | CloseLog | SetTerminating | Restart | Interrupted | GetDone

  ghost predicate Enabled(s: State, step: Step) {
    match step
    case Create(_) => true
    case Close(tid) => tid in s.ctx.sockets && s.ctx.sockets[tid] == Open && s.log != Some(tid)
    case Take => s.pc == Idle && s.mailbox != []
    case Destroy(tid) => tid in s.ctx.sockets && s.ctx.sockets[tid] == Dying && (s.pc == Idle || s.pc == Reaping(tid))
    case NotYet => s.pc.Reaping?
    case SendReaped => s.pc.Destroyed?
    case Count => s.pc == Counting
    case CloseLog => s.term == Outside && !s.ctx.terminating && s.log.Some?
    case SetTerminating => s.term == LogClosed
    case Restart => s.term == Outside && s.ctx.terminating
    case Interrupted => s.term == Waiting
    case GetDone => s.term == Waiting && s.reaper.done
  }

  function Finish(s: State): State {
    var r := DoneIfLast(s.reaper);
    s.(reaper := r, dones := if r.done then s.dones + 1 else s.dones)
  }

  ghost function Apply(s: State, step: Step): State
    requires Enabled(s, step)
  {
    match step
    case Create(valid) => s.(ctx := Created(s.ctx, valid))
    case Close(tid) => s.(ctx := SetPhase(s.ctx, tid, Closing), mailbox := s.mailbox + [Reap(tid)])
    case Take =>
      var rest := s.(mailbox := s.mailbox[1..]);
      (match s.mailbox[0]
       case Reap(tid) => rest.(ctx := SetPhase(s.ctx, tid, Dying), pc := Reaping(tid))
       case Reaped => Finish(rest.(reaper := s.reaper.(sockets := if s.reaper.sockets == 0 then 0 else s.reaper.sockets - 1)))
       case Stop => Finish(rest.(reaper := s.reaper.(terminating := true))))
    case Destroy(tid) =>
      var c := Removed(s.ctx, tid);
      s.(ctx := c, pc := Destroyed(s.pc.Reaping?), mailbox := s.mailbox + StopIfLast(c), stops := s.stops + |StopIfLast(c)|)
    case NotYet => s.(reaper := s.reaper.(sockets := s.reaper.sockets + 1), pc := Idle)
    case SendReaped => s.(mailbox := s.mailbox + [Reaped], pc := if s.pc.inReap then Counting else Idle)
    case Count => s.(reaper := s.reaper.(sockets := s.reaper.sockets + 1), pc := Idle)
    case CloseLog => 
      s.(ctx := SetPhase(s.ctx, s.log.value, Closing), mailbox := s.mailbox + [Reap(s.log.value)], log := None, term := LogClosed)
    case SetTerminating =>
      var c := s.ctx.(terminating := true);
      s.(ctx := c, mailbox := s.mailbox + StopIfLast(c), stops := s.stops + |StopIfLast(c)|, term := Waiting)
    case Restart => s.(term := Waiting)
    case Interrupted => s.(term := Outside)
    case GetDone => s.(term := Returned)
  }

  ghost function Run(slots: seq<Tid>, steps: seq<Step>): Option<State>
    requires slots != []
  {
    if steps == [] then Some(Init(slots))
    else
      match Run(slots, steps[..|steps| - 1])
      case None => None
      case Some(s) => if Enabled(s, steps[|steps| - 1]) then Some(Apply(s, steps[|steps| - 1])) else None
  }

  // ---- The invariant

  /** Every slot is either empty or taken by one socket. */
  ghost predicate SlotsOk(c: Context, slots: seq<Tid>) {
    && Distinct(c.emptySlots)
    && (forall t :: t in c.emptySlots ==> t !in c.sockets)
    && (forall t :: t in slots <==> t in c.emptySlots || t in c.sockets)
    && |c.emptySlots| + |c.sockets| == |slots|
  }

  function Tids(c: Context, phase: Phase): set<Tid> { set t | t in c.sockets && c.sockets[t] == phase }

  function DyingTids(c: Context): set<Tid> { Tids(c, Phase.Dying) }

  predicate InReap(pc: Pc) { pc.Reaping? || pc == Counting || (pc.Destroyed? && pc.inReap) }

  /** A closed socket has one `reap` command on its way, and no other socket has one. */
  ghost predicate ReapsOk(c: Context, mailbox: seq<Cmd>) {
    forall t: Tid :: multiset(mailbox)[Reap(t)] == if t in c.sockets && c.sockets[t] == Closing then 1 else 0
  }

  /** The reaper counts the sockets it owns and those whose `reaped` it has not handled. */
  ghost predicate ReaperOk(s: State) {
    && s.reaper.sockets + (if InReap(s.pc) then 1 else 0) ==
         |DyingTids(s.ctx)| + (if s.pc.Destroyed? then 1 else 0) + multiset(s.mailbox)[Reaped]
    && (s.pc.Reaping? ==> s.pc.tid in DyingTids(s.ctx))
  }

  ghost predicate StopsOk(s: State) {
    && s.stops == multiset(s.mailbox)[Stop] + (if s.reaper.terminating then 1 else 0)
    && s.stops == (if s.ctx.terminating && s.ctx.sockets == map[] then 1 else 0)
    && s.dones == (if s.reaper.done then 1 else 0)
    && (s.reaper.done ==> s.reaper.terminating && s.reaper.sockets == 0 && s.mailbox == [] && s.pc == Idle)
    && (s.reaper.terminating && s.reaper.sockets == 0 && s.pc == Idle ==> s.reaper.done)
  }

  /** The log socket is closed by the first attempt to terminate, and by nothing else. */
  ghost predicate TermOk(s: State) {
    && (s.term == Waiting || s.term == Returned ==> s.ctx.terminating)
    && (s.term == LogClosed ==> !s.ctx.terminating)
    && (s.term == Outside && !s.ctx.terminating <==> s.log.Some?)
    && (s.log.Some? ==> s.log.value in s.ctx.sockets && s.ctx.sockets[s.log.value] == Open)
    && (s.term == Returned ==> s.reaper.done)
  }

  ghost predicate Inv(s: State, slots: seq<Tid>) {
    SlotsOk(s.ctx, slots) && ReapsOk(s.ctx, s.mailbox) && ReaperOk(s) && StopsOk(s) && TermOk(s)
  }

  lemma PostReap(mailbox: seq<Cmd>, cmd: Cmd)
    ensures forall k: Cmd :: multiset(mailbox + [cmd])[k] == multiset(mailbox)[k] + if k == cmd then 1 else 0
  {
  }

  lemma PopCmd(mailbox: seq<Cmd>)
    requires mailbox != []
    ensures forall k: Cmd :: multiset(mailbox)[k] == multiset(mailbox[1..])[k] + if k == mailbox[0] then 1 else 0
  {
    assert mailbox == [mailbox[0]] + mailbox[1..];
  }

  lemma CreateKeepsInv(s: State, slots: seq<Tid>, valid: bool)
    requires Inv(s, slots)
    ensures Inv(s.(ctx := Created(s.ctx, valid)), slots)
  {
    var c, d := s.ctx, Created(s.ctx, valid);
    if CreateOutcome(c, valid).Socket? {
      var n := |c.emptySlots| - 1;
      var tid := c.emptySlots[n];
      assert c.emptySlots == d.emptySlots + [tid];
      assert tid in c.emptySlots;
      assert d.sockets.Keys == c.sockets.Keys + {tid};
      assert DyingTids(d) == DyingTids(c);
      assert d.sockets[tid] == Open && d.sockets != map[];
    }
  }

  /** A socket changes its phase, keeping its slot. */
  lemma PhaseKeepsSlots(c: Context, tid: Tid, phase: Phase, slots: seq<Tid>)
    requires SlotsOk(c, slots) && tid in c.sockets
    ensures SlotsOk(SetPhase(c, tid, phase), slots) && SetPhase(c, tid, phase).sockets != map[]
  {
    var d := SetPhase(c, tid, phase);
    assert d.sockets.Keys == c.sockets.Keys;
    assert tid in d.sockets;
  }

  lemma CloseKeepsReaps(c: Context, mailbox: seq<Cmd>, tid: Tid)
    requires ReapsOk(c, mailbox) && tid in c.sockets && c.sockets[tid] == Open
    ensures ReapsOk(SetPhase(c, tid, Closing), mailbox + [Reap(tid)])
    ensures DyingTids(SetPhase(c, tid, Closing)) == DyingTids(c)
  {
    PostReap(mailbox, Reap(tid));
  }

  lemma CloseKeepsInv(s: State, slots: seq<Tid>, tid: Tid)
    requires Inv(s, slots) && Enabled(s, Close(tid))
    ensures Inv(Apply(s, Close(tid)), slots)
  {
    PhaseKeepsSlots(s.ctx, tid, Closing, slots);
    CloseKeepsReaps(s.ctx, s.mailbox, tid);
    PostReap(s.mailbox, Reap(tid));
    assert s.ctx.sockets != map[];
  }

  lemma CloseLogKeepsInv(s: State, slots: seq<Tid>)
    requires Inv(s, slots) && Enabled(s, CloseLog)
    ensures Inv(Apply(s, CloseLog), slots)
  {
    var tid := s.log.value;
    PhaseKeepsSlots(s.ctx, tid, Closing, slots);
    CloseKeepsReaps(s.ctx, s.mailbox, tid);
    PostReap(s.mailbox, Reap(tid));
    assert s.ctx.sockets != map[];
  }

  lemma TakeReapKeepsReaps(c: Context, mailbox: seq<Cmd>)
    requires ReapsOk(c, mailbox) && mailbox != [] && mailbox[0].Reap?
    ensures var tid := mailbox[0].tid;
      && tid in c.sockets && c.sockets[tid] == Closing
      && ReapsOk(SetPhase(c, tid, Phase.Dying), mailbox[1..])
      && |DyingTids(SetPhase(c, tid, Phase.Dying))| == |DyingTids(c)| + 1
      && tid in DyingTids(SetPhase(c, tid, Phase.Dying))
  {
    var tid := mailbox[0].tid;
    PopCmd(mailbox);
    assert multiset(mailbox)[Reap(tid)] > 0;
    assert DyingTids(SetPhase(c, tid, Phase.Dying)) == DyingTids(c) + {tid};
  }

  lemma TakeReapKeepsInv(s: State, slots: seq<Tid>)
    requires Inv(s, slots) && Enabled(s, Take) && s.mailbox[0].Reap?
    ensures Inv(Apply(s, Take), slots)
  {
    PopCmd(s.mailbox);
    TakeReapKeepsReaps(s.ctx, s.mailbox);
    PhaseKeepsSlots(s.ctx, s.mailbox[0].tid, Phase.Dying, slots);
  }

  lemma TakeReapedKeepsInv(s: State, slots: seq<Tid>)
    requires Inv(s, slots) && Enabled(s, Take) && s.mailbox[0].Reaped?
    ensures Inv(Apply(s, Take), slots)
  {
    PopCmd(s.mailbox);
    assert s.reaper.sockets > 0;
    DoneMeansEmpty(Apply(s, Take), slots);
  }

  lemma TakeStopKeepsInv(s: State, slots: seq<Tid>)
    requires Inv(s, slots) && Enabled(s, Take) && s.mailbox[0].Stop?
    ensures Inv(Apply(s, Take), slots)
  {
    PopCmd(s.mailbox);
    assert multiset(s.mailbox)[Stop] > 0;
    DoneMeansEmpty(Apply(s, Take), slots);
  }

  /** When the reaper finishes, no command is left for it. */
  lemma DoneMeansEmpty(s: State, slots: seq<Tid>)
    requires ReapsOk(s.ctx, s.mailbox) && ReaperOk(s) && s.pc == Idle
    requires s.stops == multiset(s.mailbox)[Stop] + (if s.reaper.terminating then 1 else 0)
    requires s.stops == (if s.ctx.terminating && s.ctx.sockets == map[] then 1 else 0)
    ensures s.reaper.terminating && s.reaper.sockets == 0 ==> s.mailbox == []
  {
    if s.reaper.terminating && s.reaper.sockets == 0 {
      assert s.ctx.sockets == map[];
      forall cmd ensures multiset(s.mailbox)[cmd] == 0 {
        assert cmd.Reap? ==> multiset(s.mailbox)[Reap(cmd.tid)] == 0;
      }
      assert s.mailbox != [] ==> multiset(s.mailbox)[s.mailbox[0]] > 0;
    }
  }

  lemma DestroyKeepsSlots(c: Context, slots: seq<Tid>, tid: Tid)
    requires SlotsOk(c, slots) && tid in c.sockets
    ensures SlotsOk(Removed(c, tid), slots) && DyingTids(Removed(c, tid)) == DyingTids(c) - {tid}
  {
    var d := Removed(c, tid);
    assert d.sockets.Keys == c.sockets.Keys - {tid};
    assert c.sockets.Keys == d.sockets.Keys + {tid};
  }

  /** A stop command is posted with the last socket of a terminating context, and leaves the rest of the mailbox as it is. */
  lemma StopPosted(c: Context, mailbox: seq<Cmd>, d: Context)
    requires ReapsOk(c, mailbox)
    requires forall t: Tid :: (t in d.sockets && d.sockets[t] == Closing) <==> (t in c.sockets && c.sockets[t] == Closing)
    ensures var more := mailbox + StopIfLast(d);
      && ReapsOk(d, more)
      && multiset(more)[Reaped] == multiset(mailbox)[Reaped]
      && multiset(more)[Stop] == multiset(mailbox)[Stop] + |StopIfLast(d)|
  {
    PostReap(mailbox, Stop);
    assert mailbox + [] == mailbox;
  }

  lemma DestroyKeepsInv(s: State, slots: seq<Tid>, tid: Tid)
    requires Inv(s, slots) && Enabled(s, Destroy(tid))
    ensures Inv(Apply(s, Destroy(tid)), slots)
  {
    DestroyKeepsSlots(s.ctx, slots, tid);
    assert tid in DyingTids(s.ctx);
    assert s.ctx.sockets != map[];
    StopPosted(s.ctx, s.mailbox, Removed(s.ctx, tid));
  }

  lemma SetTerminatingKeepsInv(s: State, slots: seq<Tid>)
    requires Inv(s, slots) && Enabled(s, SetTerminating)
    ensures Inv(Apply(s, SetTerminating), slots)
  {
    StopPosted(s.ctx, s.mailbox, s.ctx.(terminating := true));
    assert DyingTids(s.ctx.(terminating := true)) == DyingTids(s.ctx);
  }

  lemma StepKeepsInv(s: State, slots: seq<Tid>, step: Step)
    requires Inv(s, slots) && Enabled(s, step)
    ensures Inv(Apply(s, step), slots)
  {
    match step
    case Create(valid) => CreateKeepsInv(s, slots, valid);
    case Close(tid) => CloseKeepsInv(s, slots, tid);
    case Take =>
      if s.mailbox[0].Reap? { TakeReapKeepsInv(s, slots); }
      else if s.mailbox[0].Reaped? { TakeReapedKeepsInv(s, slots); }
      else { TakeStopKeepsInv(s, slots); }
    case Destroy(tid) => DestroyKeepsInv(s, slots, tid);
    case NotYet =>
    case SendReaped => PostReap(s.mailbox, Reaped);
    case Count =>
    case CloseLog => CloseLogKeepsInv(s, slots);
    case SetTerminating => SetTerminatingKeepsInv(s, slots);
    case Restart =>
    case Interrupted =>
    case GetDone =>
  }

  lemma {:induction false} EveryRunKeepsInv(slots: seq<Tid>, steps: seq<Step>)
    requires slots != [] && Distinct(slots) && Run(slots, steps).Some?
    ensures Inv(Run(slots, steps).value, slots)
  {
    if steps == [] {
      InitIsFine(slots);
    } else {
      EveryRunKeepsInv(slots, steps[..|steps| - 1]);
      StepKeepsInv(Run(slots, steps[..|steps| - 1]).value, slots, steps[|steps| - 1]);
    }
  }

  lemma InitIsFine(slots: seq<Tid>)
    requires slots != [] && Distinct(slots)
    ensures Inv(Init(slots), slots)
  {
    var n := |slots| - 1;
    var s := Init(slots);
    assert slots == slots[..n] + [slots[n]];
    assert |map[slots[n] := Open]| == 1;
    assert s.ctx.sockets != map[] by { assert slots[n] in s.ctx.sockets; }
    assert DyingTids(s.ctx) == {};
  }

  /**
   * In every interleaving of creating, closing, reaping, destroying, interruption and restart: `stop` is
   * sent to the reaper once, when the context is terminating and the last socket is gone; `done` is sent
   * at most once, and then every socket was destroyed and the reaper has nothing left to do.
   */
  lemma ShutdownOnce(slots: seq<Tid>, steps: seq<Step>)
    requires slots != [] && Distinct(slots) && Run(slots, steps).Some?
    ensures var s := Run(slots, steps).value;
      && s.stops == (if s.ctx.terminating && s.ctx.sockets == map[] then 1 else 0)
      && s.dones <= s.stops
      && (s.dones == 1 ==> s.mailbox == [] && s.pc == Idle && s.reaper.sockets == 0)
      && (s.term == Returned ==> s.dones == 1)
  {
    EveryRunKeepsInv(slots, steps);
  }

  /** Live sockets have different slots, which are not among the empty ones; none is lost. */
  lemma SlotsAreUnique(slots: seq<Tid>, steps: seq<Step>)
    requires slots != [] && Distinct(slots) && Run(slots, steps).Some?
    ensures var c := Run(slots, steps).value.ctx;
      && Distinct(c.emptySlots)
      && (forall t :: t in slots <==> t in c.emptySlots || t in c.sockets)
      && (forall t :: t in c.emptySlots ==> t !in c.sockets)
      && |c.emptySlots| + |c.sockets| == |slots|
  {
    EveryRunKeepsInv(slots, steps);
  }

  /** Once the context is terminating and the reaper has not finished, something can still happen: the reaper has work, or a socket waits to be closed or destroyed. */
  lemma NeverStuck(slots: seq<Tid>, steps: seq<Step>)
    requires slots != [] && Distinct(slots) && Run(slots, steps).Some?
    requires var s := Run(slots, steps).value; s.ctx.terminating && !s.reaper.done
    ensures var s := Run(slots, steps).value;
      || Enabled(s, Take) || Enabled(s, NotYet) || Enabled(s, SendReaped) || Enabled(s, Count)
      || exists t :: t in s.ctx.sockets && (s.ctx.sockets[t] == Open || s.ctx.sockets[t] == Phase.Dying)
  {
    EveryRunKeepsInv(slots, steps);
    var s := Run(slots, steps).value;
    if s.pc == Idle && s.mailbox == [] {
      if s.ctx.sockets == map[] {
        assert DyingTids(s.ctx) == {};
      } else {
        var t :| t in s.ctx.sockets;
        assert multiset(s.mailbox)[Reap(t)] == 0;
      }
    }
  }

  /** A finished reaper stays finished, and no socket is created any more. */
  lemma FinishedForGood(slots: seq<Tid>, steps: seq<Step>, step: Step)
    requires slots != [] && Distinct(slots) && Run(slots, steps).Some?
    requires Run(slots, steps).value.reaper.done && Enabled(Run(slots, steps).value, step)
    ensures var s := Run(slots, steps).value;
      Apply(s, step) == s.(term := Apply(s, step).term)
  {
    EveryRunKeepsInv(slots, steps);
  }

  // ---- Termination completes

  /** What is left to do until the terminating thread returns. */
  ghost function Work(s: State): nat {
    8 * |Tids(s.ctx, Open)| + 7 * |Tids(s.ctx, Closing)| + 5 * |Tids(s.ctx, Phase.Dying)|
    + (match s.pc case Idle => 0 case Reaping(_) => 1 case Destroyed(_) => 3 case Counting => 1)
    + multiset(s.mailbox)[Reaped] + multiset(s.mailbox)[Stop]
    + (match s.term case Outside => 2 case LogClosed => 2 case Waiting => 1 case Returned => 0)
    + (if s.ctx.terminating then 0 else 2)
  }

  /** The steps of shutting down: no socket is created, and the wait is not interrupted. */
  predicate Shuts(step: Step) { !step.Create? && !step.Interrupted? }

  lemma PhaseMoves(c: Context, tid: Tid, phase: Phase)
    requires tid in c.sockets && c.sockets[tid] != phase
    ensures var d, was := SetPhase(c, tid, phase), c.sockets[tid];
      && |Tids(d, was)| == |Tids(c, was)| - 1 && |Tids(d, phase)| == |Tids(c, phase)| + 1
      && forall other: Phase :: other != was && other != phase ==> Tids(d, other) == Tids(c, other)
  {
    var d, was := SetPhase(c, tid, phase), c.sockets[tid];
    assert Tids(d, was) == Tids(c, was) - {tid};
    assert Tids(d, phase) == Tids(c, phase) + {tid};
  }

  lemma RemovedMoves(c: Context, tid: Tid)
    requires tid in c.sockets && c.sockets[tid] == Phase.Dying
    ensures var d := Removed(c, tid);
      |Tids(d, Phase.Dying)| == |Tids(c, Phase.Dying)| - 1 && Tids(d, Open) == Tids(c, Open) && Tids(d, Closing) == Tids(c, Closing)
  {
    assert Tids(Removed(c, tid), Phase.Dying) == Tids(c, Phase.Dying) - {tid};
  }

  /** The work of the reaper: its own next step, its next command, or a socket that its application closes or that it destroys. */
  lemma ReaperStep(s: State, slots: seq<Tid>) returns (step: Step)
    requires Inv(s, slots) && s.ctx.terminating && !s.reaper.done
    ensures Shuts(step) && Enabled(s, step) && Work(Apply(s, step)) < Work(s)
  {
    PostReap(s.mailbox, Reaped);
    if s.pc != Idle {
      step := match s.pc case Reaping(_) => NotYet case Destroyed(_) => SendReaped case _ => Count;
    } else if s.mailbox != [] {
      step := Take;
      PopCmd(s.mailbox);
      TakeReduces(s, slots);
    } else {
      step := SocketStep(s, slots);
    }
  }

  lemma TakeReduces(s: State, slots: seq<Tid>)
    requires Inv(s, slots) && s.pc == Idle && s.mailbox != []
    ensures Work(Apply(s, Take)) < Work(s)
  {
    PopCmd(s.mailbox);
    if s.mailbox[0].Reap? {
      TakeReapKeepsReaps(s.ctx, s.mailbox);
      PhaseMoves(s.ctx, s.mailbox[0].tid, Phase.Dying);
    }
  }

  /** With nothing in its mailbox the reaper still has a socket that is to be closed or destroyed. */
  lemma SocketStep(s: State, slots: seq<Tid>) returns (step: Step)
    requires Inv(s, slots) && s.ctx.terminating && !s.reaper.done && s.pc == Idle && s.mailbox == []
    ensures Shuts(step) && Enabled(s, step) && Work(Apply(s, step)) < Work(s)
  {
    assert s.ctx.sockets == map[] ==> DyingTids(s.ctx) == {};
    var t :| t in s.ctx.sockets;
    assert multiset(s.mailbox)[Reap(t)] == 0;
    if s.ctx.sockets[t] == Open {
      step := Close(t);
      CloseReduces(s, t);
    } else {
      step := Destroy(t);
      DestroyReduces(s, t);
    }
  }

  lemma CloseReduces(s: State, tid: Tid)
    requires Enabled(s, Close(tid))
    ensures Work(Apply(s, Close(tid))) < Work(s)
  {
    PhaseMoves(s.ctx, tid, Closing);
    PostReap(s.mailbox, Reap(tid));
  }

  lemma DestroyReduces(s: State, tid: Tid)
    requires Enabled(s, Destroy(tid)) && ReapsOk(s.ctx, s.mailbox)
    ensures Work(Apply(s, Destroy(tid))) < Work(s)
  {
    RemovedMoves(s.ctx, tid);
    StopPosted(s.ctx, s.mailbox, Removed(s.ctx, tid));
  }

  /** Before that, the terminating thread closes the log socket and marks the context; after it, it fetches `done`. */
  lemma TerminatorStep(s: State, slots: seq<Tid>) returns (step: Step)
    requires Inv(s, slots) && (!s.ctx.terminating || s.reaper.done) && s.term != Returned
    ensures Shuts(step) && Enabled(s, step) && Work(Apply(s, step)) < Work(s)
  {
    if s.ctx.terminating {
      step := if s.term == Outside then Restart else GetDone;
    } else if s.term == Outside {
      step := CloseLog;
      CloseLogReduces(s);
    } else {
      step := SetTerminating;
      SetTerminatingReduces(s);
    }
  }

  lemma CloseLogReduces(s: State)
    requires Enabled(s, CloseLog) && s.log.value in s.ctx.sockets && s.ctx.sockets[s.log.value] == Open
    ensures Work(Apply(s, CloseLog)) < Work(s)
  {
    PhaseMoves(s.ctx, s.log.value, Closing);
    PostReap(s.mailbox, Reap(s.log.value));
  }

  lemma SetTerminatingReduces(s: State)
    requires Enabled(s, SetTerminating) && ReapsOk(s.ctx, s.mailbox) && !s.ctx.terminating
    ensures Work(Apply(s, SetTerminating)) < Work(s)
  {
    StopPosted(s.ctx, s.mailbox, s.ctx.(terminating := true));
    SameTids(s.ctx);
  }

  lemma SameTids(c: Context)
    ensures forall phase: Phase :: Tids(c.(terminating := true), phase) == Tids(c, phase)
  {
  }

  ghost predicate AllShut(steps: seq<Step>) { forall i :: 0 <= i < |steps| ==> Shuts(steps[i]) }

  lemma RunMore(slots: seq<Tid>, steps: seq<Step>, step: Step)
    requires slots != [] && Run(slots, steps).Some? && Enabled(Run(slots, steps).value, step)
    ensures Run(slots, steps + [step]) == Some(Apply(Run(slots, steps).value, step))
  {
    assert (steps + [step])[..|steps|] == steps;
  }

  lemma OneBefore(steps: seq<Step>, step: Step, rest: seq<Step>)
    ensures steps + [step] + rest == steps + ([step] + rest)
    ensures Shuts(step) && AllShut(rest) ==> AllShut([step] + rest)
  {
  }

  /**
   * From every state that can be reached, whatever sockets are open and however often the wait was
   * interrupted: once no more sockets are created, `terminate` can be brought to its end, and then every
   * socket was destroyed.
   */
  lemma {:induction false} TerminateCompletes(slots: seq<Tid>, steps: seq<Step>) returns (more: seq<Step>)
    requires slots != [] && Distinct(slots) && Run(slots, steps).Some?
    ensures AllShut(more) && Run(slots, steps + more).Some?
    ensures var s := Run(slots, steps + more).value; s.term == Returned && s.ctx.sockets == map[] && s.mailbox == []
    decreases Work(Run(slots, steps).value)
  {
    var s := Run(slots, steps).value;
    EveryRunKeepsInv(slots, steps);
    if s.term == Returned {
      more := [];
      assert steps + [] == steps;
    } else {
      var step;
      if s.ctx.terminating && !s.reaper.done {
        step := ReaperStep(s, slots);
      } else {
        step := TerminatorStep(s, slots);
      }
      RunMore(slots, steps, step);
      var rest := TerminateCompletes(slots, steps + [step]);
      OneBefore(steps, step, rest);
      more := [step] + rest;
    }
  }

  // ---- The objects

  class Ctx {
    var sockets: map<Tid, Phase>
    var emptySlots: seq<Tid>
    var terminating: bool

    ghost function View(): Context
      reads this
    {
      Context(sockets, emptySlots, terminating)
    }

    constructor (slots: seq<Tid>)
      requires slots != []
      ensures View() == Init(slots).ctx
    {
      var n := |slots| - 1;
      sockets, emptySlots, terminating := map[slots[n] := Open], slots[..n], false;
    }

    /** Under the slot lock. */
    method CreateSocket(valid: bool) returns (r: Outcome)
      modifies this
      ensures View() == Created(old(View()), valid) && r == CreateOutcome(old(View()), valid)
      ensures r.Socket? <==> !old(terminating) && old(emptySlots) != [] && valid
      ensures r == Terminating <==> old(terminating)
      ensures r == NoMoreSlots <==> !old(terminating) && old(emptySlots) == []
      ensures r.Socket? ==> sockets == old(sockets)[r.tid := Open] && multiset(old(emptySlots)) == multiset(emptySlots) + multiset{r.tid}
      ensures !r.Socket? ==> sockets == old(sockets) && emptySlots == old(emptySlots)
      ensures terminating == old(terminating)
    {
      if terminating {
        return Terminating;
      }
      if emptySlots == [] {
        return NoMoreSlots;
      }
      var n := |emptySlots| - 1;
      var slot := emptySlots[n];
      emptySlots := emptySlots[..n];
      if !valid {
        assert old(emptySlots) == emptySlots + [slot];
        emptySlots := emptySlots + [slot];
        return BadType;
      }
      sockets := sockets[slot := Open];
      assert old(emptySlots) == emptySlots + [slot];
      r := Socket(slot);
    }

    /** Under the slot lock: true when the reaper must be told to stop. */
    method DestroySocket(tid: Tid) returns (stop: bool)
      requires tid in sockets
      modifies this
      ensures View() == Removed(old(View()), tid) && (stop <==> StopIfLast(View()) == [Stop])
      ensures sockets == old(sockets) - {tid} && multiset(emptySlots) == multiset(old(emptySlots)) + multiset{tid}
      ensures terminating == old(terminating) && (stop <==> terminating && sockets == map[])
    {
      emptySlots := emptySlots + [tid];
      sockets := sockets - {tid};
      stop := terminating && sockets == map[];
    }

    /** The locked part of the first attempt to terminate. */
    method SetTerminating() returns (stop: bool)
      modifies this
      ensures View() == old(View()).(terminating := true) && (stop <==> StopIfLast(View()) == [Stop])
      ensures terminating && (stop <==> sockets == map[])
    {
      terminating := true;
      stop := sockets == map[];
    }
  }

  class ReaperThread {
    var sockets: nat
    var terminating: bool
    var done: bool

    ghost function View(): Reaper
      reads this
    {
      Reaper(sockets, terminating, done)
    }

    constructor ()
      ensures View() == Reaper(0, false, false)
    {
      sockets, terminating, done := 0, false, false;
    }

    /** Sends `done` when nothing is being reaped. */
    method ProcessStop()
      requires !done
      modifies this
      ensures View() == DoneIfLast(old(View()).(terminating := true))
      ensures terminating && sockets == old(sockets) && (done <==> sockets == 0)
    {
      terminating := true;
      if sockets == 0 {
        done := true;
      }
    }

    method ProcessReaped()
      requires !done && sockets > 0
      modifies this
      ensures View() == DoneIfLast(old(View()).(sockets := old(sockets) - 1))
      ensures terminating == old(terminating) && sockets == old(sockets) - 1 && (done <==> sockets == 0 && terminating)
    {
      sockets := sockets - 1;
      if sockets == 0 && terminating {
        done := true;
      }
    }
  }
}
