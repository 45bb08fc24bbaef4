/**
 * The ownership protocol comes to rest: what is in flight can always be handled, and then every tree whose
 * root was terminated is gone, and every other object owns exactly its living children. And which requests
 * for termination are honoured.
 */
module OwnProgress {
  import opened Wrappers
  import opened Own

  // ---- What is in flight

  /** Commands, promises and launches still to come, and the commands that telling and finishing will cost. */
  function Weight(o: Object): nat {
    |o.mailbox| + 2 * o.promised + (if o.launching.Some? then 2 else 0) + (if o.terms == 0 then 2 else 0) + (if o.alive then 2 else 0)
  }

  function Work(st: State): nat {
    if st == [] then 0 else Work(st[..|st| - 1]) + Weight(st[|st| - 1])
  }

  lemma {:induction false} WorkUpdate(st: State, x: Id, o: Object)
    requires x < |st|
    ensures Work(st[x := o]) == Work(st) - Weight(st[x]) + Weight(o)
  {
    var n := |st| - 1;
    if x == n {
      assert st[x := o][..n] == st[..n];
    } else {
      WorkUpdate(st[..n], x, o);
      assert st[x := o][..n] == st[..n][x := o];
    }
  }

  lemma {:induction false} WorkPointwise(st: State, t: State, x: Id)
    requires |st| == |t| && x < |st| && Weight(t[x]) < Weight(st[x])
    requires forall i :: 0 <= i < |st| ==> Weight(t[i]) <= Weight(st[i])
    ensures Work(t) < Work(st)
  {
    var n := |st| - 1;
    if x == n {
      WorkNoMore(st[..n], t[..n]);
    } else {
      WorkPointwise(st[..n], t[..n], x);
    }
  }

  lemma {:induction false} WorkNoMore(st: State, t: State)
    requires |st| == |t| && forall i :: 0 <= i < |st| ==> Weight(t[i]) <= Weight(st[i])
    ensures Work(t) <= Work(st)
  {
    if st != [] { WorkNoMore(st[..|st| - 1], t[..|st| - 1]); }
  }

  /** The steps that only handle what is in flight. */
  predicate Settles(s: Step) { s.Offer? || s.Deliver? || s.Process? }

  ghost predicate AllSettle(steps: seq<Step>) { forall i :: 0 <= i < |steps| ==> Settles(steps[i]) }

  /** A child that is told was not told before. */
  lemma ToldIsFirst(st: State, x: Id, cmd: Cmd, rest: seq<Cmd>, c: Id)
    requires Core(st) && Free(st, x) && Good(st, x) && Receives(st[x], cmd, rest) && c in ToldBy(st[x].l, cmd)
    ensures c < |st| && c != x && st[c].terms == 0
  {
    assert cmd in st[x].mailbox || cmd == Term;
    if cmd.Own? {
      assert Refers(st, x, cmd) && Good(st, c);
      assert multiset(st[x].mailbox)[Cmd.Own(c)] > 0;
    } else {
      assert c in st[x].l.owned && Good(st, c);
    }
  }

  lemma HandlingReduces(st: State, x: Id)
    requires Inv(st) && Enabled(st, Process(x)) && Good(st, x)
    ensures Work(After(st, x, st[x].mailbox[0], st[x].mailbox[1..])) < Work(st)
  {
    var cmd, rest := st[x].mailbox[0], st[x].mailbox[1..];
    var t := After(st, x, cmd, rest);
    assert st[x].mailbox == [cmd] + rest;
    AfterEach(st, x, cmd, rest);
    forall i | 0 <= i < |st| && i != x ensures Weight(t[i]) <= Weight(st[i]) {
      if i in ToldBy(st[x].l, cmd) { ToldIsFirst(st, x, cmd, rest, i); }
    }
    WorkPointwise(st, t, x);
  }

  lemma CheckReduces(st: State, x: Id)
    requires x < |st| && st[x].alive && (st[x].l.owner.Some? ==> st[x].l.owner.value < x)
    ensures Work(Check(st, x)) <= Work(st)
  {
    if Finished(st[x].l) {
      if st[x].l.owner == None {
        WorkUpdate(st, x, st[x].(alive := false));
      } else {
        var p, d := st[x].l.owner.value, st[x].(alive := false, phase := Acking);
        WorkUpdate(st, x, d);
        WorkUpdate(st[x := d], p, st[p].(mailbox := st[p].mailbox + [TermAck(x)]));
      }
    }
  }

  lemma ProcessReduces(st: State, x: Id)
    requires Inv(st) && Enabled(st, Process(x)) && Good(st, x)
    ensures Work(Apply(st, Process(x))) < Work(st)
  {
    var cmd, rest := st[x].mailbox[0], st[x].mailbox[1..];
    HandlingReduces(st, x);
    AfterEach(st, x, cmd, rest);
    HandledOwner(st[x].l, cmd);
    CheckReduces(After(st, x, cmd, rest), x);
  }

  /** No command changes who the owner is, or takes a termination back. */
  lemma HandledOwner(l: Local, cmd: Cmd)
    ensures Handle(l, cmd).owner == l.owner && (l.terminating || cmd == Term <==> Handle(l, cmd).terminating)
  {
  }

  lemma OfferReduces(st: State, x: Id)
    requires Inv(st) && Enabled(st, Offer(x)) && Good(st, x)
    ensures Work(Apply(st, Offer(x))) < Work(st)
  {
    var o := st[x].launching.value;
    var a := st[x := st[x].(launching := None)];
    WorkUpdate(st, x, st[x].(launching := None));
    WorkUpdate(a, o, a[o].(phase := Offered));
    assert a[o] == st[o];
    WorkAnnounce(a[o := st[o].(phase := Offered)], st[o].l.owner.value, Cmd.Own(o));
  }

  lemma WorkAnnounce(st: State, x: Id, cmd: Cmd)
    requires x < |st|
    ensures Work(Announce(st, x, cmd)) == Work(st) + 1
  {
    var k := st[x].(l := st[x].l.(sentSeqnum := st[x].l.sentSeqnum + 1));
    WorkUpdate(st, x, k);
    WorkUpdate(st[x := k], x, k.(mailbox := k.mailbox + [cmd]));
  }

  lemma DeliverReduces(st: State, x: Id)
    requires Enabled(st, Deliver(x)) && LinkedAt(st, x)
    ensures Work(Apply(st, Deliver(x))) < Work(st)
  {
    WorkUpdate(st, x, st[x].(promised := st[x].promised - 1, mailbox := st[x].mailbox + [Bind]));
  }

  /** Unless all is quiet, something in flight can be handled. */
  lemma NextStep(st: State) returns (s: Step)
    requires Inv(st) && !Quiet(st)
    ensures Settles(s) && Enabled(st, s) && s.x < |st| && Good(st, s.x)
    ensures Work(Apply(st, s)) < Work(st)
  {
    var x :| 0 <= x < |st| && !(st[x].mailbox == [] && st[x].promised == 0 && st[x].launching == None);
    assert Good(st, x);
    if st[x].launching.Some? {
      s := Offer(x);
      OfferReduces(st, x);
    } else if st[x].promised > 0 {
      s := Deliver(x);
      DeliverReduces(st, x);
    } else {
      s := Process(x);
      ProcessReduces(st, x);
    }
  }

  lemma SettlingReduces(st: State, s: Step)
    requires Inv(st) && Enabled(st, s) && Settles(s) && LinkedAt(st, s.x)
    ensures Work(Apply(st, s)) < Work(st)
  {
    assert Good(st, s.x);
    match s
    case Offer(x) => OfferReduces(st, x);
    case Deliver(x) => DeliverReduces(st, x);
    case Process(x) => ProcessReduces(st, x);
  }

  /** However it is scheduled, handling what is in flight takes a bounded number of steps. */
  lemma {:induction false} SettlingIsBounded(steps: seq<Step>, more: seq<Step>)
    requires Run(steps).Some? && Run(steps + more).Some? && AllSettle(more)
    ensures |more| + Work(Run(steps + more).value) <= Work(Run(steps).value)
    decreases |more|
  {
    if more == [] {
      assert steps + more == steps;
    } else {
      LastReduces(steps, more);
      SettlingIsBounded(steps, more[..|more| - 1]);
    }
  }

  lemma LastReduces(steps: seq<Step>, more: seq<Step>)
    requires Run(steps + more).Some? && more != [] && Settles(more[|more| - 1])
    ensures Run(steps + more[..|more| - 1]).Some?
    ensures Work(Run(steps + more).value) < Work(Run(steps + more[..|more| - 1]).value)
  {
    var n := |more| - 1;
    var before := steps + more[..n];
    assert (steps + more)[..|steps + more| - 1] == before && (steps + more)[|steps + more| - 1] == more[n];
    assert Run(before).Some?;
    EveryRunKeepsInv(before);
    SettlingReduces(Run(before).value, more[n]);
  }

  lemma RunMore(steps: seq<Step>, s: Step)
    requires Run(steps).Some? && Enabled(Run(steps).value, s) && (s.NewRoot? || LinkedAt(Run(steps).value, s.x))
    ensures Run(steps + [s]) == Some(Apply(Run(steps).value, s))
  {
    assert (steps + [s])[..|steps|] == steps;
  }

  lemma OneBefore(steps: seq<Step>, s: Step, rest: seq<Step>)
    ensures steps + [s] + rest == steps + ([s] + rest)
    ensures Settles(s) && AllSettle(rest) ==> AllSettle([s] + rest)
  {
  }

  /** From every state that can be reached, handling what is in flight comes to an end. */
  lemma {:induction false} ComesToRest(steps: seq<Step>) returns (more: seq<Step>)
    requires Run(steps).Some?
    ensures AllSettle(more) && Run(steps + more).Some? && Quiet(Run(steps + more).value)
    decreases Work(Run(steps).value)
  {
    EveryRunKeepsInv(steps);
    if Quiet(Run(steps).value) {
      more := [];
      assert steps + [] == steps;
    } else {
      var s := NextStep(Run(steps).value);
      RunMore(steps, s);
      var rest := ComesToRest(steps + [s]);
      OneBefore(steps, s, rest);
      more := [s] + rest;
    }
  }

  // ---- Termination completes

  /** Termination is for good, and nobody gets another owner. */
  ghost predicate Later(st: State, t: State) {
    |st| <= |t| && forall i :: 0 <= i < |st| ==> LaterObject(st[i], t[i])
  }

  predicate LaterObject(o: Object, o': Object) {
    o'.l.owner == o.l.owner && (o.l.terminating ==> o'.l.terminating) && (!o.alive ==> !o'.alive)
  }

  lemma AfterIsLater(st: State, x: Id, cmd: Cmd, rest: seq<Cmd>)
    requires x < |st| && st[x].alive && (st[x].l.owner.Some? ==> st[x].l.owner.value < |st|)
    ensures var t := After(st, x, cmd, rest); (t[x].l.owner.Some? ==> t[x].l.owner.value < |t|) && Later(st, Check(t, x))
  {
    HandlerIsLater(st, x, cmd, rest);
    CheckIsLater(After(st, x, cmd, rest), x);
    LaterTwice(st, After(st, x, cmd, rest), Check(After(st, x, cmd, rest), x));
  }

  lemma HandlerIsLater(st: State, x: Id, cmd: Cmd, rest: seq<Cmd>)
    requires x < |st|
    ensures var t := After(st, x, cmd, rest); |t| == |st| && t[x].l.owner == st[x].l.owner && Later(st, t)
  {
    AfterEach(st, x, cmd, rest);
    HandledOwner(st[x].l, cmd);
    var t := After(st, x, cmd, rest);
    forall i | 0 <= i < |st| ensures LaterObject(st[i], t[i]) { ChildIsLater(i, st[i], st[x].l, cmd); }
  }

  lemma ChildIsLater(c: Id, o: Object, l: Local, cmd: Cmd)
    ensures LaterObject(o, ChildAfter(c, o, l, cmd))
  {
  }

  lemma LaterTwice(st: State, t: State, u: State)
    requires Later(st, t) && Later(t, u)
    ensures Later(st, u)
  {
  }

  lemma CheckIsLater(st: State, x: Id)
    requires x < |st| && (st[x].l.owner.Some? ==> st[x].l.owner.value < |st|)
    ensures Later(st, Check(st, x)) && |Check(st, x)| == |st|
  {
  }

  lemma StepIsLater(st: State, s: Step)
    requires Inv(st) && Enabled(st, s) && (s.NewRoot? || Good(st, s.x))
    ensures Later(st, Apply(st, s))
  {
    match s
    case Process(x) => AfterIsLater(st, x, st[x].mailbox[0], st[x].mailbox[1..]);
    case Terminate(x) => if !st[x].l.terminating && st[x].l.owner == None { AfterIsLater(st, x, Term, st[x].mailbox); }
    case Offer(x) => OfferIsOffering(st, x);
    case _ =>
  }

  lemma {:induction false} RunIsLater(steps: seq<Step>, more: seq<Step>)
    requires Run(steps).Some? && Run(steps + more).Some?
    ensures Later(Run(steps).value, Run(steps + more).value)
    decreases |more|
  {
    if more == [] {
      assert steps + more == steps;
    } else {
      var n := |more| - 1;
      var before := steps + more[..n];
      assert (steps + more)[..|steps + more| - 1] == before && (steps + more)[|steps + more| - 1] == more[n];
      RunIsLater(steps, more[..n]);
      EveryRunKeepsInv(before);
      StepFrom(Run(before).value, more[n]);
    }
  }

  lemma StepFrom(st: State, s: Step)
    requires Inv(st) && Enabled(st, s) && (s.NewRoot? || LinkedAt(st, s.x))
    ensures Later(st, Apply(st, s))
  {
    if !s.NewRoot? { assert Good(st, s.x); }
    StepIsLater(st, s);
  }

  /** A call of `terminate` makes a root terminating; any other object that is not terminating asks its owner, once more if need be. */
  lemma TerminateActs(st: State, x: Id)
    requires Inv(st) && Enabled(st, Terminate(x)) && Good(st, x)
    ensures var t := Apply(st, Terminate(x));
      && |t| == |st|
      && (st[x].l.owner == None ==> t[x].l.terminating)
      && (st[x].l.owner.Some? && !st[x].l.terminating ==>
            var p := st[x].l.owner.value; t == st[p := st[p].(mailbox := st[p].mailbox + [TermReq(x)])])
      && (st[x].l.terminating ==> t == st)
  {
    if st[x].l.owner == None && !st[x].l.terminating { RootTerminates(st, x); }
  }

  lemma RootTerminates(st: State, x: Id)
    requires x < |st| && st[x].l.owner == None
    ensures var t := After(st, x, Term, st[x].mailbox);
      |t| == |st| && t[x].l.owner == None && |Check(t, x)| == |st| && Check(t, x)[x].l.terminating
  {
    AfterEach(st, x, Term, st[x].mailbox);
    HandledOwner(st[x].l, Term);
  }

  /**
   * Whatever is launched, promised or requested at the time: after a live root was terminated, handling
   * what is in flight destroys every object of its tree.
   */
  lemma TerminationCompletes(steps: seq<Step>, root: Id) returns (more: seq<Step>)
    requires Run(steps).Some? && Enabled(Run(steps).value, Terminate(root)) && Run(steps).value[root].l.owner == None
    ensures AllSettle(more) && Run(steps + [Terminate(root)] + more).Some?
    ensures var t := Run(steps + [Terminate(root)] + more).value;
      Quiet(t) && forall x: Id :: x < |t| && InTree(t, root, x) ==> !t[x].alive
  {
    EveryRunKeepsInv(steps);
    var st := Run(steps).value;
    assert Good(st, root);
    TerminateActs(st, root);
    RunMore(steps, Terminate(root));
    more := ComesToRest(steps + [Terminate(root)]);
    var all := steps + [Terminate(root)] + more;
    RunIsLater(steps + [Terminate(root)], more);
    var t := Run(all).value;
    forall x: Id | x < |t| && InTree(t, root, x) ensures !t[x].alive { WholeTreeGone(all, root, x); }
  }

  // ---- At rest

  /** With nothing in flight a living object owns exactly its living children: none is forgotten, and none is left over. */
  lemma AtRestChildrenAreOwned(steps: seq<Step>, x: Id, c: Id)
    requires Run(steps).Some? && Quiet(Run(steps).value) && x < |Run(steps).value| && c < |Run(steps).value|
    ensures var st := Run(steps).value;
      st[x].alive ==> (c in st[x].l.owned <==> st[c].alive && st[c].l.owner == Some(x))
  {
    EveryRunKeepsInv(steps);
    var st := Run(steps).value;
    assert Good(st, x) && Good(st, c) && Pending(st[c]);
    if st[x].alive && st[c].alive && st[c].l.owner == Some(x) {
      QuietMeansDone(st, c);
      assert multiset(st[x].mailbox)[Cmd.Own(c)] == 0 && multiset(st[c].mailbox)[Term] == 0;
    }
  }

  /** A launched object starts with its `plug`, and its owner is the launcher or the launcher's own owner. */
  lemma LaunchActs(st: State, x: Id, sibling: bool)
    requires Inv(st) && Enabled(st, Launch(x, sibling)) && Good(st, x)
    ensures var t, o := Apply(st, Launch(x, sibling)), |st|;
      && |t| == |st| + 1 && t[o].alive && t[o].mailbox == [Plug] && t[o].l.sentSeqnum == 1
      && t[o].l.owner == (if sibling then st[x].l.owner else Some(x)) && t[x].launching == Some(o)
  {
  }

  // ---- Requests

  /**
   * What becomes of a request at the head of the mailbox: the child is told at once exactly when it is
   * owned. A child that was told before is not told again; one that is still being launched is not told,
   * and the request is lost.
   */
  lemma RequestHandled(st: State, x: Id, c: Id)
    requires Inv(st) && Enabled(st, Process(x)) && Good(st, x) && st[x].mailbox[0] == TermReq(c)
    ensures c < |st| && c != x && st[c].l.owner == Some(x) && |Apply(st, Process(x))| == |st|
    ensures var t := Apply(st, Process(x));
      && (st[c].phase == Phase.Owned <==> t[c].terms == st[c].terms + 1)
      && (st[c].phase == Phase.Owned ==> t[c].phase == Told && t[c].mailbox == st[c].mailbox + [Term])
      && (st[c].phase != Phase.Owned ==> t[c] == st[c])
      && (st[c].phase.Launching? || st[c].phase.Offered? || st[c].terms == 1 || st[c].phase == Phase.Owned)
  {
    var cmd, rest := st[x].mailbox[0], st[x].mailbox[1..];
    assert cmd in st[x].mailbox && Refers(st, x, cmd);
    assert Good(st, c);
    AfterEach(st, x, cmd, rest);
    HandledOwner(st[x].l, cmd);
  }

  /** The child was told, or is owned and its request is on its way. */
  ghost predicate Asked(st: State, c: Id) {
    && c < |st| && st[c].l.owner.Some? && st[c].l.owner.value < |st|
    && (st[c].terms == 1 || (st[c].phase == Phase.Owned && TermReq(c) in st[st[c].l.owner.value].mailbox))
  }

  lemma StepKeepsAsked(st: State, s: Step, c: Id)
    requires Inv(st) && Enabled(st, s) && Settles(s) && Good(st, s.x) && Asked(st, c)
    ensures Asked(Apply(st, s), c)
  {
    assert Good(st, c);
    match s
    case Process(x) => ProcessKeepsAsked(st, x, c);
    case Offer(x) => OfferKeepsAsked(st, x, c);
    case Deliver(x) =>
  }

  lemma OfferKeepsAsked(st: State, x: Id, c: Id)
    requires Inv(st) && Enabled(st, Offer(x)) && Good(st, x) && Asked(st, c) && Good(st, c)
    ensures Asked(Apply(st, Offer(x)), c)
  {
    var t, o := Apply(st, Offer(x)), st[x].launching.value;
    var p := st[o].l.owner.value;
    OfferIsOffering(st, x);
    assert t[c] == OfferedObject(st, x, o, p, c);
    assert t[st[c].l.owner.value] == OfferedObject(st, x, o, p, st[c].l.owner.value);
  }

  lemma ProcessKeepsAsked(st: State, x: Id, c: Id)
    requires Inv(st) && Enabled(st, Process(x)) && Good(st, x) && Asked(st, c) && Good(st, c)
    ensures Asked(Apply(st, Process(x)), c)
  {
    var cmd, rest := st[x].mailbox[0], st[x].mailbox[1..];
    assert st[x].mailbox == [cmd] + rest;
    AfterEach(st, x, cmd, rest);
    HandledOwner(st[x].l, cmd);
    HandlerKeepsAsked(st, x, cmd, rest, c);
    CheckKeepsAsked(After(st, x, cmd, rest), x, c);
  }

  /** The owner tells the child when it comes to the request, if not before; other commands leave request and phase. */
  lemma HandlerKeepsAsked(st: State, x: Id, cmd: Cmd, rest: seq<Cmd>, c: Id)
    requires Core(st) && Free(st, x) && Good(st, x) && st[x].mailbox == [cmd] + rest && Asked(st, c) && Good(st, c)
    ensures var t := After(st, x, cmd, rest);
      Asked(t, c) && (c == x && t[c].phase == Phase.Owned ==> !Finished(t[c].l))
  {
    AfterEach(st, x, cmd, rest);
    HandledOwner(st[x].l, cmd);
    if c in ToldBy(st[x].l, cmd) {
      ToldIsFirst(st, x, cmd, rest, c);
    } else if st[c].terms != 1 {
      OwnedUnconcerned(st, x, cmd, rest, c);
      RequestStays(st, x, cmd, rest, c);
    }
  }

  lemma RequestStays(st: State, x: Id, cmd: Cmd, rest: seq<Cmd>, c: Id)
    requires x < |st| && st[x].mailbox == [cmd] + rest && c < |st| && st[c].l.owner.Some? && st[c].l.owner.value < |st|
    requires TermReq(c) in st[st[c].l.owner.value].mailbox && (st[c].l.owner == Some(x) ==> cmd != TermReq(c))
    requires c !in ToldBy(st[x].l, cmd) && cmd != Cmd.Own(c) && cmd != TermAck(c)
    ensures var t, p := After(st, x, cmd, rest), st[c].l.owner.value;
      |t| == |st| && TermReq(c) in t[p].mailbox && t[c].phase == st[c].phase
  {
    var p := st[c].l.owner.value;
    AfterEach(st, x, cmd, rest);
    if p == x {
      assert TermReq(c) in [cmd] + rest;
    } else {
      MailStays(p, st[p], st[x].l, cmd, TermReq(c));
    }
    if c != x { assert ChildAfter(c, st[c], st[x].l, cmd) == st[c]; }
  }

  lemma MailStays(p: Id, o: Object, l: Local, cmd: Cmd, kept: Cmd)
    requires kept in o.mailbox
    ensures kept in ChildAfter(p, o, l, cmd).mailbox
  {
  }

  /** A command that does not tell an owned child does not concern it. */
  lemma OwnedUnconcerned(st: State, x: Id, cmd: Cmd, rest: seq<Cmd>, c: Id)
    requires Core(st) && Free(st, x) && Good(st, x) && st[x].mailbox == [cmd] + rest
    requires c < |st| && Good(st, c) && st[c].phase == Phase.Owned && st[c].l.owner.Some? && c !in ToldBy(st[x].l, cmd)
    ensures cmd != Cmd.Own(c) && cmd != TermAck(c) && (st[c].l.owner == Some(x) ==> cmd != TermReq(c))
    ensures c == x ==> cmd != Term && !st[c].l.terminating
  {
    assert cmd in st[x].mailbox;
    assert Refers(st, x, cmd);
    assert multiset(st[x].mailbox)[cmd] > 0;
  }

  lemma CheckKeepsAsked(st: State, x: Id, c: Id)
    requires x < |st| && (st[x].l.owner.Some? ==> st[x].l.owner.value < |st|) && Asked(st, c)
    requires c == x && st[c].phase == Phase.Owned ==> !Finished(st[c].l) || st[c].terms == 1
    ensures Asked(Check(st, x), c)
  {
  }

  lemma {:induction false} RunKeepsAsked(steps: seq<Step>, more: seq<Step>, c: Id)
    requires Run(steps).Some? && Run(steps + more).Some? && AllSettle(more) && Asked(Run(steps).value, c)
    ensures Asked(Run(steps + more).value, c)
    decreases |more|
  {
    if more == [] {
      assert steps + more == steps;
    } else {
      var n := |more| - 1;
      var before := steps + more[..n];
      assert (steps + more)[..|steps + more| - 1] == before && (steps + more)[|steps + more| - 1] == more[n];
      RunKeepsAsked(steps, more[..n], c);
      EveryRunKeepsInv(before);
      assert Good(Run(before).value, more[n].x);
      StepKeepsAsked(Run(before).value, more[n], c);
    }
  }

  /** An object whose owner has taken note of it is destroyed after it asked to be terminated, with all that it owns. */
  lemma OwnedRequestCompletes(steps: seq<Step>, c: Id) returns (more: seq<Step>)
    requires Run(steps).Some? && Enabled(Run(steps).value, Terminate(c)) && Run(steps).value[c].phase == Phase.Owned
    requires Run(steps).value[c].l.owner.Some?
    ensures AllSettle(more) && Run(steps + [Terminate(c)] + more).Some?
    ensures var t := Run(steps + [Terminate(c)] + more).value;
      Quiet(t) && forall x: Id :: x < |t| && InTree(t, c, x) ==> !t[x].alive
  {
    EveryRunKeepsInv(steps);
    var st := Run(steps).value;
    assert Good(st, c);
    TerminateActs(st, c);
    RunMore(steps, Terminate(c));
    var u := Run(steps + [Terminate(c)]).value;
    assert TermReq(c) in u[st[c].l.owner.value].mailbox;
    assert Asked(u, c);
    more := ComesToRest(steps + [Terminate(c)]);
    var all := steps + [Terminate(c)] + more;
    RunKeepsAsked(steps + [Terminate(c)], more, c);
    EveryRunKeepsInv(all);
    var t := Run(all).value;
    ToldIsGone(t, c);
    forall x: Id | x < |t| && InTree(t, c, x) ensures !t[x].alive { DeadTree(t, c, x); }
  }

  lemma ToldIsGone(st: State, c: Id)
    requires Inv(st) && Quiet(st) && Asked(st, c)
    ensures !st[c].alive
  {
    assert Good(st, c);
    QuietMeansDone(st, c);
    assert multiset(st[c].mailbox)[Term] == 0;
  }

  lemma {:induction false} DeadTree(st: State, root: Id, x: Id)
    requires Inv(st) && root < |st| && x < |st| && !st[root].alive && InTree(st, root, x)
    ensures !st[x].alive
    decreases x
  {
    if x != root {
      assert Good(st, x);
      DeadTree(st, root, st[x].l.owner.value);
    }
  }

  // ---- A request that is lost

  /** A root; the child it launches; and the two with the launch not complete, and complete. */
  const ROOT := Object(Local(false, 0, 0, None, {}, 0), true, [], 0, None, Done, 0)

  const CHILD := Object(Local(false, 1, 1, Some(0), {}, 0), true, [], 0, None, Launching(0), 0)

  function Launcher(mailbox: seq<Cmd>): Object { ROOT.(launching := Some(1), mailbox := mailbox) }

  function Owner(processed: nat, owned: set<Id>, mailbox: seq<Cmd>): Object {
    ROOT.(l := Local(false, 1, processed, None, owned, 0), mailbox := mailbox)
  }

  const OVERTAKING: seq<Step> := [NewRoot, Launch(0, false), Process(1), Terminate(1), Offer(0), Process(0), Process(0)]

  lemma Ran(steps: seq<Step>, s: Step, st: State, t: State)
    requires Run(steps) == Some(st) && Enabled(st, s) && (s.NewRoot? || LinkedAt(st, s.x))
    requires |Apply(st, s)| == |t| && forall i :: 0 <= i < |t| ==> Apply(st, s)[i] == t[i]
    ensures Run(steps + [s]) == Some(t)
  {
    RunMore(steps, s);
    assert Apply(st, s) == t;
  }

  lemma ChildRuns(steps: seq<Step>)
    requires steps == [NewRoot, Launch(0, false)]
    ensures Run(steps + [Process(1)]) == Some([Launcher([]), CHILD])
  {
    var launched := CHILD.(l := CHILD.l.(processedSeqnum := 0), mailbox := [Plug]);
    Ran([], NewRoot, [], [ROOT]);
    assert [] + [NewRoot] == [NewRoot];
    Ran([NewRoot], Launch(0, false), [ROOT], [Launcher([]), launched]);
    assert [NewRoot] + [Launch(0, false)] == steps;
    Ran(steps, Process(1), [Launcher([]), launched], [Launcher([]), CHILD]);
  }

  lemma ChildAsks(steps: seq<Step>)
    requires Run(steps) == Some([Launcher([]), CHILD])
    ensures Run(steps + [Terminate(1)] + [Offer(0)]) == Some([Owner(0, {}, [TermReq(1), Cmd.Own(1)]), CHILD.(phase := Offered)])
  {
    Ran(steps, Terminate(1), [Launcher([]), CHILD], [Launcher([TermReq(1)]), CHILD]);
    Ran(steps + [Terminate(1)], Offer(0), [Launcher([TermReq(1)]), CHILD], [Owner(0, {}, [TermReq(1), Cmd.Own(1)]), CHILD.(phase := Offered)]);
  }

  lemma OwnerHandles(steps: seq<Step>)
    requires Run(steps) == Some([Owner(0, {}, [TermReq(1), Cmd.Own(1)]), CHILD.(phase := Offered)])
    ensures Run(steps + [Process(0)] + [Process(0)]) == Some([Owner(1, {1}, []), CHILD.(phase := Phase.Owned)])
  {
    Ran(steps, Process(0), [Owner(0, {}, [TermReq(1), Cmd.Own(1)]), CHILD.(phase := Offered)],
        [Owner(0, {}, [Cmd.Own(1)]), CHILD.(phase := Offered)]);
    Ran(steps + [Process(0)], Process(0), [Owner(0, {}, [Cmd.Own(1)]), CHILD.(phase := Offered)],
        [Owner(1, {1}, []), CHILD.(phase := Phase.Owned)]);
  }

  /**
   * It happens: a child runs and asks to be terminated before its launcher has sent `own`. The request is
   * ignored, and in the end nothing is in flight and the child is alive and owned.
   */
  lemma RequestIsLost()
    ensures Run(OVERTAKING).Some?
    ensures var st := Run(OVERTAKING).value;
      Quiet(st) && |st| == 2 && st[1].alive && !st[1].l.terminating && st[1].terms == 0 && st[0].l.owned == {1}
  {
    var first := [NewRoot, Launch(0, false)];
    ChildRuns(first);
    ChildAsks(first + [Process(1)]);
    OwnerHandles(first + [Process(1)] + [Terminate(1)] + [Offer(0)]);
    InFull(first);
  }

  lemma InFull(first: seq<Step>)
    requires first == [NewRoot, Launch(0, false)]
    ensures first + [Process(1)] + [Terminate(1)] + [Offer(0)] + [Process(0)] + [Process(0)] == OVERTAKING
  {
  }
}
