/** The fan-out: outbound pipes in three zones, active, eligible and passive, each sent whole messages from their first part on. */
module Dist {
  import opened Bytes
  import opened Wrappers
  import opened PipeArray
  import M = MsgContent

  /** Part `part` of the message number `message`. */
  datatype Label = Label(message: nat, part: nat)

  /** `next` names the part to be sent next, `logs` and `parts` are what each pipe was given, `tries` the pipes that were written to, in order. */
  datatype Fan<P> = Fan(pipes: seq<P>, active: nat, eligible: nat, more: bool, next: Label, logs: map<P, seq<Label>>, parts: map<P, seq<Message>>, tries: seq<P>)

  ghost predicate Shape<P>(s: Fan<P>) {
    && s.active <= s.eligible <= |s.pipes|
    && Distinct(s.pipes)
    && (forall p :: p in s.pipes ==> p in s.logs && p in s.parts)
  }

  ghost predicate Active<P>(s: Fan<P>, p: P)
    requires s.active <= |s.pipes|
  {
    p in s.pipes[..s.active]
  }

  /** Eligible and not active: to be sent messages from the next one on. */
  ghost predicate Waiting<P>(s: Fan<P>, p: P)
    requires s.active <= s.eligible <= |s.pipes|
  {
    p in s.pipes[s.active..s.eligible]
  }

  /** Every part comes right after the previous part of its message. */
  ghost predicate NoGaps(log: seq<Label>) {
    forall i :: 0 <= i < |log| && log[i].part > 0 ==> i > 0 && log[i - 1] == Label(log[i].message, log[i].part - 1)
  }

  predicate Earlier(a: Label, b: Label) { a.message < b.message || (a.message == b.message && a.part < b.part) }

  /** What a pipe was given has no gaps and is in the past. */
  ghost predicate LogOk(log: seq<Label>, next: Label) {
    NoGaps(log) && (log != [] ==> Earlier(log[|log| - 1], next))
  }

  /** The pipe was given the part before `next`. */
  predicate UpToDate(log: seq<Label>, next: Label) {
    next.part > 0 ==> log != [] && log[|log| - 1] == Label(next.message, next.part - 1)
  }

  ghost predicate Inv<P>(s: Fan<P>) {
    && Shape(s)
    && (!s.more ==> s.active == s.eligible)
    && (s.more <==> s.next.part > 0)
    && (forall p :: p in s.pipes ==> LogOk(s.logs[p], s.next))
    && (forall i :: 0 <= i < s.active ==> UpToDate(s.logs[s.pipes[i]], s.next))
  }

  /** The write to pipe `i` failed: it changes places with the last active pipe, and then with the last eligible one. */
  function Refused<P>(s: Fan<P>, i: nat): Fan<P>
    requires i < s.active <= s.eligible <= |s.pipes|
  {
    var once := Swapped(s.pipes, i, s.active - 1);
    s.(pipes := Swapped(once, s.active - 1, s.eligible - 1), active := s.active - 1, eligible := s.eligible - 1,
       tries := s.tries + [s.pipes[i]])
  }

  function Accepted<P(==)>(s: Fan<P>, i: nat, m: Message): Fan<P>
    requires i < |s.pipes| && s.pipes[i] in s.logs && s.pipes[i] in s.parts
  {
    var p := s.pipes[i];
    s.(logs := s.logs[p := s.logs[p] + [s.next]], parts := s.parts[p := s.parts[p] + [m]], tries := s.tries + [p])
  }

  lemma RefusedShape<P>(s: Fan<P>, i: nat)
    requires Shape(s) && i < s.active
    ensures Shape(Refused(s, i)) && forall p :: p in Refused(s, i).pipes <==> p in s.pipes
  {
    SwappedMembers(s.pipes, i, s.active - 1);
    SwappedMembers(Swapped(s.pipes, i, s.active - 1), s.active - 1, s.eligible - 1);
  }

  /** The loop of `distribute` from position `i` on, where the pipes in `full` refuse the part. */
  ghost function Loop<P>(s: Fan<P>, i: nat, full: set<P>, m: Message): Fan<P>
    requires Shape(s) && i <= s.active
    decreases s.active - i
  {
    if i == s.active then s
    else if s.pipes[i] in full then
      RefusedShape(s, i);
      Loop(Refused(s, i), i, full, m)
    else Loop(Accepted(s, i, m), i + 1, full, m)
  }

  /** After the last part of a message every eligible pipe is active. */
  function Ended<P>(t: Fan<P>, hasMore: bool): Fan<P> {
    if hasMore then t.(more := true, next := Label(t.next.message, t.next.part + 1))
    else t.(active := t.eligible, more := false, next := Label(t.next.message + 1, 0))
  }

  /** `send`: distributes the part. */
  ghost function Sent<P>(s: Fan<P>, m: Message, full: set<P>): Fan<P>
    requires Shape(s)
  {
    Ended(Loop(s, 0, full, m), HasMore(m.flags))
  }

  // ---- What the loop does

  /** Only the refused pipe leaves its zone. */
  lemma RefusedActive<P>(s: Fan<P>, i: nat, p: P)
    requires Shape(s) && i < s.active
    ensures Active(Refused(s, i), p) <==> Active(s, p) && p != s.pipes[i]
  {
    var t, a := Refused(s, i), s.active - 1;
    if Active(s, p) && p != s.pipes[i] {
      var k :| 0 <= k < s.active && s.pipes[k] == p;
      assert t.pipes[if k == a then i else k] == p;
    }
    if Active(t, p) {
      var k :| 0 <= k < a && t.pipes[k] == p;
      assert s.pipes[if k == i then a else k] == p;
    }
  }

  lemma RefusedWaiting<P>(s: Fan<P>, i: nat, p: P)
    requires Shape(s) && i < s.active
    ensures Waiting(Refused(s, i), p) <==> Waiting(s, p)
  {
    var t, a, e := Refused(s, i), s.active - 1, s.eligible - 1;
    if Waiting(s, p) {
      var k :| s.active <= k < s.eligible && s.pipes[k] == p;
      assert t.pipes[if k == e then a else k] == p;
    }
    if Waiting(t, p) {
      var k :| a <= k < e && t.pipes[k] == p;
      assert s.pipes[if k == a then e else k] == p;
    }
  }

  lemma LastToFront<P>(before: seq<P>, after: seq<P>, x: P, middle: seq<P>, z: P)
    requires before == [x] + middle + [z] && after == [z] + middle
    ensures multiset(before) == multiset{x} + multiset(after)
  {
  }

  lemma RefusedRange<P>(s: Fan<P>, i: nat)
    requires Shape(s) && i < s.active - 1
    ensures Refused(s, i).pipes[i..s.active - 1] == [s.pipes[s.active - 1]] + s.pipes[i + 1..s.active - 1]
    ensures s.pipes[i..s.active] == [s.pipes[i]] + s.pipes[i + 1..s.active - 1] + [s.pipes[s.active - 1]]
  {
  }

  lemma RefusedTries<P>(s: Fan<P>, i: nat)
    requires Shape(s) && i < s.active
    ensures var t := Refused(s, i);
      multiset(s.pipes[i..s.active]) == multiset{s.pipes[i]} + multiset(t.pipes[i..t.active])
  {
    var t, a := Refused(s, i), s.active - 1;
    if i == a {
      RefusedLast(s, i);
    } else {
      RefusedRange(s, i);
      LastToFront(s.pipes[i..s.active], t.pipes[i..t.active], s.pipes[i], s.pipes[i + 1..a], s.pipes[a]);
    }
  }

  lemma RefusedLast<P>(s: Fan<P>, i: nat)
    requires Shape(s) && i == s.active - 1
    ensures var t := Refused(s, i);
      multiset(s.pipes[i..s.active]) == multiset{s.pipes[i]} + multiset(t.pipes[i..t.active])
  {
    assert s.pipes[i..s.active] == [s.pipes[i]];
    assert Refused(s, i).pipes[i..i] == [];
  }

  lemma {:induction false} LoopShape<P>(s: Fan<P>, i: nat, full: set<P>, m: Message)
    requires Shape(s) && i <= s.active
    ensures var t := Loop(s, i, full, m);
      && Shape(t) && t.next == s.next && t.more == s.more && t.eligible - t.active == s.eligible - s.active
      && i <= t.active <= s.active && |t.pipes| == |s.pipes|
      && (forall p :: p in t.pipes <==> p in s.pipes)
    decreases s.active - i
  {
    if i < s.active && s.pipes[i] in full {
      RefusedShape(s, i);
      LoopShape(Refused(s, i), i, full, m);
    } else if i < s.active {
      LoopShape(Accepted(s, i, m), i + 1, full, m);
    }
  }

  lemma LoopMembers<P>(s: Fan<P>, i: nat, full: set<P>, m: Message, p: P)
    requires Shape(s) && i <= s.active
    ensures p in Loop(s, i, full, m).pipes <==> p in s.pipes
  {
    LoopShape(s, i, full, m);
  }

  /** A pipe that refuses becomes passive; every other pipe stays in its zone, in spite of the swaps. */
  lemma {:induction false} LoopZones<P>(s: Fan<P>, i: nat, full: set<P>, m: Message, p: P)
    requires Shape(s) && i <= s.active
    ensures Shape(Loop(s, i, full, m))
    ensures Active(Loop(s, i, full, m), p) <==> Active(s, p) && (p in s.pipes[..i] || p !in full)
    ensures Waiting(Loop(s, i, full, m), p) <==> Waiting(s, p)
    decreases s.active - i
  {
    if i == s.active {
      assert Loop(s, i, full, m) == s;
    } else if s.pipes[i] in full {
      RefusedShape(s, i);
      LoopZones(Refused(s, i), i, full, m, p);
      RefusedActive(s, i, p);
      RefusedWaiting(s, i, p);
      RefusedPassed(s, i);
    } else {
      LoopZones(Accepted(s, i, m), i + 1, full, m, p);
      assert p in s.pipes[..i + 1] <==> p in s.pipes[..i] || p == s.pipes[i];
    }
  }

  /** The pipes already written to stay in their places. */
  lemma RefusedPassed<P>(s: Fan<P>, i: nat)
    requires Shape(s) && i < s.active
    ensures Refused(s, i).pipes[..i] == s.pipes[..i] && s.pipes[i] !in s.pipes[..i]
  {
  }

  lemma FirstOfRange<P>(s: seq<P>, i: nat, n: nat)
    requires i < n <= |s|
    ensures multiset(s[i..n]) == multiset{s[i]} + multiset(s[i + 1..n])
  {
    assert s[i..n] == [s[i]] + s[i + 1..n];
  }

  lemma TriedFirst<P>(tries: seq<P>, p: P, later: seq<P>, rest: multiset<P>)
    requires tries + [p] <= later && multiset(later[|tries| + 1..]) == rest
    ensures tries <= later && multiset(later[|tries|..]) == multiset{p} + rest
  {
    assert later[|tries|..] == [p] + later[|tries| + 1..];
  }

  /** The writes of `t` are those of `s` and one to each active pipe from position `i` on. */
  ghost predicate TriedOnce<P>(s: Fan<P>, i: nat, t: Fan<P>)
    requires i <= s.active <= |s.pipes|
  {
    s.tries <= t.tries && multiset(t.tries[|s.tries|..]) == multiset(s.pipes[i..s.active])
  }

  lemma TriedAfterRefusal<P>(s: Fan<P>, i: nat, t: Fan<P>)
    requires Shape(s) && i < s.active && TriedOnce(Refused(s, i), i, t)
    ensures TriedOnce(s, i, t)
  {
    var u := Refused(s, i);
    RefusedTries(s, i);
    TriedFirst(s.tries, s.pipes[i], t.tries, multiset(u.pipes[i..u.active]));
  }

  lemma TriedAfterAcceptance<P>(s: Fan<P>, i: nat, m: Message, t: Fan<P>)
    requires Shape(s) && i < s.active && TriedOnce(Accepted(s, i, m), i + 1, t)
    ensures TriedOnce(s, i, t)
  {
    FirstOfRange(s.pipes, i, s.active);
    TriedFirst(s.tries, s.pipes[i], t.tries, multiset(s.pipes[i + 1..s.active]));
  }

  /** The loop writes to each pipe that was active once and only once. */
  lemma {:induction false} LoopTriesEachOnce<P>(s: Fan<P>, i: nat, full: set<P>, m: Message)
    requires Shape(s) && i <= s.active
    ensures TriedOnce(s, i, Loop(s, i, full, m))
    decreases s.active - i
  {
    if i < s.active && s.pipes[i] in full {
      RefusedShape(s, i);
      LoopTriesEachOnce(Refused(s, i), i, full, m);
      TriedAfterRefusal(s, i, Loop(s, i, full, m));
    } else if i < s.active {
      LoopTriesEachOnce(Accepted(s, i, m), i + 1, full, m);
      TriedAfterAcceptance(s, i, m, Loop(s, i, full, m));
    }
  }

  /** The pipe is still to be written to and accepts. */
  ghost predicate Reached<P>(s: Fan<P>, i: nat, full: set<P>, p: P)
    requires i <= s.active <= |s.pipes|
  {
    p in s.pipes[i..s.active] && p !in full
  }

  lemma ReachedAfterRefusal<P>(s: Fan<P>, i: nat, full: set<P>, p: P)
    requires Shape(s) && i < s.active && s.pipes[i] in full
    ensures Reached(s, i, full, p) <==> Reached(Refused(s, i), i, full, p)
  {
    RefusedRest(s, i, p);
  }

  lemma ReachedAfterAcceptance<P>(s: Fan<P>, i: nat, full: set<P>, m: Message, p: P)
    requires Shape(s) && i < s.active && s.pipes[i] !in full
    ensures var t := Accepted(s, i, m);
      && (Reached(s, i, full, p) <==> p == s.pipes[i] || Reached(t, i + 1, full, p))
      && !Reached(t, i + 1, full, s.pipes[i])
  {
    AcceptedRest(s.pipes, i, s.active, p);
  }

  /** The pipes written to that accept are given the part; nothing else is given to anyone. */
  lemma {:induction false} LoopLogs<P>(s: Fan<P>, i: nat, full: set<P>, m: Message, p: P)
    requires Shape(s) && i <= s.active && p in s.pipes
    ensures var t := Loop(s, i, full, m);
      p in t.logs && t.logs[p] == if Reached(s, i, full, p) then s.logs[p] + [s.next] else s.logs[p]
    decreases s.active - i
  {
    if i == s.active {
      assert Loop(s, i, full, m) == s && !Reached(s, i, full, p);
    } else if s.pipes[i] in full {
      RefusedShape(s, i);
      LoopLogs(Refused(s, i), i, full, m, p);
      ReachedAfterRefusal(s, i, full, p);
    } else {
      LoopLogs(Accepted(s, i, m), i + 1, full, m, p);
      ReachedAfterAcceptance(s, i, full, m, p);
    }
  }

  lemma {:induction false} LoopParts<P>(s: Fan<P>, i: nat, full: set<P>, m: Message, p: P)
    requires Shape(s) && i <= s.active && p in s.pipes
    ensures var t := Loop(s, i, full, m);
      p in t.parts && t.parts[p] == if Reached(s, i, full, p) then s.parts[p] + [m] else s.parts[p]
    decreases s.active - i
  {
    if i == s.active {
      assert Loop(s, i, full, m) == s && !Reached(s, i, full, p);
    } else if s.pipes[i] in full {
      RefusedShape(s, i);
      LoopParts(Refused(s, i), i, full, m, p);
      ReachedAfterRefusal(s, i, full, p);
    } else {
      LoopParts(Accepted(s, i, m), i + 1, full, m, p);
      ReachedAfterAcceptance(s, i, full, m, p);
    }
  }

  lemma AcceptedRest<P>(pipes: seq<P>, i: nat, n: nat, p: P)
    requires i < n <= |pipes|
    ensures p in pipes[i..n] <==> p == pipes[i] || p in pipes[i + 1..n]
    ensures Distinct(pipes) ==> pipes[i] !in pipes[i + 1..n]
  {
  }

  lemma RefusedRest<P>(s: Fan<P>, i: nat, p: P)
    requires Shape(s) && i < s.active
    ensures var t := Refused(s, i); p in s.pipes[i..s.active] <==> p == s.pipes[i] || p in t.pipes[i..t.active]
  {
    RefusedTries(s, i);
    var t := Refused(s, i);
    assert p in s.pipes[i..s.active] <==> p in multiset(s.pipes[i..s.active]);
    assert p in t.pipes[i..t.active] <==> p in multiset(t.pipes[i..t.active]);
  }

  // ---- Whole runs

  function Attached<P(==)>(s: Fan<P>, p: P, parts: seq<Message>): Fan<P>
    requires s.active <= s.eligible <= |s.pipes|
  {
    var n := |s.pipes|;
    if s.more then
      s.(pipes := Swapped(s.pipes + [p], s.eligible, n), eligible := s.eligible + 1, logs := s.logs[p := []], parts := s.parts[p := parts])
    else
      s.(pipes := Swapped(s.pipes + [p], s.active, n), active := s.active + 1, eligible := s.eligible + 1, logs := s.logs[p := []], parts := s.parts[p := parts])
  }

  /** A passive pipe can be written to again: eligible at once, active when no message is being sent. */
  function AfterActivated<P>(s: Fan<P>, i: nat): Fan<P>
    requires s.active <= s.eligible <= i < |s.pipes|
  {
    var moved := Swapped(s.pipes, i, s.eligible);
    if s.more then s.(pipes := moved, eligible := s.eligible + 1)
    else s.(pipes := Swapped(moved, s.eligible, s.active), active := s.active + 1, eligible := s.eligible + 1)
  }

  /** A pipe is gone: the last pipe takes its place, whatever its zone. */
  function Removed<P(==)>(s: Fan<P>, i: nat): Fan<P>
    requires s.active <= s.eligible <= |s.pipes| && i < |s.pipes|
  {
    s.(active := if i < s.active then s.active - 1 else s.active,
       eligible := if i < s.eligible then s.eligible - 1 else s.eligible,
       pipes := Erased(s.pipes, i), logs := s.logs - {s.pipes[i]}, parts := s.parts - {s.pipes[i]})
  }

  datatype Step<P> = Attach(p: P, parts: seq<Message>) | Activate(i: nat) | Terminated(i: nat) | Send(m: Message, full: set<P>)

  /** Where the pipe at `i` must be for the others to stay in their zones when the last pipe takes its place. */
  predicate MayGo<P>(s: Fan<P>, i: nat) {
    var n := |s.pipes|;
    || s.eligible <= i
    || (s.active <= i && (s.eligible == n || i == s.eligible - 1))
    || s.active == n
    || (i == s.active - 1 && (s.active == s.eligible || s.eligible == n))
  }

  ghost predicate Enabled<P>(s: Fan<P>, step: Step<P>) {
    match step
    case Attach(p, _) => p !in s.pipes
    case Activate(i) => s.eligible <= i < |s.pipes|
    case Terminated(i) => i < |s.pipes| && MayGo(s, i)
    case Send(_, _) => true
  }

  ghost function Apply<P>(s: Fan<P>, step: Step<P>): Fan<P>
    requires Shape(s) && Enabled(s, step)
  {
    match step
    case Attach(p, parts) => Attached(s, p, parts)
    case Activate(i) => AfterActivated(s, i)
    case Terminated(i) => Removed(s, i)
    case Send(m, full) => Sent(s, m, full)
  }

  ghost function Run<P>(s: Fan<P>, steps: seq<Step<P>>): Option<Fan<P>> {
    if steps == [] then if Shape(s) then Some(s) else None
    else
      match Run(s, steps[..|steps| - 1])
      case None => None
      case Some(t) =>
        if Shape(t) && Enabled(t, steps[|steps| - 1]) then Some(Apply(t, steps[|steps| - 1])) else None
  }

  lemma LogGrows(log: seq<Label>, next: Label)
    requires LogOk(log, next) && UpToDate(log, next)
    ensures var more := log + [next];
      LogOk(more, Label(next.message, next.part + 1)) && LogOk(more, Label(next.message + 1, 0))
      && UpToDate(more, Label(next.message, next.part + 1))
  {
    var more := log + [next];
    forall i | 0 <= i < |more| && more[i].part > 0
      ensures i > 0 && more[i - 1] == Label(more[i].message, more[i].part - 1)
    {
      if i < |log| { assert more[i] == log[i]; }
    }
  }

  /** The log of one pipe through a send. */
  lemma SentLog<P>(s: Fan<P>, m: Message, full: set<P>, p: P)
    requires Inv(s) && p in s.pipes
    ensures var t := Sent(s, m, full);
      && p in t.logs && LogOk(t.logs[p], t.next)
      && (HasMore(m.flags) && Active(s, p) && p !in full ==> UpToDate(t.logs[p], t.next))
  {
    LoopLogs(s, 0, full, m, p);
    LoopShape(s, 0, full, m);
    assert s.pipes[0..s.active] == s.pipes[..s.active];
    if Active(s, p) { ActiveLogGrows(s, p); }
  }

  lemma ActiveLogGrows<P>(s: Fan<P>, p: P)
    requires Inv(s) && Active(s, p)
    ensures p in s.logs
    ensures var more := s.logs[p] + [s.next];
      LogOk(more, Label(s.next.message, s.next.part + 1)) && LogOk(more, Label(s.next.message + 1, 0))
      && UpToDate(more, Label(s.next.message, s.next.part + 1))
  {
    var i :| 0 <= i < s.active && s.pipes[i] == p;
    LogGrows(s.logs[p], s.next);
  }

  lemma SendKeepsInv<P>(s: Fan<P>, m: Message, full: set<P>)
    requires Inv(s)
    ensures Inv(Sent(s, m, full))
  {
    var l, t := Loop(s, 0, full, m), Sent(s, m, full);
    LoopShape(s, 0, full, m);
    forall p | p in t.pipes ensures p in t.logs && LogOk(t.logs[p], t.next) {
      LoopMembers(s, 0, full, m, p);
      SentLog(s, m, full, p);
    }
    if HasMore(m.flags) {
      forall i | 0 <= i < t.active ensures UpToDate(t.logs[t.pipes[i]], t.next) {
        var p := t.pipes[i];
        assert p in l.pipes[..l.active];
        LoopZones(s, 0, full, m, p);
        SentLog(s, m, full, p);
      }
    }
  }

  lemma StepKeepsInv<P>(s: Fan<P>, step: Step<P>)
    requires Inv(s) && Enabled(s, step)
    ensures Inv(Apply(s, step))
  {
    match step
    case Attach(p, parts) => AttachKeepsInv(s, p, parts);
    case Activate(i) => ActivateKeepsInv(s, i);
    case Terminated(i) => RemoveKeepsInv(s, i);
    case Send(m, full) => SendKeepsInv(s, m, full);
  }

  ghost predicate ZonesKept<P>(s: Fan<P>, t: Fan<P>, gone: P)
    requires s.active <= s.eligible <= |s.pipes| && t.active <= t.eligible <= |t.pipes|
  {
    forall p :: p in s.pipes ==> (Active(t, p) <==> Active(s, p) && p != gone) && (Waiting(t, p) <==> Waiting(s, p) && p != gone)
  }

  lemma MayGoKeepsActive<P>(s: Fan<P>, i: nat, p: P)
    requires Shape(s) && i < |s.pipes| && MayGo(s, i)
    ensures Active(Removed(s, i), p) <==> Active(s, p) && p != s.pipes[i]
  {
    var t, n := Removed(s, i), |s.pipes| - 1;
    if Active(s, p) && p != s.pipes[i] {
      var k :| 0 <= k < s.active && s.pipes[k] == p;
      assert t.pipes[if k == n then i else k] == p;
    }
  }

  lemma WaitingStays<P>(s: Fan<P>, i: nat, p: P)
    requires Shape(s) && i < |s.pipes| && MayGo(s, i) && Waiting(s, p) && p != s.pipes[i]
    ensures Waiting(Removed(s, i), p)
  {
    var t, n := Removed(s, i), |s.pipes| - 1;
    var k :| s.active <= k < s.eligible && s.pipes[k] == p;
    assert t.pipes[if k == n then i else k] == p;
  }

  lemma WaitingWas<P>(s: Fan<P>, i: nat, p: P)
    requires Shape(s) && i < |s.pipes| && MayGo(s, i) && Waiting(Removed(s, i), p)
    ensures Waiting(s, p) && p != s.pipes[i]
  {
    var t, n := Removed(s, i), |s.pipes| - 1;
    var k :| t.active <= k < t.eligible && t.pipes[k] == p;
    WaitingAt(s, if k == i then n else k);
  }

  lemma WaitingAt<P>(s: Fan<P>, k: nat)
    requires s.active <= k < s.eligible <= |s.pipes|
    ensures Waiting(s, s.pipes[k])
  {
    assert s.pipes[s.active..s.eligible][k - s.active] == s.pipes[k];
  }

  /** The other pipes stay in their zones exactly when the pipe that goes is in the right place. */
  lemma TerminatedKeepsZones<P>(s: Fan<P>, i: nat)
    requires Shape(s) && i < |s.pipes|
    ensures ZonesKept(s, Removed(s, i), s.pipes[i]) <==> MayGo(s, i)
  {
    var t, gone := Removed(s, i), s.pipes[i];
    if MayGo(s, i) {
      forall p | p in s.pipes ensures (Active(t, p) <==> Active(s, p) && p != gone) && (Waiting(t, p) <==> Waiting(s, p) && p != gone) {
        MayGoKeepsActive(s, i, p);
        if Waiting(s, p) && p != gone { WaitingStays(s, i, p); }
        if Waiting(t, p) { WaitingWas(s, i, p); }
      }
    } else if i < s.active - 1 {
      LastActiveLeft(s, i);
    } else {
      LastWaitingLeft(s, i);
    }
  }

  lemma LastActiveLeft<P>(s: Fan<P>, i: nat)
    requires Shape(s) && i < s.active - 1 && s.active < |s.pipes|
    ensures var p := s.pipes[s.active - 1]; Active(s, p) && p != s.pipes[i] && !Active(Removed(s, i), p)
  {
  }

  lemma LastWaitingLeft<P>(s: Fan<P>, i: nat)
    requires Shape(s) && s.active - 1 <= i < s.eligible - 1 && s.active < s.eligible < |s.pipes|
    ensures var p := s.pipes[s.eligible - 1]; Waiting(s, p) && p != s.pipes[i] && !Waiting(Removed(s, i), p)
  {
  }

  lemma RemoveKeepsInv<P>(s: Fan<P>, i: nat)
    requires Inv(s) && i < |s.pipes| && MayGo(s, i)
    ensures Inv(Removed(s, i))
  {
    var t := Removed(s, i);
    ErasedMembers(s.pipes, i);
    forall k | 0 <= k < t.active ensures UpToDate(t.logs[t.pipes[k]], t.next) {
      assert t.pipes[k] in t.pipes[..t.active];
      MayGoKeepsActive(s, i, t.pipes[k]);
    }
  }

  const THREE: set<int> := {0, 1, 2}

  /** Three pipes inside a message, the third attached after its first part was sent. */
  function LateComer(m: Message): Fan<int> {
    Fan([0, 1, 2], 2, 3, true, Label(0, 1),
        map p | p in THREE :: if p == 2 then [] else [Label(0, 0)],
        map p | p in THREE :: if p == 2 then [] else [m], [0, 1])
  }

  lemma LateComerIsFine(m: Message)
    ensures Inv(LateComer(m)) && !MayGo(LateComer(m), 0)
  {
    var s := LateComer(m);
    forall p | p in s.pipes ensures p in s.logs && p in s.parts && LogOk(s.logs[p], s.next) {
      LateComerPipe(m, p);
    }
    assert s.pipes[0] == 0 && s.pipes[1] == 1;
    LateComerPipe(m, 0);
    LateComerPipe(m, 1);
  }

  lemma LateComerPipe(m: Message, p: int)
    requires p in LateComer(m).pipes
    ensures var s := LateComer(m);
      p in s.logs && p in s.parts && LogOk(s.logs[p], s.next) && (p < 2 ==> UpToDate(s.logs[p], s.next))
  {
    assert p in THREE;
  }

  const NOBODY: Fan<int> := Fan([], 0, 0, false, Label(0, 0), map[], map[], [])

  const BOTH: Fan<int> := Fan([0, 1], 2, 2, false, Label(0, 0), map[0 := [], 1 := []], map[0 := [], 1 := []], [])

  lemma RunMore(steps: seq<Step<int>>, step: Step<int>)
    requires Run(NOBODY, steps).Some? && Shape(Run(NOBODY, steps).value) && Enabled(Run(NOBODY, steps).value, step)
    ensures Run(NOBODY, steps + [step]) == Some(Apply(Run(NOBODY, steps).value, step))
  {
    assert (steps + [step])[..|steps|] == steps;
  }

  lemma BothAttached()
    ensures Run(NOBODY, [Step.Attach(0, []), Step.Attach(1, [])]) == Some(BOTH)
  {
    var a, b := Step.Attach(0, []), Step.Attach(1, []);
    RunMore([], a);
    assert [] + [a] == [a];
    OneThenBoth();
    RunMore([a], b);
    assert [a] + [b] == [a, b];
  }

  const ONE: Fan<int> := Fan([0], 1, 1, false, Label(0, 0), map[0 := []], map[0 := []], [])

  lemma OneThenBoth()
    ensures Attached(NOBODY, 0, []) == ONE && Attached(ONE, 1, []) == BOTH
  {
    assert Attached(NOBODY, 0, []).pipes == [0];
    assert Attached(ONE, 1, []).pipes == [0, 1];
  }

  lemma Pair<T>(x: T, y: T, z: T)
    ensures map[0 := x, 1 := y][0 := z] == map[0 := z, 1 := y]
    ensures map[0 := x, 1 := y][1 := z] == map[0 := x, 1 := z]
  {
    assert map[0 := x, 1 := y][0 := z].Keys == map[0 := z, 1 := y].Keys;
    assert map[0 := x, 1 := y][1 := z].Keys == map[0 := x, 1 := z].Keys;
  }

  function FirstPartSent(m: Message): Fan<int> {
    Fan([0, 1], 2, 2, true, Label(0, 1), map[0 := [Label(0, 0)], 1 := [Label(0, 0)]], map[0 := [m], 1 := [m]], [0, 1])
  }

  lemma SentToBoth(m: Message)
    requires HasMore(m.flags)
    ensures Shape(BOTH)
    ensures Sent(BOTH, m, {}) == FirstPartSent(m)
  {
    var one := Accepted(BOTH, 0, m);
    Pair<seq<Label>>([], [], [Label(0, 0)]);
    Pair<seq<Message>>([], [], [m]);
    assert BOTH.logs[0] + [BOTH.next] == [Label(0, 0)] && BOTH.parts[0] + [m] == [m];
    assert one.logs == map[0 := [Label(0, 0)], 1 := []] && one.parts == map[0 := [m], 1 := []];
    var two := Accepted(one, 1, m);
    Pair<seq<Label>>([Label(0, 0)], [], [Label(0, 0)]);
    Pair<seq<Message>>([m], [], [m]);
    assert one.logs[1] + [one.next] == [Label(0, 0)] && one.parts[1] + [m] == [m];
    assert Loop(two, 2, {}, m) == two;
    assert Loop(one, 1, {}, m) == two;
    assert Loop(BOTH, 0, {}, m) == two;
  }

  /** Two pipes are attached, the first part of a message is sent to them, and then a third pipe is attached. */
  lemma LateComerIsReached(m: Message)
    requires HasMore(m.flags)
    ensures Run(NOBODY, [Step.Attach(0, []), Step.Attach(1, []), Step.Send(m, {}), Step.Attach(2, [])]) == Some(LateComer(m))
  {
    var two := [Step.Attach(0, []), Step.Attach(1, [])];
    BothAttached();
    SentToBoth(m);
    RunMore(two, Step.Send(m, {}));
    RunMore(two + [Step.Send(m, {})], Step.Attach(2, []));
    assert two + [Step.Send(m, {})] + [Step.Attach(2, [])] == [Step.Attach(0, []), Step.Attach(1, []), Step.Send(m, {}), Step.Attach(2, [])];
    ThirdAttached(m);
  }

  lemma ThirdAttached(m: Message)
    ensures Attached(FirstPartSent(m), 2, []) == LateComer(m)
  {
    var t := Attached(FirstPartSent(m), 2, []);
    assert t.pipes == [0, 1, 2];
    assert t.logs == LateComer(m).logs;
    assert t.parts == LateComer(m).parts;
  }

  /** Elsewhere a pipe going away breaks messages: when the first one goes, the third is given the last part without the first. */
  lemma TerminatedBreaksMessage(first: Message, last: Message)
    requires HasMore(first.flags) && !HasMore(last.flags)
    ensures Run(NOBODY, [Step.Attach(0, []), Step.Attach(1, []), Step.Send(first, {}), Step.Attach(2, [])]) == Some(LateComer(first))
    ensures Inv(LateComer(first)) && !MayGo(LateComer(first), 0)
    ensures var t := Removed(LateComer(first), 0);
      Shape(t) && 2 in Sent(t, last, {}).logs && !NoGaps(Sent(t, last, {}).logs[2])
  {
    var s := LateComer(first);
    LateComerIsReached(first);
    LateComerIsFine(first);
    ErasedMembers(s.pipes, 0);
    GivenTail(Removed(s, 0), last, 2);
  }

  /** The first active pipe, given a later part before any other. */
  lemma GivenTail(s: Fan<int>, m: Message, p: int)
    requires Shape(s) && s.active > 0 && s.pipes[0] == p && s.logs[p] == [] && s.next.part > 0
    ensures p in Sent(s, m, {}).logs && !NoGaps(Sent(s, m, {}).logs[p])
  {
    LoopLogs(s, 0, {}, m, p);
    assert s.pipes[0..s.active][0] == p;
    assert Sent(s, m, {}).logs[p] == [s.next];
  }

  lemma AttachKeepsInv<P>(s: Fan<P>, p: P, parts: seq<Message>)
    requires Inv(s) && p !in s.pipes
    ensures Inv(Attached(s, p, parts))
  {
    SwappedMembers(s.pipes + [p], if s.more then s.eligible else s.active, |s.pipes|);
  }

  lemma ActivateKeepsInv<P>(s: Fan<P>, i: nat)
    requires Inv(s) && s.eligible <= i < |s.pipes|
    ensures Inv(AfterActivated(s, i))
  {
    SwappedMembers(s.pipes, i, s.eligible);
    assert !s.more ==> AfterActivated(s, i).pipes == Swapped(s.pipes, i, s.eligible);
  }

  /** In every run no pipe gets a part without all earlier parts of that message, and without a message in progress all eligible pipes are active. */
  lemma {:induction false} EveryRunKeepsInv<P>(s: Fan<P>, steps: seq<Step<P>>)
    requires Inv(s) && Run(s, steps).Some?
    ensures Inv(Run(s, steps).value)
  {
    if steps != [] {
      EveryRunKeepsInv(s, steps[..|steps| - 1]);
      StepKeepsInv(Run(s, steps[..|steps| - 1]).value, steps[|steps| - 1]);
    }
  }

  // ---- Who is sent what

  /** A new pipe is active, or inside a message waits for the next one; nobody else's zone changes. */
  lemma AttachedZones<P>(s: Fan<P>, p: P, parts: seq<Message>, q: P)
    requires Inv(s) && p !in s.pipes
    ensures var t := Attached(s, p, parts);
      && Shape(t)
      && (Active(t, q) <==> Active(s, q) || (q == p && !s.more))
      && (Waiting(t, q) <==> Waiting(s, q) || (q == p && s.more))
  {
    AttachKeepsInv(s, p, parts);
    var t := Attached(s, p, parts);
    if s.more {
      assert t.pipes[..s.active] == s.pipes[..s.active];
      assert t.pipes[s.active..t.eligible] == s.pipes[s.active..s.eligible] + [p];
    } else {
      assert t.pipes[..t.active] == s.pipes[..s.active] + [p];
    }
  }

  /** So it is with a passive pipe that can be written to again. */
  lemma ActivatedZones<P>(s: Fan<P>, i: nat, q: P)
    requires Inv(s) && s.eligible <= i < |s.pipes|
    ensures var t := AfterActivated(s, i);
      && Shape(t)
      && (Active(t, q) <==> Active(s, q) || (q == s.pipes[i] && !s.more))
      && (Waiting(t, q) <==> Waiting(s, q) || (q == s.pipes[i] && s.more))
  {
    ActivateKeepsInv(s, i);
    var t := AfterActivated(s, i);
    if s.more {
      assert t.pipes[..s.active] == s.pipes[..s.active];
      assert t.pipes[s.active..t.eligible] == s.pipes[s.active..s.eligible] + [s.pipes[i]];
    } else {
      assert t.pipes[..t.active] == s.pipes[..s.active] + [s.pipes[i]];
    }
  }

  /** A part goes to the active pipes that accept it; one that refuses is passive; after the last part the waiting ones are active. */
  lemma SentZones<P>(s: Fan<P>, m: Message, full: set<P>, q: P)
    requires Inv(s)
    ensures var t := Sent(s, m, full);
      && Shape(t)
      && (Active(t, q) <==> (Active(s, q) && q !in full) || (Waiting(s, q) && !HasMore(m.flags)))
      && (Waiting(t, q) <==> Waiting(s, q) && HasMore(m.flags))
  {
    SendKeepsInv(s, m, full);
    var l, t := Loop(s, 0, full, m), Sent(s, m, full);
    LoopZones(s, 0, full, m, q);
    assert l.pipes[..l.eligible] == l.pipes[..l.active] + l.pipes[l.active..l.eligible];
  }

  lemma SentParts<P>(s: Fan<P>, m: Message, full: set<P>, q: P)
    requires Inv(s) && q in s.pipes
    ensures var t := Sent(s, m, full);
      q in t.parts && t.parts[q] == s.parts[q] + if Active(s, q) && q !in full then [m] else []
  {
    LoopParts(s, 0, full, m, q);
    assert s.pipes[0..s.active] == s.pipes[..s.active];
    assert s.parts[q] + [] == s.parts[q];
  }

  /** The pipe is not gone, and accepts what is written to it. */
  ghost predicate Willing<P>(s: Fan<P>, steps: seq<Step<P>>, p: P) {
    && Run(s, steps).Some? && p in Run(s, steps).value.pipes
    && (steps != [] ==>
          var n := |steps| - 1; Willing(s, steps[..n], p) && (steps[n].Send? ==> p !in steps[n].full))
  }

  /** Whether a pipe that waits for the next message at first still does. */
  predicate StillWaits<P>(waiting: bool, steps: seq<Step<P>>) {
    if steps == [] then waiting
    else
      var last := steps[|steps| - 1];
      StillWaits(waiting, steps[..|steps| - 1]) && !(last.Send? && !HasMore(last.m.flags))
  }

  /** What was sent since, but for the rest of a message in progress that the pipe came too late for. */
  function Due<P>(waiting: bool, steps: seq<Step<P>>): seq<Message> {
    if steps == [] then []
    else
      var before, last := steps[..|steps| - 1], steps[|steps| - 1];
      Due(waiting, before) + if last.Send? && !StillWaits(waiting, before) then [last.m] else []
  }

  lemma StepServes<P>(s: Fan<P>, step: Step<P>, p: P)
    requires Inv(s) && Enabled(s, step) && (Active(s, p) || Waiting(s, p))
    requires p in Apply(s, step).pipes && (step.Send? ==> p !in step.full)
    ensures var t := Apply(s, step);
      && Shape(t) && (Active(t, p) <==> Active(s, p) || (step.Send? && !HasMore(step.m.flags)))
      && (Active(t, p) || Waiting(t, p))
      && t.parts[p] == s.parts[p] + if step.Send? && Active(s, p) then [step.m] else []
  {
    StepKeepsInv(s, step);
    NotBoth(s, p);
    assert s.parts[p] + [] == s.parts[p];
    match step
    case Attach(q, parts) => AttachedZones(s, q, parts, p);
    case Activate(i) => ActivatedZones(s, i, p);
    case Terminated(i) =>
      ErasedMembers(s.pipes, i);
      TerminatedKeepsZones(s, i);
    case Send(m, full) =>
      SentZones(s, m, full, p);
      SentParts(s, m, full, p);
  }

  lemma NotBoth<P>(s: Fan<P>, p: P)
    requires Shape(s) && (Active(s, p) || Waiting(s, p))
    ensures p in s.pipes && !(Active(s, p) && Waiting(s, p))
    ensures forall i :: s.eligible <= i < |s.pipes| ==> s.pipes[i] != p
  {
  }

  /**
   * A pipe that accepts what is written to it gets every part sent since it became active, in order and
   * once each; if it came in the middle of a message, every part from the next message on. Other pipes may
   * come, refuse, and go meanwhile.
   */
  lemma {:induction false} WillingGetsAll<P>(s: Fan<P>, steps: seq<Step<P>>, p: P)
    requires Inv(s) && (Active(s, p) || Waiting(s, p)) && Willing(s, steps, p)
    ensures var t := Run(s, steps).value;
      && Shape(t) && p in s.pipes && (Active(t, p) || Waiting(t, p))
      && (Active(t, p) <==> !StillWaits(Waiting(s, p), steps))
      && t.parts[p] == s.parts[p] + Due(Waiting(s, p), steps)
  {
    NotBoth(s, p);
    if steps == [] {
      assert s.parts[p] + [] == s.parts[p];
    } else {
      var n := |steps| - 1;
      var u := Run(s, steps[..n]).value;
      WillingGetsAll(s, steps[..n], p);
      EveryRunKeepsInv(s, steps[..n]);
      StepServes(u, steps[n], p);
      Associative(s.parts[p], Due(Waiting(s, p), steps[..n]), if steps[n].Send? && Active(u, p) then [steps[n].m] else []);
    }
  }

  // ---- The fan-out object

  class Dist {
    const pipes: PipeArray
    var active: nat
    var eligible: nat
    var more: bool
    ghost var next: Label
    ghost var logs: map<Pipe, seq<Label>>
    ghost var tries: seq<Pipe>

    ghost function View(): Fan<Pipe>
      reads this, pipes, pipes.items
    {
      Fan(pipes.items, active, eligible, more, next, logs, pipes.Parts(), tries)
    }

    ghost predicate Valid()
      reads this, pipes, pipes.items
    {
      pipes.Valid() && Inv(View())
    }

    constructor ()
      ensures Valid() && View() == Fan([], 0, 0, false, Label(0, 0), map[], map[], []) && fresh(pipes)
    {
      pipes := new PipeArray();
      active, eligible, more, next, logs, tries := 0, 0, false, Label(0, 0), map[], [];
    }

    /** Inside a message a new pipe waits for the next one. */
    method Attach(p: Pipe)
      requires Valid() && p !in pipes.items
      modifies this, pipes, pipes.items, p
      ensures Valid() && View() == Attached(old(View()), p, old(p.parts))
    {
      StepKeepsInv(View(), Step.Attach(p, p.parts));
      PushPipe(p);
    }

    method PushPipe(p: Pipe)
      requires pipes.Valid() && p !in pipes.items && active <= eligible <= |pipes.items|
      modifies `active, `eligible, `logs, pipes, pipes.items, p
      ensures pipes.Valid() && View() == Attached(old(View()), p, old(p.parts))
    {
      logs := logs[p := []];
      if more {
        pipes.Insert(p, eligible);
        eligible := eligible + 1;
      } else {
        pipes.Insert(p, active);
        active := active + 1;
        eligible := eligible + 1;
      }
    }

    /** The event for a pipe that is gone; the zones and the messages stay right when it was in the right place. */
    method Terminated(p: Pipe)
      requires Valid() && p in pipes.items
      modifies this, pipes, pipes.items
      ensures pipes.Valid() && Shape(View()) && View() == Removed(old(View()), old(p.arrayIndex))
      ensures old(MayGo(View(), p.arrayIndex)) ==> Valid()
    {
      ErasedMembers(View().pipes, p.arrayIndex);
      if MayGo(View(), p.arrayIndex) { RemoveKeepsInv(View(), p.arrayIndex); }
      Remove(p);
    }

    method Remove(p: Pipe)
      requires pipes.Valid() && p in pipes.items && active <= eligible <= |pipes.items|
      modifies `active, `eligible, `logs, pipes, pipes.items
      ensures pipes.Valid() && View() == Removed(old(View()), old(p.arrayIndex))
    {
      var i := pipes.Index(p);
      Shrink(i);
      logs := logs - {p};
      pipes.Erase(p);
    }

    method Shrink(i: nat)
      requires active <= eligible
      modifies `active, `eligible
      ensures active == if i < old(active) then old(active) - 1 else old(active)
      ensures eligible == if i < old(eligible) then old(eligible) - 1 else old(eligible)
    {
      if i < active { active := active - 1; }
      if i < eligible { eligible := eligible - 1; }
    }

    method Activated(p: Pipe)
      requires Valid() && p in pipes.items && p.arrayIndex >= eligible
      modifies this, pipes, pipes.items
      ensures Valid() && View() == AfterActivated(old(View()), old(p.arrayIndex))
    {
      var i := pipes.Index(p);
      ActivateKeepsInv(View(), i);
      MoveUp(i);
    }

    method MoveUp(i: nat)
      requires pipes.Valid() && active <= eligible <= i < |pipes.items|
      modifies `active, `eligible, pipes, pipes.items
      ensures pipes.Valid() && View() == AfterActivated(old(View()), i)
    {
      Rearrange(i);
      active := if more then active else active + 1;
      eligible := eligible + 1;
    }

    method Rearrange(i: nat)
      requires pipes.Valid() && active <= eligible <= i < |pipes.items|
      modifies pipes, pipes.items
      ensures pipes.Valid() && pipes.Parts() == old(pipes.Parts())
      ensures var moved := Swapped(old(pipes.items), i, eligible);
        pipes.items == if more then moved else Swapped(moved, eligible, active)
    {
      if more {
        pipes.Swap(i, eligible);
      } else {
        pipes.SwapTwice(i, eligible, active);
      }
    }

    /** Writes to the pipe at `i`; one that refuses is put behind the eligible pipes. */
    method Write(i: nat, m: Message) returns (ok: bool)
      requires pipes.Valid() && Shape(View()) && i < active
      modifies `active, `eligible, `logs, `tries, pipes, pipes.items
      ensures pipes.Valid() && pipes.Full() == old(pipes.Full())
      ensures ok <==> old(pipes.items[i]) !in old(pipes.Full())
      ensures View() == if ok then Accepted(old(View()), i, m) else Refused(old(View()), i)
      ensures forall k :: 0 <= k < |pipes.items| ==> pipes.items[k] in old(pipes.items)
    {
      var p := pipes.items[i];
      ok := !p.full;
      if ok {
        Give(p, m);
      } else {
        PutBehind(i);
      }
      tries := tries + [p];
    }

    method Give(p: Pipe, m: Message)
      requires pipes.Valid() && p in pipes.items && p in logs
      modifies `logs, p`parts
      ensures pipes.Valid() && pipes.Full() == old(pipes.Full())
      ensures logs == old(logs)[p := old(logs)[p] + [next]]
      ensures pipes.Parts() == old(pipes.Parts())[p := old(pipes.Parts())[p] + [m]]
    {
      logs := logs[p := logs[p] + [next]];
      pipes.Put(p, m);
    }

    method PutBehind(i: nat)
      requires pipes.Valid() && i < active <= eligible <= |pipes.items|
      modifies `active, `eligible, pipes, pipes.items
      ensures pipes.Valid() && pipes.Full() == old(pipes.Full())
      ensures View() == Refused(old(View()), i).(tries := tries)
      ensures forall k :: 0 <= k < |pipes.items| ==> pipes.items[k] in old(pipes.items)
    {
      pipes.SwapTwice(i, active - 1, eligible - 1);
      active := active - 1;
      eligible := eligible - 1;
    }

    /**
     * One turn of the loops of `distribute` at position `i`. `from` is the state before the loop, and
     * what remains of the loop leads to the same end.
     */
    method Turn(i: nat, m: Message, ghost from: Fan<Pipe>, ghost full: set<Pipe>) returns (ok: bool)
      requires pipes.Valid() && Shape(View()) && i < active && full == pipes.Full()
      requires Shape(from) && Loop(View(), i, full, m) == Loop(from, 0, full, m)
      modifies `active, `eligible, `logs, `tries, pipes, pipes.items
      ensures pipes.Valid() && Shape(View()) && full == pipes.Full()
      ensures active == (if ok then old(active) else old(active) - 1)
      ensures var j := if ok then i + 1 else i; j <= active && Loop(View(), j, full, m) == Loop(from, 0, full, m)
      ensures forall k :: 0 <= k < |pipes.items| ==> pipes.items[k] in old(pipes.items)
    {
      RefusedShape(View(), i);
      ok := Write(i, m);
    }

    /** Inside a loop of `distribute` that began in `from` with `n` active pipes, with the outcomes `oks` so far. */
    ghost predicate Midway(i: nat, m: Message, from: Fan<Pipe>, full: set<Pipe>, oks: seq<bool>, n: nat)
      requires Shape(from)
      reads this, pipes, pipes.items
    {
      var midway :=
        && pipes.Valid() && Shape(View()) && full == pipes.Full() && i <= active
        && Loop(View(), i, full, m) == Loop(from, 0, full, m)
        && |oks| + (active - i) == n && M.Accepting(oks) == i;
      midway
    }

    /** A turn of the loop, with its outcome put down. */
    method NotedTurn(i: nat, m: Message, ghost from: Fan<Pipe>, ghost full: set<Pipe>, ghost oks: seq<bool>, ghost n: nat)
      returns (ok: bool)
      requires Shape(from) && Midway(i, m, from, full, oks, n) && i < active
      modifies `active, `eligible, `logs, `tries, pipes, pipes.items
      ensures Midway(if ok then i + 1 else i, m, from, full, oks + [ok], n)
      ensures active == (if ok then old(active) else old(active) - 1)
      ensures forall k :: 0 <= k < |pipes.items| ==> pipes.items[k] in old(pipes.items)
    {
      ok := Turn(i, m, from, full);
      M.AcceptingSnoc(oks, ok);
    }

    /** Pushes the part to all active pipes; each of them is written to once. */
    method Distribute(msgs: M.Messages, h: nat, data: seq<Byte>) returns (ghost oks: seq<bool>, m: Message)
      requires pipes.Valid() && Shape(View())
      requires h < |msgs.handles| && M.Linked(msgs.View()) && M.Tagged(msgs.handles[h].flags)
      modifies `active, `eligible, `logs, `tries, pipes, pipes.items, msgs
      ensures pipes.Valid() && m.body == data && HasMore(m.flags) == HasMore(old(msgs.handles[h].flags))
      ensures View() == Loop(old(View()), 0, old(pipes.Full()), m)
      ensures msgs.View() == M.Distributed(old(msgs.View()), h, oks)
      ensures |oks| == old(active) && M.Accepting(oks) == active
    {
      oks, m := Spread(msgs, h, data);
      msgs.Detach(h);
    }

    method Spread(msgs: M.Messages, h: nat, data: seq<Byte>) returns (ghost oks: seq<bool>, m: Message)
      requires pipes.Valid() && Shape(View())
      requires h < |msgs.handles| && M.Linked(msgs.View()) && M.Tagged(msgs.handles[h].flags)
      modifies `active, `eligible, `logs, `tries, pipes, pipes.items, msgs
      ensures pipes.Valid() && m.body == data && HasMore(m.flags) == HasMore(old(msgs.handles[h].flags))
      ensures View() == Loop(old(View()), 0, old(pipes.Full()), m)
      ensures msgs.View() == M.Spread(old(msgs.View()), h, oks)
      ensures |oks| == old(active) && M.Accepting(oks) == active
    {
      m := Message(msgs.handles[h].flags, data);
      if active == 0 {
        oks := [];
        var _ := msgs.Close(h);
      } else if !msgs.handles[h].body.Long? {
        oks := PushSmall(msgs, h, m);
      } else if active == 1 {
        oks := PushOne(msgs, h, m);
      } else {
        oks, m := SpreadLong(msgs, h, data);
      }
    }

    /** Two destinations or more share the content. */
    method SpreadLong(msgs: M.Messages, h: nat, data: seq<Byte>) returns (ghost oks: seq<bool>, m: Message)
      requires pipes.Valid() && Shape(View()) && active >= 2 && M.HasContent(msgs.View(), h)
      modifies `active, `eligible, `logs, `tries, pipes, pipes.items, msgs
      ensures pipes.Valid() && m.body == data && HasMore(m.flags) == HasMore(old(msgs.handles[h].flags))
      ensures View() == Loop(old(View()), 0, old(pipes.Full()), m)
      ensures |oks| == old(active) && M.Accepting(oks) == active
      ensures msgs.View() == M.SpreadLong(old(msgs.View()), h, oks)
    {
      msgs.Share(h, active - 1);
      m := Message(msgs.handles[h].flags, data);
      oks := PushLong(msgs, h, m);
    }

    /** A single destination takes the message as it is. */
    method PushOne(msgs: M.Messages, h: nat, m: Message) returns (ghost oks: seq<bool>)
      requires pipes.Valid() && Shape(View()) && active == 1
      requires h < |msgs.handles| && M.Linked(msgs.View()) && M.Tagged(msgs.handles[h].flags)
      modifies `active, `eligible, `logs, `tries, pipes, pipes.items, msgs
      ensures pipes.Valid() && View() == Loop(old(View()), 0, old(pipes.Full()), m)
      ensures |oks| == 1 && M.Accepting(oks) == active
      ensures msgs.View() == if oks[0] then M.Appended(old(msgs.View()), h) else M.Closed(old(msgs.View()), h)
    {
      var ok := Turn(0, m, View(), pipes.Full());
      oks := [ok];
      msgs.AppendOrClose(h, ok);
    }

    method PushSmall(msgs: M.Messages, h: nat, m: Message) returns (ghost oks: seq<bool>)
      requires pipes.Valid() && Shape(View()) && h < |msgs.handles|
      modifies `active, `eligible, `logs, `tries, pipes, pipes.items, msgs`handles
      ensures pipes.Valid() && View() == Loop(old(View()), 0, old(pipes.Full()), m)
      ensures |oks| == old(active) && M.Accepting(oks) == active
      ensures msgs.View() == M.AppendedTo(old(msgs.View()), h, oks)
    {
      ghost var s, full, n := View(), pipes.Full(), active;
      var i := 0;
      oks := [];
      while i < active
        invariant Midway(i, m, s, full, oks, n)
        invariant msgs.View() == M.AppendedTo(old(msgs.View()), h, oks)
        invariant forall k :: 0 <= k < |pipes.items| ==> pipes.items[k] in old(pipes.items)
        decreases active - i
      {
        var ok := NotedTurn(i, m, s, full, oks, n);
        msgs.AppendNext(h, ok, old(msgs.View()), oks);
        oks := oks + [ok];
        i := if ok then i + 1 else i;
      }
    }

    /** The references for all pipes were added before; a pipe that refuses gives its one back. */
    method PushLong(msgs: M.Messages, h: nat, m: Message) returns (ghost oks: seq<bool>)
      requires pipes.Valid() && Shape(View()) && M.HasContent(msgs.View(), h)
      modifies `active, `eligible, `logs, `tries, pipes, pipes.items, msgs
      ensures pipes.Valid() && View() == Loop(old(View()), 0, old(pipes.Full()), m)
      ensures |oks| == old(active) && M.Accepting(oks) == active
      ensures msgs.View() == M.Pushed(old(msgs.View()), h, oks)
    {
      ghost var s, full, n := View(), pipes.Full(), active;
      var i := 0;
      oks := [];
      while i < active
        invariant Midway(i, m, s, full, oks, n)
        invariant msgs.View() == M.Pushed(old(msgs.View()), h, oks)
        invariant forall k :: 0 <= k < |pipes.items| ==> pipes.items[k] in old(pipes.items)
        decreases active - i
      {
        var ok := NotedTurn(i, m, s, full, oks, n);
        msgs.PushNext(h, ok, old(msgs.View()), oks);
        oks := oks + [ok];
        i := if ok then i + 1 else i;
      }
    }

    /** Sends one part; after the last part of a message every eligible pipe is active. */
    method Send(msgs: M.Messages, h: nat, data: seq<Byte>) returns (ghost oks: seq<bool>, m: Message)
      requires Valid() && h < |msgs.handles| && M.Linked(msgs.View()) && M.Tagged(msgs.handles[h].flags)
      modifies this, pipes, pipes.items, msgs
      ensures Valid() && m.body == data && HasMore(m.flags) == HasMore(old(msgs.handles[h].flags))
      ensures View() == Sent(old(View()), m, old(pipes.Full()))
      ensures msgs.View() == M.Distributed(old(msgs.View()), h, oks) && |oks| == old(active)
    {
      var msgMore := HasMore(msgs.handles[h].flags);
      oks, m := Distribute(msgs, h, data);
      SendKeepsInv(old(View()), m, old(pipes.Full()));
      EndPart(msgMore);
    }

    method EndPart(msgMore: bool)
      requires pipes.Valid()
      modifies `active, `more, `next
      ensures pipes.Valid() && View() == Ended(old(View()), msgMore)
    {
      if !msgMore {
        active := eligible;
      }
      more := msgMore;
      next := if msgMore then Label(next.message, next.part + 1) else Label(next.message + 1, 0);
    }
  }
}
