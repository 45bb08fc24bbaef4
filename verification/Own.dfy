/**
 * The ownership protocol: a forest of objects that exchange commands over FIFO mailboxes. One step is
 * one command handled, one `terminate` call, or one half of a launch: an object is plugged in first and
 * offered to its owner later, so it may run, and ask to be terminated, in between.
 */
module Own {
  import opened Wrappers

  type Id = nat

  /** `TermAck` names its sender for the record only; the handler does not look at it. */
  datatype Cmd = Plug | Bind | Own(child: Id) | TermReq(child: Id) | Term | TermAck(sender: Id)

  /** The commands that carry a sequence number. */
  predicate Numbered(cmd: Cmd) { cmd.Plug? || cmd.Bind? || cmd.Own? }

  /** The fields of `own_t`. */
  datatype Local = Local(
    terminating: bool, sentSeqnum: nat, processedSeqnum: nat,
    owner: Option<Id>, owned: set<Id>, termAcks: int)

  /** How far an object is in its owner's eyes; a record for the proof, which no handler reads. */
  datatype Phase = Launching(launcher: Id) | Offered | Owned | Told | Acking | Done

  /** An object with its mailbox. `promised` counts numbered commands announced by `inc_seqnum` but not sent. */
  datatype Object = Object(
    l: Local, alive: bool, mailbox: seq<Cmd>, promised: nat, launching: Option<Id>, phase: Phase, terms: nat)

  type State = seq<Object>

  // ---- The handlers of one object

  /** The children that a handler asks to terminate. */
  function ToldBy(l: Local, cmd: Cmd): set<Id> {
    match cmd
    case Own(c) => if l.terminating then {c} else {}
    case TermReq(c) => if !l.terminating && c in l.owned then {c} else {}
    case Term => l.owned
    case _ => {}
  }

  function Handle(l: Local, cmd: Cmd): Local {
    match cmd
    case Plug => l.(processedSeqnum := l.processedSeqnum + 1)
    case Bind => l.(processedSeqnum := l.processedSeqnum + 1)
    case Own(c) =>
      var k := l.(processedSeqnum := l.processedSeqnum + 1);
      if l.terminating then k.(termAcks := l.termAcks + 1) else k.(owned := l.owned + {c})
    case TermReq(c) =>
      if l.terminating || c !in l.owned then l
      else l.(owned := l.owned - {c}, termAcks := l.termAcks + 1)
    case Term => l.(termAcks := l.termAcks + |l.owned|, owned := {}, terminating := true)
    case TermAck(_) => l.(termAcks := l.termAcks - 1)
  }

  /** The test of `check_term_acks`. */
  predicate Finished(l: Local) {
    l.terminating && l.processedSeqnum == l.sentSeqnum && l.termAcks == 0
  }

  /** What the handlers assert: no second termination, and no acknowledgement beyond those waited for. */
  predicate Asserted(l: Local, cmd: Cmd) {
    (cmd.Term? ==> !l.terminating) && (cmd.TermAck? ==> l.termAcks > 0)
  }

  // ---- The steps of the system

  function Tell(o: Object): Object {
    o.(mailbox := o.mailbox + [Term], phase := Told, terms := o.terms + 1)
  }

  /** The effect of `cmd` at `x` on its mailbox-popped self and on its children. */
  function After(st: State, x: Id, cmd: Cmd, mailbox: seq<Cmd>): State
    requires x < |st|
  {
    seq(|st|, i requires 0 <= i < |st| =>
      if i == x then st[x].(l := Handle(st[x].l, cmd), mailbox := mailbox)
      else if i in ToldBy(st[x].l, cmd) then Tell(st[i])
      else if cmd == Cmd.Own(i) then st[i].(phase := Phase.Owned)
      else if cmd == TermAck(i) then st[i].(phase := Done)
      else st[i])
  }

  /** `check_term_acks`: a finished object acknowledges to its owner and is gone. */
  function Check(st: State, x: Id): State
    requires x < |st|
    requires st[x].l.owner.Some? ==> st[x].l.owner.value < |st|
  {
    if !Finished(st[x].l) then st
    else
      if st[x].l.owner == None then st[x := st[x].(alive := false)]
      else Post(st[x := st[x].(alive := false, phase := Acking)], st[x].l.owner.value, TermAck(x))
  }

  function Post(st: State, x: Id, cmd: Cmd): State
    requires x < |st|
  {
    st[x := st[x].(mailbox := st[x].mailbox + [cmd])]
  }

  function Fresh(owner: Option<Id>, mailbox: seq<Cmd>, phase: Phase): Object {
    Object(Local(false, |mailbox|, 0, owner, {}, 0), true, mailbox, 0, None, phase, 0)
  }

  datatype Step =
    | NewRoot                          // a socket is created
    | Launch(x: Id, sibling: bool)     // set_owner and send_plug of launch_child or launch_sibling
    | Offer(x: Id)                     // the send_own that ends the launch
    | Promise(x: Id)                   // inc_seqnum by another object, before it sends bind
    | Deliver(x: Id)                   // that bind command
    | Terminate(x: Id)                 // a call of terminate
    | Process(x: Id)                   // the next command in the mailbox

  /** An object that can act: it exists, is not destroyed, and is not inside a launch. */
  ghost predicate Free(st: State, x: Id) { x < |st| && st[x].alive && st[x].launching == None }

  ghost predicate Enabled(st: State, s: Step) {
    match s
    case NewRoot => true
    case Launch(x, sibling) => Free(st, x) && (sibling ==> st[x].l.owner.Some?)
    case Offer(x) => x < |st| && st[x].alive && st[x].launching.Some?
    // Also for an object that is terminating: it then waits for the command.
    case Promise(x) => x < |st| && st[x].alive
    case Deliver(x) => x < |st| && st[x].promised > 0
    case Terminate(x) => Free(st, x)
    case Process(x) => Free(st, x) && st[x].mailbox != []
  }

  /** Identifiers refer to existing objects, and owners are older than what they own. */
  ghost predicate LinkedAt(st: State, i: Id)
    requires i < |st|
  {
    && (st[i].l.owner.Some? ==> st[i].l.owner.value < i)
    && (st[i].launching.Some? ==>
          i < st[i].launching.value < |st| && st[st[i].launching.value].l.owner.Some? &&
          st[st[i].launching.value].l.owner.value < |st|)
  }

  ghost predicate Linked(st: State) {
    forall i {:trigger LinkedAt(st, i)} :: 0 <= i < |st| ==> LinkedAt(st, i)
  }

  ghost function Apply(st: State, s: Step): State
    requires Enabled(st, s) && (s.NewRoot? || LinkedAt(st, s.x))
  {
    match s
    case NewRoot => st + [Fresh(None, [], Done)]
    case Launch(x, sibling) =>
      var owner := if sibling then st[x].l.owner else Some(x);
      st[x := st[x].(launching := Some(|st|))] + [Fresh(owner, [Plug], Launching(x))]
    case Offer(x) =>
      var o := st[x].launching.value;
      var offered := st[x := st[x].(launching := None)][o := st[o].(phase := Offered)];
      Announce(offered, st[o].l.owner.value, Cmd.Own(o))
    case Promise(x) => st[x := st[x].(promised := st[x].promised + 1, l := st[x].l.(sentSeqnum := st[x].l.sentSeqnum + 1))]
    case Deliver(x) => st[x := st[x].(promised := st[x].promised - 1, mailbox := st[x].mailbox + [Bind])]
    case Terminate(x) =>
      if st[x].l.terminating then st
      else if st[x].l.owner == None then Check(After(st, x, Term, st[x].mailbox), x)
      else Post(st, st[x].l.owner.value, TermReq(x))
    case Process(x) => Check(After(st, x, st[x].mailbox[0], st[x].mailbox[1..]), x)
  }

  /** inc_seqnum and send of a numbered command. */
  function Announce(st: State, x: Id, cmd: Cmd): State
    requires x < |st|
  {
    Post(st[x := st[x].(l := st[x].l.(sentSeqnum := st[x].l.sentSeqnum + 1))], x, cmd)
  }

  // ---- The invariant

  function NumberedIn(m: seq<Cmd>): nat {
    if m == [] then 0 else (if Numbered(m[0]) then 1 else 0) + NumberedIn(m[1..])
  }

  lemma {:induction false} NumberedAppend(m: seq<Cmd>, cmd: Cmd)
    ensures NumberedIn(m + [cmd]) == NumberedIn(m) + if Numbered(cmd) then 1 else 0
  {
    if m == [] {
      assert m + [cmd] == [cmd];
    } else {
      assert (m + [cmd])[1..] == m[1..] + [cmd];
      NumberedAppend(m[1..], cmd);
    }
  }

  lemma {:induction false} NumberedMember(m: seq<Cmd>, cmd: Cmd)
    requires cmd in m && Numbered(cmd)
    ensures NumberedIn(m) > 0
  {
    if m[0] != cmd { NumberedMember(m[1..], cmd); }
  }

  ghost predicate IsChild(st: State, c: Id, x: Id) { c < |st| && st[c].l.owner == Some(x) }

  /** The children told to terminate whose acknowledgement the owner has not handled. */
  ghost function Waiting(st: State, x: Id): set<Id> {
    set c | 0 <= c < |st| && st[c].l.owner == Some(x) && Awaited(st[c].phase)
  }

  ghost predicate Refers(st: State, x: Id, cmd: Cmd) {
    match cmd
    case Own(c) => IsChild(st, c, x)
    case TermReq(c) => IsChild(st, c, x)
    case TermAck(c) => IsChild(st, c, x)
    case _ => true
  }

  /** No request of `c` follows its acknowledgement. */
  ghost predicate AckIsLast(m: seq<Cmd>, c: Id) {
    forall i, j :: 0 <= i < j < |m| && m[i] == TermAck(c) ==> m[j] != TermReq(c)
  }

  predicate Awaited(phase: Phase) { phase == Told || phase == Acking }

  /** References stay inside the system and point from owner to child; a root is never sent `term`. */
  ghost predicate RefersOk(st: State, x: Id)
    requires x < |st|
  {
    && (forall cmd :: cmd in st[x].mailbox ==> Refers(st, x, cmd))
    && (forall c :: c in st[x].l.owned ==> IsChild(st, c, x))
    && (st[x].l.owner == None ==> Term !in st[x].mailbox && st[x].terms == 0)
  }

  /** The accounts of one object that has `waiting` children to wait for. */
  ghost predicate CountsOk(o: Object, waiting: nat) {
    && (o.l.terminating ==> o.l.owned == {})
    && (o.alive ==> o.l.sentSeqnum == o.l.processedSeqnum + NumberedIn(o.mailbox) + o.promised)
    && (o.alive ==> o.l.termAcks == waiting)
    && (!o.alive ==> o.mailbox == [] && o.promised == 0 && o.launching == None)
  }

  /** What relates the child `c` to its owner, by the child's phase. */
  ghost predicate ChildOk(c: Id, o: Object, p: Object) {
    && (o.alive <==> o.phase != Acking && o.phase != Done)
    && (o.phase != Done ==> p.alive)
    && multiset(p.mailbox)[Cmd.Own(c)] == (if o.phase == Offered then 1 else 0)
    && multiset(p.mailbox)[TermAck(c)] == (if o.phase == Acking then 1 else 0)
    && (c in p.l.owned <==> o.phase == Phase.Owned)
    && (o.phase == Done ==> TermReq(c) !in p.mailbox)
    && AckIsLast(p.mailbox, c)
    && o.terms == (if o.phase == Told || o.phase == Acking || o.phase == Done then 1 else 0)
    && (o.phase != Told && o.alive ==> !o.l.terminating)
    && (o.alive ==> multiset(o.mailbox)[Term] == if o.phase == Told && !o.l.terminating then 1 else 0)
  }

  /** An object whose launch is not complete: the launcher is its owner or a sibling, older and still inside the launch. */
  ghost predicate LaunchOk(st: State, c: Id)
    requires c < |st|
  {
    && (st[c].phase.Launching? && st[c].l.owner.Some? ==>
          var s := st[c].phase.launcher;
          s < c && st[s].alive && st[s].launching == Some(c) &&
          (Some(s) == st[c].l.owner || st[s].l.owner == st[c].l.owner))
    && (st[c].launching.Some? ==> st[c].launching.value < |st| && st[st[c].launching.value].phase == Launching(c))
  }

  ghost predicate ChildAt(st: State, c: Id)
    requires c < |st| && LinkedAt(st, c)
  {
    st[c].l.owner.Some? ==> ChildOk(c, st[c], st[st[c].l.owner.value])
  }

  /** Everything the invariant says about the object `i`, but for its own readiness to finish. */
  ghost predicate Good(st: State, i: Id)
    requires i < |st|
  {
    LinkedAt(st, i) && RefersOk(st, i) && CountsOk(st[i], |Waiting(st, i)|) && ChildAt(st, i) && LaunchOk(st, i)
  }

  ghost predicate Core(st: State) {
    forall i {:trigger Good(st, i)} :: 0 <= i < |st| ==> Good(st, i)
  }

  /** A live object that is terminating still has something to wait for. */
  ghost predicate Pending(o: Object) {
    o.alive ==> !Finished(o.l)
  }

  /** The invariant between steps. */
  ghost predicate Inv(st: State) {
    Core(st) && forall i :: 0 <= i < |st| ==> Pending(st[i])
  }

  /** The invariant inside a step, before `check_term_acks` runs at `x`. */
  ghost predicate InvBut(st: State, x: Id) {
    Core(st) && forall i :: 0 <= i < |st| && i != x ==> Pending(st[i])
  }

  // ---- Frames: what a change must leave alone for each part of the invariant to survive

  /** Seen from its owner, the child is unchanged. */
  ghost predicate SelfSame(o: Object, o': Object) {
    && o'.phase == o.phase && o'.alive == o.alive && o'.terms == o.terms && o'.l.terminating == o.l.terminating
    && multiset(o'.mailbox)[Term] == multiset(o.mailbox)[Term]
  }

  /** Seen from the child `c`, the owner is unchanged. */
  ghost predicate OwnerSame(c: Id, p: Object, p': Object) {
    && p'.alive == p.alive && (c in p'.l.owned <==> c in p.l.owned)
    && multiset(p'.mailbox)[Cmd.Own(c)] == multiset(p.mailbox)[Cmd.Own(c)]
    && multiset(p'.mailbox)[TermAck(c)] == multiset(p.mailbox)[TermAck(c)]
    && (TermReq(c) in p'.mailbox ==> TermReq(c) in p.mailbox)
    && (AckIsLast(p.mailbox, c) ==> AckIsLast(p'.mailbox, c))
  }

  lemma ChildFrame(c: Id, o: Object, p: Object, o': Object, p': Object)
    requires ChildOk(c, o, p) && SelfSame(o, o') && OwnerSame(c, p, p')
    ensures ChildOk(c, o', p')
  {
  }

  predicate About(cmd: Cmd, c: Id) { cmd == Cmd.Own(c) || cmd == TermAck(c) || cmd == TermReq(c) }

  lemma AppendFrame(c: Id, m: seq<Cmd>, cmd: Cmd)
    ensures forall k :: multiset(m + [cmd])[k] == multiset(m)[k] + if k == cmd then 1 else 0
    ensures NumberedIn(m + [cmd]) == NumberedIn(m) + if Numbered(cmd) then 1 else 0
    ensures AckIsLast(m, c) && !(cmd == TermReq(c) && TermAck(c) in m) ==> AckIsLast(m + [cmd], c)
    ensures forall k :: k in m + [cmd] <==> k in m || k == cmd
  {
    NumberedAppend(m, cmd);
  }

  lemma PopFrame(c: Id, m: seq<Cmd>)
    requires m != []
    ensures forall k :: multiset(m[1..])[k] == multiset(m)[k] - if k == m[0] then 1 else 0
    ensures NumberedIn(m) == NumberedIn(m[1..]) + if Numbered(m[0]) then 1 else 0
    ensures AckIsLast(m, c) ==> AckIsLast(m[1..], c)
    ensures AckIsLast(m, c) && m[0] == TermAck(c) ==> TermReq(c) !in m[1..]
    ensures forall k :: k in m[1..] ==> k in m
  {
    assert m == [m[0]] + m[1..];
    if AckIsLast(m, c) {
      forall i, j | 0 <= i < j < |m[1..]| && m[1..][i] == TermAck(c) ensures m[1..][j] != TermReq(c) {
        assert m[i + 1] == TermAck(c) && m[j + 1] == m[1..][j];
      }
    }
  }

  /** When no child of `x` starts or stops being waited for, the set stays the same. */
  lemma SameWaiting(st: State, t: State, x: Id)
    requires |st| <= |t|
    requires forall c :: 0 <= c < |st| ==> t[c].l.owner == st[c].l.owner
    requires forall c :: 0 <= c < |st| ==> (Awaited(t[c].phase) <==> Awaited(st[c].phase))
    requires forall c :: |st| <= c < |t| ==> !Awaited(t[c].phase)
    ensures Waiting(t, x) == Waiting(st, x)
  {
  }

  /** Owners never change, so what referred to a child still does. */
  lemma RefersFrame(st: State, t: State, x: Id)
    requires x < |st| <= |t| && RefersOk(st, x)
    requires forall c :: 0 <= c < |st| ==> t[c].l.owner == st[c].l.owner
    requires forall cmd :: cmd in t[x].mailbox ==> cmd in st[x].mailbox || (Refers(t, x, cmd) && cmd != Term)
    requires t[x].l.owned <= st[x].l.owned && t[x].terms == st[x].terms
    ensures RefersOk(t, x)
  {
    forall cmd | cmd in t[x].mailbox ensures Refers(t, x, cmd) {
      if cmd in st[x].mailbox { assert Refers(st, x, cmd); }
    }
  }

  // ---- Steps that add objects

  /** Nothing refers to an object that does not exist yet. */
  lemma NotMentioned(st: State, p: Id)
    requires Core(st)
    ensures Waiting(st, |st|) == {}
    ensures p < |st| ==>
      Cmd.Own(|st|) !in st[p].mailbox && TermAck(|st|) !in st[p].mailbox && TermReq(|st|) !in st[p].mailbox &&
      |st| !in st[p].l.owned
  {
    forall c | 0 <= c < |st| ensures st[c].l.owner != Some(|st|) { assert Good(st, c); }
    if p < |st| { assert Good(st, p); }
  }

  /** Adding an object, and at most a launch mark on an old one, leaves the old objects good. */
  lemma GrowKeeps(st: State, t: State, i: Id)
    requires Core(st) && i < |st| < |t| && Good(st, i)
    requires forall c :: 0 <= c < |st| ==> t[c] == st[c].(launching := t[c].launching)
    requires forall c :: |st| <= c < |t| ==> !Awaited(t[c].phase)
    requires t[i].launching == st[i].launching || (t[i].alive && t[i].launching == Some(|st|) && t[|st|].phase == Launching(i)
      && t[|st|].l.owner.Some? && t[|st|].l.owner.value < |t|)
    requires st[i].phase.Launching? && st[i].l.owner.Some? ==> t[st[i].phase.launcher].launching == st[st[i].phase.launcher].launching
    ensures Good(t, i)
  {
    SameWaiting(st, t, i);
    RefersFrame(st, t, i);
    if st[i].l.owner.Some? { ChildFrame(i, st[i], st[st[i].l.owner.value], t[i], t[st[i].l.owner.value]); }
  }

  lemma NewRootKeeps(st: State)
    requires Inv(st)
    ensures Inv(Apply(st, NewRoot))
  {
    var t := Apply(st, NewRoot);
    NotMentioned(st, |st|);
    forall i | 0 <= i < |t| ensures Good(t, i) && Pending(t[i]) {
      if i < |st| { assert Good(st, i) && Pending(st[i]); GrowKeeps(st, t, i); } else { SameWaiting(st, t, i); }
    }
  }

  lemma LaunchKeeps(st: State, x: Id, sibling: bool)
    requires Inv(st) && Enabled(st, Launch(x, sibling)) && Good(st, x)
    ensures Inv(Apply(st, Launch(x, sibling)))
  {
    var t := Apply(st, Launch(x, sibling));
    forall i | 0 <= i < |t| ensures Good(t, i) && Pending(t[i]) {
      if i < |st| { assert Good(st, i) && Pending(st[i]); GrowKeeps(st, t, i); } else { LaunchMakes(st, x, sibling); }
    }
  }

  lemma LaunchMakes(st: State, x: Id, sibling: bool)
    requires Inv(st) && Enabled(st, Launch(x, sibling)) && Good(st, x)
    ensures var t := Apply(st, Launch(x, sibling)); Good(t, |st|) && Pending(t[|st|])
  {
    var t := Apply(st, Launch(x, sibling));
    var p := t[|st|].l.owner.value;
    NotMentioned(st, p);
    SameWaiting(st, t, |st|);
    assert Good(st, p);
    assert NumberedIn([Plug]) == 1;
  }

  // ---- Steps that only post a command

  /** Changes seen neither by the child `i` nor by its owner, with the accounts of `i` in order, keep `i` good. */
  lemma KeepGood(st: State, t: State, i: Id)
    requires i < |st| == |t| && Good(st, i) && LinkedAt(t, i) && LaunchOk(t, i)
    requires forall c :: 0 <= c < |st| ==> t[c].l.owner == st[c].l.owner
    requires forall c :: 0 <= c < |st| ==> (Awaited(t[c].phase) <==> Awaited(st[c].phase))
    requires forall cmd :: cmd in t[i].mailbox ==> cmd in st[i].mailbox || (Refers(t, i, cmd) && cmd != Term)
    requires t[i].l.owned <= st[i].l.owned && t[i].terms == st[i].terms
    requires CountsOk(t[i], |Waiting(st, i)|)
    requires st[i].l.owner.Some? ==> ChildOk(i, t[i], t[st[i].l.owner.value])
    ensures Good(t, i)
  {
    SameWaiting(st, t, i);
    RefersFrame(st, t, i);
  }

  /** Posting a command that is not about `c` changes neither view. */
  lemma PostFrame(c: Id, o: Object, o': Object, cmd: Cmd)
    requires o'.mailbox == o.mailbox + [cmd] && o'.l.owned == o.l.owned && o'.alive == o.alive
    ensures !About(cmd, c) ==> OwnerSame(c, o, o')
    ensures cmd != Term && o'.phase == o.phase && o'.terms == o.terms && o'.l.terminating == o.l.terminating ==> SelfSame(o, o')
    ensures NumberedIn(o'.mailbox) == NumberedIn(o.mailbox) + if Numbered(cmd) then 1 else 0
  {
    AppendFrame(c, o.mailbox, cmd);
  }

  /** The mailbox may have got `cmd`; what the children of the object depend on is the same otherwise. */
  ghost predicate Posted(p: Object, p': Object, cmd: Cmd) {
    p'.alive == p.alive && p'.l.owned == p.l.owned && (p'.mailbox == p.mailbox || p'.mailbox == p.mailbox + [cmd])
  }

  /** A command that is not about a child makes no difference to the child, whether it is posted to it, to its owner, or to both. */
  lemma ChildBeside(c: Id, o: Object, p: Object, o': Object, p': Object, cmd: Cmd)
    requires ChildOk(c, o, p) && cmd != Term && !About(cmd, c) && Posted(o, o', cmd) && Posted(p, p', cmd)
    requires o'.phase == o.phase && o'.terms == o.terms && o'.l.terminating == o.l.terminating
    ensures ChildOk(c, o', p')
  {
    if p'.mailbox != p.mailbox { PostFrame(c, p, p', cmd); }
    if o'.mailbox != o.mailbox { PostFrame(c, o, o', cmd); }
    ChildFrame(c, o, p, o', p');
  }

  /** Only the objects in `touched` differ, and nobody's owner does. */
  ghost predicate Touches(st: State, t: State, touched: set<Id>) {
    && |t| == |st|
    && (forall c :: 0 <= c < |st| && c !in touched ==> t[c] == st[c])
    && (forall c :: 0 <= c < |st| ==> t[c].l.owner == st[c].l.owner)
  }

  /** Objects `x` and `o` are at the two ends of a launch, `p` is the owner of `o`, and `t` is `st` after the offer. */
  ghost predicate Offering(st: State, t: State, x: Id, o: Id, p: Id) {
    && x < |st| == |t| && o < |st| && p < |st|
    && Good(st, x) && Good(st, o) && Good(st, p)
    && st[x].launching == Some(o) && st[o].l.owner == Some(p)
    && forall c :: 0 <= c < |st| ==> t[c] == OfferedObject(st, x, o, p, c)
  }

  ghost function OfferedObject(st: State, x: Id, o: Id, p: Id, c: Id): Object
    requires x < |st| && c < |st|
  {
    var a := if c == x then st[c].(launching := None) else if c == o then st[c].(phase := Offered) else st[c];
    if c == p then a.(l := a.l.(sentSeqnum := a.l.sentSeqnum + 1), mailbox := a.mailbox + [Cmd.Own(o)]) else a
  }

  lemma OfferedFields(st: State, t: State, x: Id, o: Id, p: Id, c: Id)
    requires Offering(st, t, x, o, p) && c < |st|
    ensures t[c].l.owner == st[c].l.owner && t[c].alive == st[c].alive
    ensures t[c].launching == if c == x then None else st[c].launching
    ensures t[c].phase == if c == o then Offered else st[c].phase
  {
  }

  lemma OfferLaunches(st: State, t: State, x: Id, o: Id, p: Id, i: Id)
    requires Offering(st, t, x, o, p) && i < |st| && Good(st, i)
    ensures LinkedAt(t, i) && LaunchOk(t, i)
  {
    forall c | 0 <= c < |st|
      ensures t[c].l.owner == st[c].l.owner && t[c].alive == st[c].alive
      ensures t[c].launching == if c == x then None else st[c].launching
      ensures t[c].phase == if c == o then Offered else st[c].phase
    {
      OfferedFields(st, t, x, o, p, c);
    }
  }

  lemma OfferKeeps(st: State, t: State, x: Id, o: Id, p: Id, i: Id)
    requires Offering(st, t, x, o, p) && i < |st| && Good(st, i)
    ensures Good(t, i)
  {
    OfferLaunches(st, t, x, o, p, i);
    OfferChild(st, t, x, o, p, i);
    OfferCounts(st, t, x, o, p, i);
    OfferRefers(st, t, x, o, p, i);
  }

  lemma OfferRefers(st: State, t: State, x: Id, o: Id, p: Id, i: Id)
    requires Offering(st, t, x, o, p) && i < |st| && Good(st, i)
    ensures RefersOk(t, i) && Waiting(t, i) == Waiting(st, i)
  {
    OfferOwners(st, t, x, o, p);
    assert Refers(st, p, Cmd.Own(o));
    PostedRefers(st, t, p, Cmd.Own(o), i);
    SameWaiting(st, t, i);
    RefersFrame(st, t, i);
  }

  lemma OfferOwners(st: State, t: State, x: Id, o: Id, p: Id)
    requires Offering(st, t, x, o, p)
    ensures forall c :: 0 <= c < |st| ==> t[c].l.owner == st[c].l.owner && (Awaited(t[c].phase) <==> Awaited(st[c].phase))
    ensures forall c :: 0 <= c < |st| ==> t[c].terms == st[c].terms && t[c].l.owned == st[c].l.owned
    ensures forall c :: 0 <= c < |st| ==> t[c].mailbox == if c == p then st[c].mailbox + [Cmd.Own(o)] else st[c].mailbox
  {
    forall c | 0 <= c < |st|
      ensures t[c].l.owner == st[c].l.owner && (Awaited(t[c].phase) <==> Awaited(st[c].phase))
      ensures t[c].terms == st[c].terms && t[c].l.owned == st[c].l.owned
      ensures t[c].mailbox == if c == p then st[c].mailbox + [Cmd.Own(o)] else st[c].mailbox
    {
      OfferedAccounts(st, t, x, o, p, c);
    }
  }

  lemma OfferedAccounts(st: State, t: State, x: Id, o: Id, p: Id, c: Id)
    requires Offering(st, t, x, o, p) && c < |st|
    ensures t[c].l.owner == st[c].l.owner && (Awaited(t[c].phase) <==> Awaited(st[c].phase))
    ensures t[c].terms == st[c].terms && t[c].l.owned == st[c].l.owned
    ensures t[c].mailbox == if c == p then st[c].mailbox + [Cmd.Own(o)] else st[c].mailbox
  {
    assert t[c] == OfferedObject(st, x, o, p, c);
  }

  lemma OfferCounts(st: State, t: State, x: Id, o: Id, p: Id, i: Id)
    requires Offering(st, t, x, o, p) && i < |st| && Good(st, i)
    ensures CountsOk(t[i], |Waiting(st, i)|)
  {
    PostFrame(i, st[p], t[p], Cmd.Own(o));
  }

  lemma OfferChild(st: State, t: State, x: Id, o: Id, p: Id, i: Id)
    requires Offering(st, t, x, o, p) && i < |st| && Good(st, i)
    ensures st[i].l.owner.Some? ==> ChildOk(i, t[i], t[st[i].l.owner.value])
  {
    if i == o {
      OfferedChild(o, st[o], st[p], t[o], t[p]);
    } else if st[i].l.owner.Some? {
      OfferBeside(st, t, x, o, p, i);
    }
  }

  lemma OfferPosts(st: State, t: State, x: Id, o: Id, p: Id, c: Id)
    requires Offering(st, t, x, o, p) && c < |st|
    ensures Posted(st[c], t[c], Cmd.Own(o)) && t[c].terms == st[c].terms && t[c].l.terminating == st[c].l.terminating
    ensures c != o ==> t[c].phase == st[c].phase
  {
    assert t[c] == OfferedObject(st, x, o, p, c);
  }

  lemma OfferBeside(st: State, t: State, x: Id, o: Id, p: Id, i: Id)
    requires Offering(st, t, x, o, p) && i < |st| && Good(st, i) && i != o && st[i].l.owner.Some?
    ensures ChildOk(i, t[i], t[st[i].l.owner.value])
  {
    var q := st[i].l.owner.value;
    OfferPosts(st, t, x, o, p, i);
    OfferPosts(st, t, x, o, p, q);
    ChildBeside(i, st[i], st[q], t[i], t[q], Cmd.Own(o));
  }

  lemma OfferedChild(o: Id, c: Object, p: Object, c': Object, p': Object)
    requires ChildOk(o, c, p) && c.phase.Launching? && c' == c.(phase := Offered)
    requires p'.mailbox == p.mailbox + [Cmd.Own(o)] && p'.l.owned == p.l.owned && p'.alive == p.alive
    ensures ChildOk(o, c', p')
  {
    AppendFrame(o, p.mailbox, Cmd.Own(o));
  }

  /** A posted command refers to the object it names. */
  lemma PostedRefers(st: State, t: State, p: Id, cmd: Cmd, i: Id)
    requires p < |st| == |t| && i < |st| && Refers(st, p, cmd) && cmd != Term
    requires forall c :: 0 <= c < |st| ==> t[c].l.owner == st[c].l.owner
    requires t[p].mailbox == st[p].mailbox + [cmd]
    requires i != p ==> t[i].mailbox == st[i].mailbox
    ensures forall k :: k in t[i].mailbox ==> k in st[i].mailbox || (Refers(t, i, k) && k != Term)
  {
  }

  lemma PromiseKeeps(st: State, t: State, x: Id, i: Id)
    requires x < |st| && i < |st| && Good(st, i) && Touches(st, t, {x})
    requires st[x].alive
    requires t[x] == st[x].(promised := st[x].promised + 1, l := st[x].l.(sentSeqnum := st[x].l.sentSeqnum + 1))
    ensures Good(t, i)
  {
    if st[i].l.owner.Some? {
      var q := st[i].l.owner.value;
      ChildFrame(i, st[i], st[q], t[i], t[q]);
    }
    KeepGood(st, t, i);
  }

  lemma DeliverKeeps(st: State, t: State, x: Id, i: Id)
    requires x < |st| && i < |st| && Good(st, x) && Good(st, i) && Touches(st, t, {x})
    requires st[x].promised > 0
    requires t[x] == st[x].(promised := st[x].promised - 1, mailbox := st[x].mailbox + [Bind])
    ensures Good(t, i)
  {
    PostFrame(i, st[x], t[x], Bind);
    DeliverChild(st, t, x, i);
    MailLaunches(st, t, x, i);
    KeepGood(st, t, i);
  }

  /** A longer mailbox at `p` has nothing to do with launches. */
  lemma MailLaunches(st: State, t: State, p: Id, i: Id)
    requires p < |st| && i < |st| && Good(st, i) && Touches(st, t, {p})
    requires t[p].alive == st[p].alive && t[p].launching == st[p].launching && t[p].phase == st[p].phase
    ensures LinkedAt(t, i) && LaunchOk(t, i)
    ensures forall c :: 0 <= c < |st| ==> (Awaited(t[c].phase) <==> Awaited(st[c].phase))
  {
  }

  lemma DeliverChild(st: State, t: State, x: Id, i: Id)
    requires x < |st| && i < |st| && Good(st, i) && Touches(st, t, {x})
    requires t[x] == st[x].(promised := t[x].promised, mailbox := st[x].mailbox + [Bind])
    ensures st[i].l.owner.Some? ==> ChildOk(i, t[i], t[st[i].l.owner.value])
  {
    if st[i].l.owner.Some? {
      var q := st[i].l.owner.value;
      ChildBeside(i, st[i], st[q], t[i], t[q], Bind);
    }
  }

  /** The request of a live child: it is not acknowledged yet, so no acknowledgement is ahead of the request. */
  lemma RequestKeeps(st: State, t: State, x: Id, p: Id, i: Id)
    requires x < |st| && p < |st| && i < |st| && Good(st, x) && Good(st, p) && Good(st, i) && Touches(st, t, {p})
    requires st[x].alive && st[x].l.owner == Some(p)
    requires t[p] == st[p].(mailbox := st[p].mailbox + [TermReq(x)])
    ensures Good(t, i)
  {
    PostFrame(i, st[p], t[p], TermReq(x));
    RequestChild(st, t, x, p, i);
    MailLaunches(st, t, p, i);
    PostedRefers(st, t, p, TermReq(x), i);
    KeepGood(st, t, i);
  }

  lemma RequestChild(st: State, t: State, x: Id, p: Id, i: Id)
    requires x < |st| && p < |st| && i < |st| && Good(st, x) && Good(st, i) && Touches(st, t, {p})
    requires st[x].alive && st[x].l.owner == Some(p)
    requires t[p] == st[p].(mailbox := st[p].mailbox + [TermReq(x)])
    ensures st[i].l.owner.Some? ==> ChildOk(i, t[i], t[st[i].l.owner.value])
  {
    if i == x {
      RequestingChild(x, st[x], st[p], t[p]);
    } else if st[i].l.owner.Some? {
      var q := st[i].l.owner.value;
      ChildBeside(i, st[i], st[q], t[i], t[q], TermReq(x));
    }
  }

  lemma RequestingChild(x: Id, c: Object, p: Object, p': Object)
    requires ChildOk(x, c, p) && c.alive
    requires p'.mailbox == p.mailbox + [TermReq(x)] && p'.l.owned == p.l.owned && p'.alive == p.alive
    ensures ChildOk(x, c, p')
  {
    AppendFrame(x, p.mailbox, TermReq(x));
  }

  // ---- Handling a command

  /** The object as one of the owner's handlers leaves its child `c`. */
  function ChildAfter(c: Id, o: Object, l: Local, cmd: Cmd): Object {
    if c in ToldBy(l, cmd) then Tell(o)
    else if cmd == Cmd.Own(c) then o.(phase := Phase.Owned)
    else if cmd == TermAck(c) then o.(phase := Done)
    else o
  }

  /** The command is the head of the mailbox, or a live root terminates by itself. */
  ghost predicate Receives(o: Object, cmd: Cmd, rest: seq<Cmd>) {
    o.alive && (o.mailbox == [cmd] + rest || (cmd == Term && o.l.owner == None && !o.l.terminating && o.mailbox == rest))
  }

  /** `t` is `st` after `x` handled `cmd`. */
  ghost predicate Handling(st: State, t: State, x: Id, cmd: Cmd, rest: seq<Cmd>) {
    && x < |st| == |t| && Core(st) && Good(st, x)
    && Receives(st[x], cmd, rest)
    && t[x] == st[x].(l := Handle(st[x].l, cmd), mailbox := rest)
    && forall c :: 0 <= c < |st| && c != x ==> t[c] == ChildAfter(c, st[c], st[x].l, cmd)
  }

  lemma ReceivesFrame(o: Object, cmd: Cmd, rest: seq<Cmd>, c: Id)
    requires Receives(o, cmd, rest)
    ensures cmd != Term ==> forall k :: multiset(rest)[k] == multiset(o.mailbox)[k] - if k == cmd then 1 else 0
    ensures cmd == Term ==> forall k :: k != Term ==> multiset(rest)[k] == multiset(o.mailbox)[k]
    ensures NumberedIn(o.mailbox) == NumberedIn(rest) + if Numbered(cmd) then 1 else 0
    ensures AckIsLast(o.mailbox, c) ==> AckIsLast(rest, c)
    ensures AckIsLast(o.mailbox, c) && cmd == TermAck(c) ==> TermReq(c) !in rest
    ensures forall k :: k in rest ==> k in o.mailbox
  {
    if o.mailbox == [cmd] + rest {
      PopFrame(c, o.mailbox);
      assert o.mailbox[1..] == rest;
    }
  }

  /** A command that does not concern `c` leaves the child in order. */
  lemma ChildUnconcerned(c: Id, o: Object, p: Object, cmd: Cmd, rest: seq<Cmd>)
    requires ChildOk(c, o, p) && Receives(p, cmd, rest) && !About(cmd, c) && c !in ToldBy(p.l, cmd)
    ensures ChildOk(c, o, p.(l := Handle(p.l, cmd), mailbox := rest))
  {
    ReceivesFrame(p, cmd, rest, c);
    ChildFrame(c, o, p, o, p.(l := Handle(p.l, cmd), mailbox := rest));
  }

  lemma ChildOffered(c: Id, o: Object, p: Object, rest: seq<Cmd>)
    requires ChildOk(c, o, p) && Receives(p, Cmd.Own(c), rest)
    ensures ChildOk(c, ChildAfter(c, o, p.l, Cmd.Own(c)), p.(l := Handle(p.l, Cmd.Own(c)), mailbox := rest))
  {
    ReceivesFrame(p, Cmd.Own(c), rest, c);
    AppendFrame(c, o.mailbox, Term);
    assert o.phase == Offered;
  }

  lemma ChildRequests(c: Id, o: Object, p: Object, rest: seq<Cmd>)
    requires ChildOk(c, o, p) && Receives(p, TermReq(c), rest)
    ensures ChildOk(c, ChildAfter(c, o, p.l, TermReq(c)), p.(l := Handle(p.l, TermReq(c)), mailbox := rest))
  {
    ReceivesFrame(p, TermReq(c), rest, c);
    AppendFrame(c, o.mailbox, Term);
    assert forall k :: k in rest ==> multiset(rest)[k] > 0;
  }

  lemma ChildAcks(c: Id, o: Object, p: Object, rest: seq<Cmd>)
    requires ChildOk(c, o, p) && Receives(p, TermAck(c), rest)
    ensures ChildOk(c, ChildAfter(c, o, p.l, TermAck(c)), p.(l := Handle(p.l, TermAck(c)), mailbox := rest))
  {
    ReceivesFrame(p, TermAck(c), rest, c);
    assert o.phase == Acking;
  }

  lemma ChildTold(c: Id, o: Object, p: Object, rest: seq<Cmd>)
    requires ChildOk(c, o, p) && Receives(p, Term, rest) && c in p.l.owned
    ensures ChildOk(c, ChildAfter(c, o, p.l, Term), p.(l := Handle(p.l, Term), mailbox := rest))
  {
    ReceivesFrame(p, Term, rest, c);
    AppendFrame(c, o.mailbox, Term);
    assert o.phase == Phase.Owned;
  }

  /** A child stays in order with an owner that handles a command, whatever the command says about it. */
  lemma ChildOfHandler(c: Id, o: Object, p: Object, cmd: Cmd, rest: seq<Cmd>)
    requires ChildOk(c, o, p) && Receives(p, cmd, rest)
    ensures ChildOk(c, ChildAfter(c, o, p.l, cmd), p.(l := Handle(p.l, cmd), mailbox := rest))
  {
    if cmd == Cmd.Own(c) { ChildOffered(c, o, p, rest); }
    else if cmd == TermReq(c) { ChildRequests(c, o, p, rest); }
    else if cmd == TermAck(c) { ChildAcks(c, o, p, rest); }
    else if cmd == Term && c in p.l.owned { ChildTold(c, o, p, rest); }
    else { ChildUnconcerned(c, o, p, cmd, rest); }
  }

  /** The handler's assertions hold: a second `term` never arrives, nor an acknowledgement nobody waits for. */
  lemma HandlerAssertions(st: State, x: Id, cmd: Cmd, rest: seq<Cmd>)
    requires x < |st| && Core(st) && Good(st, x) && Receives(st[x], cmd, rest)
    ensures Asserted(st[x].l, cmd)
  {
    match cmd
    case Term =>
      if st[x].mailbox == [Term] + rest {
        assert Term in st[x].mailbox;
        assert multiset(st[x].mailbox)[Term] > 0;
      }
    case TermAck(c) =>
      assert Refers(st, x, cmd) && Good(st, c);
      assert multiset(st[x].mailbox)[TermAck(c)] > 0;
      assert c in Waiting(st, x);
    case _ =>
  }

  /** A child keeps its standing when its owner gets at most one `term` more. */
  lemma OwnerTold(c: Id, o: Object, p: Object, p': Object)
    requires ChildOk(c, o, p) && p'.alive == p.alive && p'.l == p.l
    requires p'.mailbox == p.mailbox || p'.mailbox == p.mailbox + [Term]
    ensures ChildOk(c, o, p')
  {
    AppendFrame(c, p.mailbox, Term);
    ChildFrame(c, o, p, o, p');
  }

  /** Where an object stands after a step of another, older, object. */
  lemma ChildElsewhere(st: State, t: State, x: Id, cmd: Cmd, rest: seq<Cmd>, c: Id)
    requires Handling(st, t, x, cmd, rest) && c < |st| && Good(st, c) && st[c].l.owner.Some? && st[c].l.owner != Some(x)
    requires c !in ToldBy(st[x].l, cmd) && !About(cmd, c)
    ensures ChildOk(c, t[c], t[st[c].l.owner.value])
  {
    var q := st[c].l.owner.value;
    OwnerTold(c, st[c], st[q], t[q]);
    if c == x { OwnTerm(c, st[x], t[x], t[q], cmd, rest); }
  }

  /** The handler's own standing with its owner: only `term` changes it. */
  lemma OwnTerm(x: Id, o: Object, o': Object, p: Object, cmd: Cmd, rest: seq<Cmd>)
    requires ChildOk(x, o, p) && Receives(o, cmd, rest) && o.l.owner.Some?
    requires o' == o.(l := Handle(o.l, cmd), mailbox := rest)
    ensures ChildOk(x, o', p)
  {
    if cmd == Term {
      PopFrame(x, o.mailbox);
      assert o.mailbox[1..] == rest;
    } else {
      ReceivesFrame(o, cmd, rest, x);
    }
  }

  /** Whom a handled command concerns: only children of the handler, who were not told to terminate before. */
  lemma Concerned(st: State, x: Id, cmd: Cmd, rest: seq<Cmd>, c: Id)
    requires x < |st| && Core(st) && Good(st, x) && Receives(st[x], cmd, rest)
    ensures About(cmd, c) || c in ToldBy(st[x].l, cmd) ==> IsChild(st, c, x)
    ensures c in ToldBy(st[x].l, cmd) ==> st[c].phase == Offered || st[c].phase == Phase.Owned
    ensures cmd == Cmd.Own(c) ==> st[c].phase == Offered
    ensures cmd == TermAck(c) ==> st[c].phase == Acking
  {
    if About(cmd, c) {
      assert cmd in st[x].mailbox && Refers(st, x, cmd);
      assert multiset(st[x].mailbox)[cmd] > 0;
    }
    if About(cmd, c) || c in ToldBy(st[x].l, cmd) { assert Good(st, c); }
  }

  lemma HandlingOwners(st: State, t: State, x: Id, cmd: Cmd, rest: seq<Cmd>)
    requires Handling(st, t, x, cmd, rest)
    ensures forall c :: 0 <= c < |st| ==> t[c].l.owner == st[c].l.owner
    ensures forall c :: 0 <= c < |st| ==> t[c].launching == st[c].launching && t[c].alive == st[c].alive && t[c].promised == st[c].promised
    ensures forall c :: 0 <= c < |st| && c != x ==> t[c].l == st[c].l
  {
  }

  /** The children waited for: those told are added, the one that acknowledged is dropped. */
  lemma WaitingOfHandler(st: State, t: State, x: Id, cmd: Cmd, rest: seq<Cmd>)
    requires Handling(st, t, x, cmd, rest)
    ensures |Waiting(t, x)| == |Waiting(st, x)| + |ToldBy(st[x].l, cmd)| - if cmd.TermAck? then 1 else 0
  {
    HandlingOwners(st, t, x, cmd, rest);
    var told := ToldBy(st[x].l, cmd);
    forall c ensures c in Waiting(t, x) <==> (c in Waiting(st, x) && cmd != TermAck(c)) || c in told
      ensures c in told ==> c !in Waiting(st, x)
      ensures cmd == TermAck(c) ==> c in Waiting(st, x)
    {
      WaitingAt(st, t, x, cmd, rest, c);
    }
    Recount(Waiting(st, x), Waiting(t, x), told, if cmd.TermAck? then {cmd.sender} else {});
  }

  lemma Recount<T>(before: set<T>, after: set<T>, told: set<T>, done: set<T>)
    requires told !! before && done <= before
    requires forall c :: c in after <==> (c in before && c !in done) || c in told
    ensures |after| == |before| + |told| - |done|
  {
    assert after == (before - done) + told;
  }

  lemma WaitingAt(st: State, t: State, x: Id, cmd: Cmd, rest: seq<Cmd>, c: Id)
    requires Handling(st, t, x, cmd, rest)
    ensures c in Waiting(t, x) <==> (c in Waiting(st, x) && cmd != TermAck(c)) || c in ToldBy(st[x].l, cmd)
    ensures c in ToldBy(st[x].l, cmd) ==> c !in Waiting(st, x)
    ensures cmd == TermAck(c) ==> c in Waiting(st, x)
  {
    HandlingOwners(st, t, x, cmd, rest);
    Concerned(st, x, cmd, rest, c);
  }

  lemma WaitingElsewhere(st: State, t: State, x: Id, cmd: Cmd, rest: seq<Cmd>, y: Id)
    requires Handling(st, t, x, cmd, rest) && y != x
    ensures Waiting(t, y) == Waiting(st, y)
  {
    HandlingOwners(st, t, x, cmd, rest);
    forall c ensures c in Waiting(t, y) <==> c in Waiting(st, y) { Concerned(st, x, cmd, rest, c); }
  }

  lemma CountsOfHandler(o: Object, cmd: Cmd, rest: seq<Cmd>, waiting: nat, waiting': nat)
    requires CountsOk(o, waiting) && Receives(o, cmd, rest)
    requires waiting' == waiting + |ToldBy(o.l, cmd)| - if cmd.TermAck? then 1 else 0
    ensures CountsOk(o.(l := Handle(o.l, cmd), mailbox := rest), waiting')
  {
    ReceivesFrame(o, cmd, rest, 0);
  }

  /** What the handler itself refers to: the rest of its mailbox, and perhaps a child it now owns. */
  lemma HandlerRefers(st: State, t: State, x: Id, cmd: Cmd, rest: seq<Cmd>)
    requires Handling(st, t, x, cmd, rest)
    ensures RefersOk(t, x)
  {
    HandlingOwners(st, t, x, cmd, rest);
    HandlerOwns(st, t, x, cmd, rest);
    ReceivesFrame(st[x], cmd, rest, x);
    forall k | k in rest ensures Refers(t, x, k) {
      RefersSame(st, t, x, k);
    }
  }

  lemma RefersSame(st: State, t: State, x: Id, cmd: Cmd)
    requires |t| == |st| && Refers(st, x, cmd) && forall c :: 0 <= c < |st| ==> t[c].l.owner == st[c].l.owner
    ensures Refers(t, x, cmd)
  {
  }

  lemma HandlerOwns(st: State, t: State, x: Id, cmd: Cmd, rest: seq<Cmd>)
    requires Handling(st, t, x, cmd, rest)
    ensures forall c :: c in t[x].l.owned ==> IsChild(t, c, x)
  {
    HandlingOwners(st, t, x, cmd, rest);
    forall c | c in t[x].l.owned ensures IsChild(t, c, x) {
      if cmd == Cmd.Own(c) { Concerned(st, x, cmd, rest, c); }
      assert IsChild(st, c, x);
    }
  }

  lemma HandlingRefers(st: State, t: State, x: Id, cmd: Cmd, rest: seq<Cmd>, i: Id)
    requires Handling(st, t, x, cmd, rest) && i < |st| && Good(st, i)
    ensures RefersOk(t, i)
  {
    HandlingOwners(st, t, x, cmd, rest);
    if i == x {
      HandlerRefers(st, t, x, cmd, rest);
    } else {
      Concerned(st, x, cmd, rest, i);
      forall k | k in t[i].mailbox ensures Refers(t, i, k) {
        assert k in st[i].mailbox ==> Refers(st, i, k);
      }
    }
  }

  lemma HandlingCounts(st: State, t: State, x: Id, cmd: Cmd, rest: seq<Cmd>, i: Id)
    requires Handling(st, t, x, cmd, rest) && i < |st| && Good(st, i)
    ensures CountsOk(t[i], |Waiting(t, i)|)
  {
    if i == x {
      WaitingOfHandler(st, t, x, cmd, rest);
      CountsOfHandler(st[x], cmd, rest, |Waiting(st, x)|, |Waiting(t, x)|);
    } else {
      WaitingElsewhere(st, t, x, cmd, rest, i);
      AppendFrame(i, st[i].mailbox, Term);
      Concerned(st, x, cmd, rest, i);
    }
  }

  lemma HandlingChild(st: State, t: State, x: Id, cmd: Cmd, rest: seq<Cmd>, i: Id)
    requires Handling(st, t, x, cmd, rest) && i < |st| && Good(st, i) && LinkedAt(t, i)
    ensures ChildAt(t, i)
  {
    HandlingOwners(st, t, x, cmd, rest);
    Concerned(st, x, cmd, rest, i);
    if st[i].l.owner == Some(x) {
      ChildOfHandler(i, st[i], st[x], cmd, rest);
    } else if st[i].l.owner.Some? {
      ChildElsewhere(st, t, x, cmd, rest, i);
    }
  }

  lemma HandlingLaunches(st: State, t: State, x: Id, cmd: Cmd, rest: seq<Cmd>, i: Id)
    requires Handling(st, t, x, cmd, rest) && i < |st| && Good(st, i)
    ensures LinkedAt(t, i) && LaunchOk(t, i)
  {
    HandlingOwners(st, t, x, cmd, rest);
    Concerned(st, x, cmd, rest, i);
    if st[i].launching.Some? { Concerned(st, x, cmd, rest, st[i].launching.value); }
  }

  lemma HandlingKeeps(st: State, t: State, x: Id, cmd: Cmd, rest: seq<Cmd>)
    requires Handling(st, t, x, cmd, rest) && Inv(st)
    ensures InvBut(t, x)
  {
    HandlingOwners(st, t, x, cmd, rest);
    forall i | 0 <= i < |t| ensures Good(t, i) && (i != x ==> Pending(t[i])) {
      assert Good(st, i) && Pending(st[i]);
      HandlingLaunches(st, t, x, cmd, rest, i);
      HandlingRefers(st, t, x, cmd, rest, i);
      HandlingCounts(st, t, x, cmd, rest, i);
      HandlingChild(st, t, x, cmd, rest, i);
    }
  }

  // ---- Finishing

  lemma {:induction false} NoneNumbered(m: seq<Cmd>, cmd: Cmd)
    requires NumberedIn(m) == 0
    ensures Numbered(cmd) ==> cmd !in m && multiset(m)[cmd] == 0
  {
    if m != [] {
      NoneNumbered(m[1..], cmd);
      assert m == [m[0]] + m[1..];
    }
  }

  /** Once an object may finish, all its children are done: a launch in progress would need an older live sibling to run it. */
  lemma {:induction false} ChildrenDone(st: State, x: Id, c: Id)
    requires Core(st) && x < |st| && Good(st, x) && Free(st, x) && Finished(st[x].l) && IsChild(st, c, x)
    ensures st[c].phase == Done
    decreases c
  {
    assert Good(st, c);
    NoneNumbered(st[x].mailbox, Cmd.Own(c));
    assert Waiting(st, x) == {};
    assert c !in Waiting(st, x);
    if st[c].phase.Launching? {
      var s := st[c].phase.launcher;
      assert Good(st, s);
      ChildrenDone(st, x, s);
    }
  }

  /** So nothing is left in the mailbox of an object that may finish, and nothing is promised to it. */
  lemma MailboxEmpty(st: State, x: Id)
    requires Core(st) && x < |st| && Good(st, x) && Free(st, x) && Finished(st[x].l)
    ensures st[x].mailbox == [] && st[x].promised == 0 && st[x].l.owned == {}
  {
    var m := st[x].mailbox;
    assert m == [] || m[0] in m;
    forall cmd ensures cmd !in m {
      NotLeft(st, x, cmd);
    }
  }

  lemma NotLeft(st: State, x: Id, cmd: Cmd)
    requires Core(st) && x < |st| && Good(st, x) && Free(st, x) && Finished(st[x].l)
    ensures cmd !in st[x].mailbox
  {
    NoneNumbered(st[x].mailbox, cmd);
    assert cmd in st[x].mailbox ==> Refers(st, x, cmd);
    assert multiset(st[x].mailbox)[cmd] == 0 ==> cmd !in st[x].mailbox;
    if cmd.TermReq? && IsChild(st, cmd.child, x) {
      ChildrenDone(st, x, cmd.child);
      assert Good(st, cmd.child);
    }
    if cmd.TermAck? && IsChild(st, cmd.sender, x) {
      ChildrenDone(st, x, cmd.sender);
      assert Good(st, cmd.sender);
    }
  }

  /** `t` is `st` after the finished object `x` acknowledged to its owner, if it has one, and was destroyed. */
  ghost predicate Finishing(st: State, t: State, x: Id) {
    && x < |st| == |t| && Core(st) && Good(st, x) && Free(st, x) && Finished(st[x].l)
    && t[x] == st[x].(alive := false, phase := if st[x].l.owner == None then st[x].phase else Acking)
    && forall c :: 0 <= c < |st| && c != x ==>
      t[c] == if st[x].l.owner == Some(c) then st[c].(mailbox := st[c].mailbox + [TermAck(x)]) else st[c]
  }

  lemma FinishOwners(st: State, t: State, x: Id, i: Id)
    requires Finishing(st, t, x) && i < |st| && Good(st, i)
    ensures LinkedAt(t, i) && LaunchOk(t, i) && Waiting(t, i) == Waiting(st, i)
    ensures forall c :: 0 <= c < |st| ==> t[c].l == st[c].l
  {
    SameWaiting(st, t, i);
  }

  lemma FinishRefers(st: State, t: State, x: Id, i: Id)
    requires Finishing(st, t, x) && i < |st| && Good(st, i)
    ensures RefersOk(t, i)
  {
    FinishOwners(st, t, x, i);
    forall cmd | cmd in t[i].mailbox ensures cmd in st[i].mailbox || (Refers(t, i, cmd) && cmd != Term) {
      AppendFrame(x, st[i].mailbox, TermAck(x));
    }
    RefersFrame(st, t, i);
  }

  lemma FinishCounts(st: State, t: State, x: Id, i: Id)
    requires Finishing(st, t, x) && i < |st| && Good(st, i)
    ensures CountsOk(t[i], |Waiting(t, i)|)
  {
    FinishOwners(st, t, x, i);
    MailboxEmpty(st, x);
    AppendFrame(x, st[i].mailbox, TermAck(x));
  }

  /** The finished object as its owner sees it from now on. */
  lemma FinishedChild(x: Id, o: Object, p: Object, o': Object, p': Object)
    requires ChildOk(x, o, p) && o.alive && o.l.terminating
    requires o' == o.(alive := false, phase := Acking) && p' == p.(mailbox := p.mailbox + [TermAck(x)])
    ensures ChildOk(x, o', p')
  {
    AppendFrame(x, p.mailbox, TermAck(x));
  }

  lemma FinishChild(st: State, t: State, x: Id, i: Id)
    requires Finishing(st, t, x) && i < |st| && Good(st, i) && LinkedAt(t, i)
    ensures ChildAt(t, i)
  {
    FinishOwners(st, t, x, i);
    if st[i].l.owner.Some? {
      var q := st[i].l.owner.value;
      if i == x {
        FinishedChild(x, st[x], st[q], t[x], t[q]);
      } else if q == x {
        ChildrenDone(st, x, i);
      } else {
        ChildBeside(i, st[i], st[q], t[i], t[q], TermAck(x));
      }
    }
  }

  lemma FinishKeeps(st: State, t: State, x: Id)
    requires Finishing(st, t, x) && InvBut(st, x)
    ensures Inv(t)
  {
    forall i | 0 <= i < |t| ensures Good(t, i) && Pending(t[i]) {
      assert Good(st, i) && (i != x ==> Pending(st[i]));
      FinishOwners(st, t, x, i);
      FinishRefers(st, t, x, i);
      FinishCounts(st, t, x, i);
      FinishChild(st, t, x, i);
    }
  }

  // ---- The whole protocol

  lemma CheckKeeps(st: State, x: Id)
    requires InvBut(st, x) && Free(st, x) && Good(st, x)
    ensures Inv(Check(st, x))
  {
    if Finished(st[x].l) { FinishKeeps(st, Check(st, x), x); }
  }

  lemma AfterIsHandling(st: State, x: Id, cmd: Cmd, rest: seq<Cmd>)
    requires Core(st) && Free(st, x) && Good(st, x) && Receives(st[x], cmd, rest)
    ensures Handling(st, After(st, x, cmd, rest), x, cmd, rest)
  {
    AfterEach(st, x, cmd, rest);
  }

  lemma AfterEach(st: State, x: Id, cmd: Cmd, rest: seq<Cmd>)
    requires x < |st|
    ensures var t := After(st, x, cmd, rest);
      && |t| == |st|
      && t[x] == st[x].(l := Handle(st[x].l, cmd), mailbox := rest)
      && forall c :: 0 <= c < |st| && c != x ==> t[c] == ChildAfter(c, st[c], st[x].l, cmd)
  {
  }

  lemma HandleAndCheckKeeps(st: State, x: Id, cmd: Cmd, rest: seq<Cmd>)
    requires Inv(st) && Free(st, x) && Good(st, x) && Receives(st[x], cmd, rest)
    ensures LinkedAt(After(st, x, cmd, rest), x)
    ensures Inv(Check(After(st, x, cmd, rest), x))
  {
    var t := After(st, x, cmd, rest);
    AfterIsHandling(st, x, cmd, rest);
    HandlingKeeps(st, t, x, cmd, rest);
    assert Good(t, x);
    CheckKeeps(t, x);
  }

  lemma StepKeepsInv(st: State, s: Step)
    requires Inv(st) && Enabled(st, s) && (s.NewRoot? || Good(st, s.x))
    ensures Inv(Apply(st, s))
  {
    match s
    case NewRoot => NewRootKeeps(st);
    case Launch(x, sibling) => LaunchKeeps(st, x, sibling);
    case Offer(x) => OfferStepKeeps(st, x);
    case Promise(x) => PromiseStepKeeps(st, x);
    case Deliver(x) => DeliverStepKeeps(st, x);
    case Terminate(x) => TerminateKeeps(st, x);
    case Process(x) => HandleAndCheckKeeps(st, x, st[x].mailbox[0], st[x].mailbox[1..]);
  }

  lemma PromiseStepKeeps(st: State, x: Id)
    requires Inv(st) && Enabled(st, Promise(x)) && Good(st, x)
    ensures Inv(Apply(st, Promise(x)))
  {
    var t := Apply(st, Promise(x));
    forall i | 0 <= i < |t| ensures Good(t, i) && Pending(t[i]) {
      assert Good(st, i) && Pending(st[i]);
      PromiseKeeps(st, t, x, i);
    }
  }

  lemma DeliverStepKeeps(st: State, x: Id)
    requires Inv(st) && Enabled(st, Deliver(x)) && Good(st, x)
    ensures Inv(Apply(st, Deliver(x)))
  {
    var t := Apply(st, Deliver(x));
    forall i | 0 <= i < |t| ensures Good(t, i) && Pending(t[i]) {
      assert Good(st, i) && Pending(st[i]);
      DeliverKeeps(st, t, x, i);
    }
  }

  lemma OfferIsOffering(st: State, x: Id)
    requires Core(st) && Enabled(st, Offer(x)) && Good(st, x)
    ensures var o := st[x].launching.value; Offering(st, Apply(st, Offer(x)), x, o, st[o].l.owner.value)
  {
    var o := st[x].launching.value;
    assert Good(st, o) && Good(st, st[o].l.owner.value);
  }

  lemma OfferStepKeeps(st: State, x: Id)
    requires Inv(st) && Enabled(st, Offer(x)) && Good(st, x)
    ensures Inv(Apply(st, Offer(x)))
  {
    var t := Apply(st, Offer(x));
    var o := st[x].launching.value;
    var p := st[o].l.owner.value;
    OfferIsOffering(st, x);
    forall i | 0 <= i < |t| ensures Good(t, i) && Pending(t[i]) {
      assert Good(st, i) && Pending(st[i]);
      OfferKeeps(st, t, x, o, p, i);
    }
  }

  lemma TerminateKeeps(st: State, x: Id)
    requires Inv(st) && Enabled(st, Terminate(x)) && Good(st, x)
    ensures Inv(Apply(st, Terminate(x)))
  {
    if !st[x].l.terminating {
      if st[x].l.owner == None {
        HandleAndCheckKeeps(st, x, Term, st[x].mailbox);
      } else {
        var p := st[x].l.owner.value;
        var t := Post(st, p, TermReq(x));
        assert Good(st, p);
        forall i | 0 <= i < |t| ensures Good(t, i) && Pending(t[i]) {
          assert Good(st, i) && Pending(st[i]);
          RequestKeeps(st, t, x, p, i);
        }
      }
    }
  }

  /** The system after a schedule of steps; None when some step was not enabled. */
  ghost function Run(steps: seq<Step>): Option<State> {
    if steps == [] then Some([])
    else
      var s := steps[|steps| - 1];
      match Run(steps[..|steps| - 1])
      case None => None
      case Some(st) => if Enabled(st, s) && (s.NewRoot? || LinkedAt(st, s.x)) then Some(Apply(st, s)) else None
  }

  lemma {:induction false} EveryRunKeepsInv(steps: seq<Step>)
    requires Run(steps).Some?
    ensures Inv(Run(steps).value)
  {
    if steps != [] {
      EveryRunKeepsInv(steps[..|steps| - 1]);
      var s := steps[|steps| - 1];
      var st := Run(steps[..|steps| - 1]).value;
      assert s.NewRoot? || Good(st, s.x);
      StepKeepsInv(st, s);
    }
  }

  /** In every run no handler's assertion can fail at the next command. */
  lemma AssertionsHold(steps: seq<Step>, x: Id)
    requires Run(steps).Some? && Enabled(Run(steps).value, Process(x))
    ensures var o := Run(steps).value[x]; Asserted(o.l, o.mailbox[0])
  {
    EveryRunKeepsInv(steps);
    var st := Run(steps).value;
    assert Good(st, x);
    HandlerAssertions(st, x, st[x].mailbox[0], st[x].mailbox[1..]);
  }

  /**
   * In every run each object was told to terminate at most once; a destroyed object has an empty
   * mailbox and nothing promised to it, and all its children were destroyed before it; a live
   * object's owner is alive.
   */
  lemma DestroyedLast(steps: seq<Step>, x: Id)
    requires Run(steps).Some? && x < |Run(steps).value|
    ensures var st := Run(steps).value;
      && st[x].terms <= 1
      && (!st[x].alive ==> st[x].mailbox == [] && st[x].promised == 0)
      && (!st[x].alive ==> forall c: Id :: IsChild(st, c, x) ==> !st[c].alive)
      && (st[x].alive && st[x].l.owner.Some? ==> st[x].l.owner.value < x && st[st[x].l.owner.value].alive)
  {
    EveryRunKeepsInv(steps);
    var st := Run(steps).value;
    assert Good(st, x);
    forall c: Id | IsChild(st, c, x) && !st[x].alive ensures !st[c].alive {
      assert Good(st, c);
    }
  }

  /** A destroyed object stays as it is, but for its owner's taking note of the acknowledgement: nothing reaches it any more. */
  lemma DestroyedOnce(steps: seq<Step>, s: Step, x: Id)
    requires Run(steps).Some? && Run(steps + [s]).Some? && x < |Run(steps).value| && !Run(steps).value[x].alive
    ensures x < |Run(steps + [s]).value|
    ensures var o, o' := Run(steps).value[x], Run(steps + [s]).value[x];
      o' == o || o' == o.(phase := Done)
  {
    EveryRunKeepsInv(steps);
    assert (steps + [s])[..|steps|] == steps;
    var st := Run(steps).value;
    assert Good(st, x) && (s.NewRoot? || Good(st, s.x));
    DeadStays(st, s, x);
  }

  lemma DeadStays(st: State, s: Step, x: Id)
    requires Core(st) && Enabled(st, s) && x < |st| && Good(st, x) && !st[x].alive
    requires s.NewRoot? || Good(st, s.x)
    ensures x < |Apply(st, s)|
    ensures var o' := Apply(st, s)[x]; o' == st[x] || o' == st[x].(phase := Done)
  {
    match s
    case Process(y) => DeadUntouchedBy(st, y, st[y].mailbox[0], st[y].mailbox[1..], x);
    case Terminate(y) =>
      if st[y].l.owner == None && !st[y].l.terminating {
        DeadUntouchedBy(st, y, Term, st[y].mailbox, x);
      } else {
        DeadUntouched(st, s, x);
      }
    case _ => DeadUntouched(st, s, x);
  }

  lemma DeadUntouchedBy(st: State, y: Id, cmd: Cmd, rest: seq<Cmd>, x: Id)
    requires Core(st) && Free(st, y) && Good(st, y) && Receives(st[y], cmd, rest)
    requires x < |st| && Good(st, x) && !st[x].alive
    ensures LinkedAt(After(st, y, cmd, rest), y) && |Check(After(st, y, cmd, rest), y)| == |st|
    ensures var o' := Check(After(st, y, cmd, rest), y)[x]; o' == st[x] || o' == st[x].(phase := Done)
  {
    AfterIsHandling(st, y, cmd, rest);
    HandlingLaunches(st, After(st, y, cmd, rest), y, cmd, rest, y);
    Concerned(st, y, cmd, rest, x);
    if st[y].l.owner.Some? { assert Good(st, st[y].l.owner.value); }
  }

  lemma DeadUntouched(st: State, s: Step, x: Id)
    requires Core(st) && Enabled(st, s) && x < |st| && Good(st, x) && !st[x].alive
    requires s.NewRoot? || Good(st, s.x)
    requires !s.Process? && !(s.Terminate? && st[s.x].l.owner == None && !st[s.x].l.terminating)
    ensures x < |Apply(st, s)| && Apply(st, s)[x] == st[x]
  {
    if s.Offer? {
      OfferIsOffering(st, s.x);
    }
  }

  /** No command is on its way and no object is inside a launch. */
  ghost predicate Quiet(st: State) {
    forall x :: 0 <= x < |st| ==> st[x].mailbox == [] && st[x].promised == 0 && st[x].launching == None
  }

  /** With nothing in flight no live object is still terminating: it would wait for a younger one, and so on. */
  lemma {:induction false} QuietMeansDone(st: State, x: Id)
    requires Inv(st) && Quiet(st) && x < |st|
    ensures st[x].alive ==> !st[x].l.terminating
    decreases |st| - x
  {
    assert Good(st, x) && Pending(st[x]);
    if st[x].alive && st[x].l.terminating {
      var c :| c in Waiting(st, x);
      assert Good(st, c);
      assert multiset(st[x].mailbox)[TermAck(c)] == 0;
      QuietMeansDone(st, c);
    }
  }

  ghost predicate InTree(st: State, root: Id, x: Id)
    decreases x
  {
    x == root || (x < |st| && st[x].l.owner.Some? && st[x].l.owner.value < x && InTree(st, root, st[x].l.owner.value))
  }

  /** When a root was terminated and nothing is in flight, its whole tree is gone. */
  lemma {:induction false} WholeTreeGone(steps: seq<Step>, root: Id, x: Id)
    requires Run(steps).Some? && Quiet(Run(steps).value)
    requires x < |Run(steps).value| && root < |Run(steps).value|
    requires Run(steps).value[root].l.terminating && InTree(Run(steps).value, root, x)
    ensures !Run(steps).value[x].alive
    decreases x
  {
    EveryRunKeepsInv(steps);
    var st := Run(steps).value;
    if x == root {
      QuietMeansDone(st, root);
    } else {
      WholeTreeGone(steps, root, st[x].l.owner.value);
      assert Good(st, x);
    }
  }

  // ---- The handlers as the object runs them

  /** Each object in `told` is sent one `term`, and nothing else is sent. */
  ghost predicate TermsFor(posts: seq<(Id, Cmd)>, told: set<Id>) {
    |posts| == |told| && (forall post :: post in posts ==> post.1 == Term) && forall c :: c in told <==> (c, Term) in posts
  }

  lemma TermsForOneMore(posts: seq<(Id, Cmd)>, told: set<Id>, c: Id)
    requires TermsFor(posts, told) && c !in told
    ensures TermsFor(posts + [(c, Term)], told + {c})
  {
    forall d ensures d in told + {c} <==> (d, Term) in posts + [(c, Term)] {
      assert (d, Term) in posts + [(c, Term)] <==> (d, Term) in posts || d == c;
    }
  }

  lemma PostedOneMore<T>(before: seq<T>, posts: seq<T>, post: T)
    ensures before + posts + [post] == before + (posts + [post])
  {
  }

  class OwnObject {
    const self: Id
    var terminating: bool
    var sentSeqnum: nat
    var processedSeqnum: nat
    var owner: Option<Id>
    var owned: set<Id>
    var termAcks: int
    // The commands sent so far, and whether process_destroy ran.
    var outbox: seq<(Id, Cmd)>
    var destroyed: bool

    function View(): Local
      reads this
    {
      Local(terminating, sentSeqnum, processedSeqnum, owner, owned, termAcks)
    }

    constructor (self: Id, owner: Option<Id>)
      ensures View() == Local(false, 0, 0, owner, {}, 0) && outbox == [] && !destroyed && this.self == self
    {
      this.self, this.owner := self, owner;
      terminating, sentSeqnum, processedSeqnum, owned, termAcks := false, 0, 0, {}, 0;
      outbox, destroyed := [], false;
    }

    /** Acknowledges and destroys exactly when nothing more is to be waited for. */
    method CheckTermAcks()
      requires !destroyed && (Finished(View()) ==> owned == {})
      modifies this`outbox, this`destroyed
      ensures destroyed <==> Finished(View())
      ensures outbox == if destroyed && owner.Some? then old(outbox) + [(owner.value, TermAck(self))] else old(outbox)
    {
      if terminating && processedSeqnum == sentSeqnum && termAcks == 0 {
        if owner.Some? {
          outbox := outbox + [(owner.value, TermAck(self))];
        }
        destroyed := true;
      }
    }

    /** Sends `term` to every owned object. */
    method TellAll() returns (posts: seq<(Id, Cmd)>)
      modifies this`outbox
      ensures outbox == old(outbox) + posts && TermsFor(posts, owned)
    {
      var left := owned;
      ghost var told: set<Id> := {};
      posts := [];
      while left != {}
        invariant told + left == owned && told !! left && TermsFor(posts, told)
        invariant outbox == old(outbox) + posts
        decreases left
      {
        var c :| c in left;
        TermsForOneMore(posts, told, c);
        PostedOneMore(old(outbox), posts, (c, Term));
        left, told := left - {c}, told + {c};
        posts := posts + [(c, Term)];
        outbox := outbox + [(c, Term)];
      }
      assert told == owned;
    }

    /** Starts waiting for the acknowledgements of all owned objects. */
    method StartTermination() returns (posts: seq<(Id, Cmd)>)
      requires !terminating
      modifies this`outbox, this`owned, this`termAcks, this`terminating
      ensures View() == Handle(old(View()), Term)
      ensures outbox == old(outbox) + posts && TermsFor(posts, old(owned))
    {
      posts := TellAll();
      termAcks := termAcks + |owned|;
      owned := {};
      terminating := true;
    }

    /**
     * `process_command` for the commands of the ownership protocol: the fields change as `Handle`
     * says, the children in `ToldBy` and nobody else get one `term` each, and the object acknowledges
     * and is destroyed exactly when it has finished.
     */
    method ProcessCommand(cmd: Cmd) returns (posts: seq<(Id, Cmd)>)
      requires !destroyed && Asserted(View(), cmd) && !Finished(View())
      requires terminating ==> owned == {}
      modifies this
      ensures View() == Handle(old(View()), cmd)
      ensures TermsFor(posts, ToldBy(old(View()), cmd))
      ensures destroyed <==> Finished(View())
      ensures outbox == if destroyed && owner.Some? then old(outbox) + posts + [(owner.value, TermAck(self))] else old(outbox) + posts
    {
      posts := [];
      match cmd
      case Plug =>
        processedSeqnum := processedSeqnum + 1;
        CheckTermAcks();
      case Bind =>
        processedSeqnum := processedSeqnum + 1;
        CheckTermAcks();
      case Own(c) =>
        if terminating {
          termAcks := termAcks + 1;
          posts := [(c, Term)];
          outbox := outbox + posts;
        } else {
          owned := owned + {c};
        }
        processedSeqnum := processedSeqnum + 1;
        CheckTermAcks();
      case TermReq(c) =>
        if !terminating && c in owned {
          owned := owned - {c};
          termAcks := termAcks + 1;
          posts := [(c, Term)];
          outbox := outbox + posts;
        }
      case Term =>
        posts := StartTermination();
        CheckTermAcks();
      case TermAck(_) =>
        termAcks := termAcks - 1;
        CheckTermAcks();
    }

    /** `terminate`: a root terminates itself, anything else asks its owner, a second call does nothing. */
    method Terminate() returns (posts: seq<(Id, Cmd)>)
      requires !destroyed && !Finished(View()) && (terminating ==> owned == {})
      modifies this
      ensures old(terminating) ==> View() == old(View()) && outbox == old(outbox) && !destroyed
      ensures !old(terminating) && owner.Some? ==>
        View() == old(View()) && outbox == old(outbox) + [(owner.value, TermReq(self))] && !destroyed
      ensures !old(terminating) && old(owner) == None ==>
        View() == Handle(old(View()), Term) && outbox == old(outbox) + posts && TermsFor(posts, old(owned)) &&
        (destroyed <==> Finished(View()))
    {
      posts := [];
      if terminating { return; }
      if owner == None {
        posts := ProcessCommand(Term);
        return;
      }
      outbox := outbox + [(owner.value, TermReq(self))];
    }
  }
}
