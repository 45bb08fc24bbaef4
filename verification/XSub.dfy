/** Subscriber sockets filter whole messages: only first parts are matched, and a message found by a poll is kept for the next receive. */
module XSub {
  import opened Bytes
  import opened Wrappers
  import Trie

  /** Some stored word is a prefix of the data. */
  ghost predicate Matches(words: iset<seq<Byte>>, data: seq<Byte>) {
    exists k :: 0 <= k <= |data| && data[..k] in words
  }

  /** `input` is what the fair queue has for us; `taken` the parts taken from it and whether each was let through, `out` those handed out. */
  datatype State = State(input: seq<Message>, prefetched: Option<Message>, more: bool, taken: seq<(Message, bool)>, out: seq<Message>)

  function Init(): State { State([], None, false, [], []) }

  function Took(s: State, kept: bool): State
    requires s.input != []
  {
    s.(input := s.input[1..], taken := s.taken + [(s.input[0], kept)])
  }

  /** A message that does not match is taken to its last part. */
  function Dropped(s: State): (t: State)
    requires s.input != []
    ensures |t.input| < |s.input|
    decreases |s.input|
  {
    var t := Took(s, false);
    if HasMore(s.input[0].flags) && t.input != [] then Dropped(t) else t
  }

  /** Messages are dropped up to the first one that matches. */
  ghost function Skipped(s: State, words: iset<seq<Byte>>): State
    decreases |s.input|
  {
    if s.input == [] || Matches(words, s.input[0].body) then s else Skipped(Dropped(s), words)
  }

  /** The part at the front goes out. */
  function Given(s: State): State
    requires s.input != []
  {
    Took(s, true).(out := s.out + [s.input[0]], more := HasMore(s.input[0].flags))
  }

  ghost function AfterRecv(s: State, words: iset<seq<Byte>>): State {
    if s.prefetched.Some? then
      s.(prefetched := None, out := s.out + [s.prefetched.value], more := HasMore(s.prefetched.value.flags))
    else
      var t := if s.more then s else Skipped(s, words);
      if t.input == [] then t else Given(t)
  }

  ghost function AfterHasIn(s: State, words: iset<seq<Byte>>): State {
    if s.more || s.prefetched.Some? then s
    else
      var t := Skipped(s, words);
      if t.input == [] then t else Took(t, true).(prefetched := Some(t.input[0]))
  }

  /** Each call is made with the subscriptions of its time. */
  datatype Step = Recv(words: iset<seq<Byte>>) | HasIn(words: iset<seq<Byte>>) | Arrive(parts: seq<Message>)

  ghost predicate Enabled(step: Step) { step.Arrive? ==> Finished(step.parts) }

  ghost function Apply(s: State, step: Step): State {
    match step
    case Recv(words) => AfterRecv(s, words)
    case HasIn(words) => AfterHasIn(s, words)
    case Arrive(parts) => s.(input := s.input + parts)
  }

  ghost function Run(steps: seq<Step>): State {
    if steps == [] then Init() else Apply(Run(steps[..|steps| - 1]), steps[|steps| - 1])
  }

  ghost predicate AllEnabled(steps: seq<Step>) { forall i :: 0 <= i < |steps| ==> Enabled(steps[i]) }

  /** All parts that arrived, in order. */
  function Arrivals(steps: seq<Step>): seq<Message> {
    if steps == [] then []
    else Arrivals(steps[..|steps| - 1]) + if steps[|steps| - 1].Arrive? then steps[|steps| - 1].parts else []
  }

  // ---- The invariant

  function PartsOf(taken: seq<(Message, bool)>): seq<Message> {
    if taken == [] then [] else PartsOf(taken[..|taken| - 1]) + [taken[|taken| - 1].0]
  }

  /** The parts that were let through. */
  function Kept(taken: seq<(Message, bool)>): seq<Message> {
    if taken == [] then []
    else Kept(taken[..|taken| - 1]) + if taken[|taken| - 1].1 then [taken[|taken| - 1].0] else []
  }

  /** All parts of a message share its fate. */
  ghost predicate Uniform(taken: seq<(Message, bool)>) {
    forall i :: 0 <= i < |taken| - 1 && HasMore(taken[i].0.flags) ==> taken[i + 1].1 == taken[i].1
  }

  /** If the part at `i` is a first part, it was let through exactly when it matched. */
  ghost predicate DecidedAt(taken: seq<(Message, bool)>, i: nat, words: iset<seq<Byte>>)
    requires i < |taken|
  {
    (i == 0 || !HasMore(taken[i - 1].0.flags)) ==> (taken[i].1 <==> Matches(words, taken[i].0.body))
  }

  /** From position `k` on, exactly the messages whose first part matched were let through. */
  ghost predicate Decided(taken: seq<(Message, bool)>, k: nat, words: iset<seq<Byte>>) {
    forall i {:trigger DecidedAt(taken, i, words)} :: k <= i < |taken| ==> DecidedAt(taken, i, words)
  }

  /** The last part taken is inside a message. */
  predicate Inside(taken: seq<(Message, bool)>) { taken != [] && HasMore(taken[|taken| - 1].0.flags) }

  ghost predicate Inv(s: State) {
    && Finished(s.input)
    && Uniform(s.taken)
    && Kept(s.taken) == (if s.prefetched.Some? then s.out + [s.prefetched.value] else s.out)
    && (Inside(s.taken) ==> s.input != [] && s.taken[|s.taken| - 1].1)
    && (s.prefetched.Some? ==> !s.more && s.taken != [] && s.taken[|s.taken| - 1] == (s.prefetched.value, true))
    && (s.prefetched == None ==> (s.more <==> Inside(s.taken)))
  }

  lemma TookFacts(s: State, kept: bool)
    requires s.input != []
    ensures var t := Took(s, kept);
      && PartsOf(t.taken) + t.input == PartsOf(s.taken) + s.input
      && Kept(t.taken) == Kept(s.taken) + (if kept then [s.input[0]] else [])
      && (Finished(s.input) ==> Finished(t.input) && (HasMore(s.input[0].flags) ==> t.input != []))
      && t.taken[..|s.taken|] == s.taken
      && (Uniform(s.taken) && (Inside(s.taken) ==> kept == s.taken[|s.taken| - 1].1) ==> Uniform(t.taken))
  {
    var t := Took(s, kept);
    assert t.taken[..|s.taken|] == s.taken;
    assert PartsOf(s.taken) + [s.input[0]] + s.input[1..] == PartsOf(s.taken) + s.input by {
      assert s.input == [s.input[0]] + s.input[1..];
    }
  }

  /** What taking parts preserves, from `s` to `t`. */
  ghost predicate Follows(s: State, t: State, words: iset<seq<Byte>>) {
    && s.taken <= t.taken && Finished(t.input) && Uniform(t.taken)
    && PartsOf(t.taken) + t.input == PartsOf(s.taken) + s.input
    && Decided(t.taken, |s.taken|, words)
    && t.out == s.out && t.prefetched == s.prefetched && t.more == s.more
  }

  lemma DecidedTwice(a: seq<(Message, bool)>, b: seq<(Message, bool)>, c: seq<(Message, bool)>, words: iset<seq<Byte>>)
    requires a <= b <= c && Decided(b, |a|, words) && Decided(c, |b|, words)
    ensures Decided(c, |a|, words)
  {
    forall i | |a| <= i < |c| ensures DecidedAt(c, i, words) {
      if i < |b| {
        assert DecidedAt(b, i, words) && c[i] == b[i];
        assert i > 0 ==> c[i - 1] == b[i - 1];
      }
    }
  }

  lemma FollowsTwice(s: State, t: State, u: State, words: iset<seq<Byte>>)
    requires Follows(s, t, words) && Follows(t, u, words)
    ensures Follows(s, u, words)
  {
    DecidedTwice(s.taken, t.taken, u.taken, words);
  }

  lemma TookFollows(s: State, kept: bool, words: iset<seq<Byte>>)
    requires Finished(s.input) && s.input != [] && Uniform(s.taken)
    requires if Inside(s.taken) then kept == s.taken[|s.taken| - 1].1 else kept <==> Matches(words, s.input[0].body)
    ensures Follows(s, Took(s, kept), words)
  {
    TookFacts(s, kept);
  }

  lemma {:induction false} DroppedFollows(s: State, words: iset<seq<Byte>>)
    requires Finished(s.input) && s.input != [] && Uniform(s.taken)
    requires if Inside(s.taken) then !s.taken[|s.taken| - 1].1 else !Matches(words, s.input[0].body)
    ensures var t := Dropped(s); Follows(s, t, words) && !Inside(t.taken) && Kept(t.taken) == Kept(s.taken)
    decreases |s.input|
  {
    var t := Took(s, false);
    TookFacts(s, false);
    TookFollows(s, false, words);
    if HasMore(s.input[0].flags) {
      DroppedFollows(t, words);
      FollowsTwice(s, t, Dropped(s), words);
    }
  }

  lemma {:induction false} SkippedFollows(s: State, words: iset<seq<Byte>>)
    requires Finished(s.input) && Uniform(s.taken) && !Inside(s.taken)
    ensures var t := Skipped(s, words);
      && Follows(s, t, words) && !Inside(t.taken) && Kept(t.taken) == Kept(s.taken)
      && (t.input != [] ==> Matches(words, t.input[0].body))
    decreases |s.input|
  {
    if s.input != [] && !Matches(words, s.input[0].body) {
      DroppedFollows(s, words);
      SkippedFollows(Dropped(s), words);
      FollowsTwice(s, Dropped(s), Skipped(s, words), words);
    }
  }

  /** The next part to let through, after the messages that do not match. */
  ghost predicate Next(s: State, u: State, words: iset<seq<Byte>>) {
    && Follows(s, u, words) && Kept(u.taken) == Kept(s.taken)
    && (if Inside(u.taken) then u.input != [] && u.taken[|u.taken| - 1].1 else u.input != [] ==> Matches(words, u.input[0].body))
  }

  lemma NextTaken(s: State, u: State, words: iset<seq<Byte>>)
    requires Next(s, u, words) && u.input != []
    ensures var t := Took(u, true);
      && Follows(s, t, words) && Kept(t.taken) == Kept(s.taken) + [u.input[0]]
      && (HasMore(u.input[0].flags) ==> t.input != [])
  {
    TookFacts(u, true);
    TookFollows(u, true, words);
    FollowsTwice(s, u, Took(u, true), words);
  }

  lemma RecvKeepsInv(s: State, words: iset<seq<Byte>>)
    requires Inv(s)
    ensures var t := AfterRecv(s, words);
      && Inv(t) && s.taken <= t.taken && Decided(t.taken, |s.taken|, words)
      && PartsOf(t.taken) + t.input == PartsOf(s.taken) + s.input
  {
    if s.prefetched == None {
      FindNext(s, words);
      var u := if s.more then s else Skipped(s, words);
      if u.input != [] { NextTaken(s, u, words); }
    }
  }

  lemma FindNext(s: State, words: iset<seq<Byte>>)
    requires Inv(s) && s.prefetched == None
    ensures Next(s, if s.more then s else Skipped(s, words), words)
  {
    if !s.more { SkippedFollows(s, words); }
  }

  lemma HasInKeepsInv(s: State, words: iset<seq<Byte>>)
    requires Inv(s)
    ensures var t := AfterHasIn(s, words);
      && Inv(t) && s.taken <= t.taken && Decided(t.taken, |s.taken|, words)
      && PartsOf(t.taken) + t.input == PartsOf(s.taken) + s.input
  {
    if s.prefetched == None && !s.more {
      SkippedFollows(s, words);
      var u := Skipped(s, words);
      assert Next(s, u, words);
      if u.input != [] { NextTaken(s, u, words); }
    }
  }

  lemma StepKeepsInv(s: State, step: Step)
    requires Inv(s) && Enabled(step)
    ensures var t := Apply(s, step);
      && Inv(t) && s.taken <= t.taken
      && PartsOf(t.taken) + t.input == PartsOf(s.taken) + s.input + if step.Arrive? then step.parts else []
  {
    match step
    case Recv(words) => RecvKeepsInv(s, words);
    case HasIn(words) => HasInKeepsInv(s, words);
    case Arrive(parts) => assert PartsOf(s.taken) + (s.input + parts) == PartsOf(s.taken) + s.input + parts;
  }

  /**
   * For any mix of receives and polls: the parts taken and those still to come are what arrived, in
   * order; what was handed out, and the part kept by a poll, are the parts taken that were let through;
   * and all parts of a message share its fate.
   */
  lemma {:induction false} WholeMessages(steps: seq<Step>)
    requires AllEnabled(steps)
    ensures var s := Run(steps);
      && Inv(s)
      && PartsOf(s.taken) + s.input == Arrivals(steps)
      && Kept(s.taken) == (if s.prefetched.Some? then s.out + [s.prefetched.value] else s.out)
      && Uniform(s.taken)
  {
    if steps != [] {
      var n := |steps| - 1;
      assert AllEnabled(steps[..n]);
      WholeMessages(steps[..n]);
      StepKeepsInv(Run(steps[..n]), steps[n]);
    }
  }

  /** With the same subscriptions throughout, the messages let through are exactly those whose first part matches. */
  lemma {:induction false} FilteredByFirstPart(steps: seq<Step>, words: iset<seq<Byte>>)
    requires AllEnabled(steps)
    requires forall i :: 0 <= i < |steps| && !steps[i].Arrive? ==> steps[i].words == words
    ensures Decided(Run(steps).taken, 0, words)
  {
    if steps != [] {
      var n := |steps| - 1;
      assert AllEnabled(steps[..n]);
      FilteredByFirstPart(steps[..n], words);
      WholeMessages(steps[..n]);
      var s, t := Run(steps[..n]), Run(steps);
      match steps[n]
      case Recv(w) =>
        RecvKeepsInv(s, words);
        DecidedTwice([], s.taken, t.taken, words);
      case HasIn(w) =>
        HasInKeepsInv(s, words);
        DecidedTwice([], s.taken, t.taken, words);
      case Arrive(_) =>
    }
  }

  /**
   * After a poll that said yes the next receive gets a part, whatever the subscriptions have become; after
   * one that said no everything that had arrived was taken.
   */
  lemma PollKeepsItsWord(s: State, words: iset<seq<Byte>>, later: iset<seq<Byte>>)
    requires Inv(s)
    ensures var t := AfterHasIn(s, words);
      && Inv(t) && t.out == s.out
      && (t.more || t.prefetched.Some? <==> |AfterRecv(t, later).out| == |t.out| + 1)
      && (!t.more && t.prefetched == None ==> t.input == [])
  {
    HasInKeepsInv(s, words);
    RecvKeepsInv(AfterHasIn(s, words), later);
    if s.prefetched == None && !s.more { SkippedFollows(s, words); }
  }

  /** In the middle of dropping the first message of `from`: `last` was taken just before. */
  ghost predicate Dropping(from: State, s: State, last: Message) {
    from.input != [] && if HasMore(last.flags) && s.input != [] then Dropped(s) == Dropped(from) else s == Dropped(from)
  }

  // ---- The socket object

  class XSub {
    const subscriptions: Trie.Node
    // What the fair queue hands out next.
    var input: seq<Message>
    var hasMessage: bool
    var message: Message
    var more: bool
    ghost var taken: seq<(Message, bool)>
    ghost var out: seq<Message>

    ghost predicate Valid()
      reads this, subscriptions, subscriptions.Repr
    {
      subscriptions.Valid() && Inv(View())
    }

    ghost function View(): State
      reads this
    {
      State(input, if hasMessage then Some(message) else None, more, taken, out)
    }

    ghost function Words(): iset<seq<Byte>>
      requires subscriptions.Valid()
      reads subscriptions, subscriptions.Repr
    {
      iset w | subscriptions.Copies(w) > 0
    }

    constructor ()
      ensures Valid() && View() == Init() && fresh(subscriptions.Repr)
      ensures Words() == iset{}
    {
      subscriptions := new Trie.Node();
      input, hasMessage, message, more := [], false, Message(126, []), false;
      taken, out := [], [];
    }

    method Match(m: Message) returns (matches: bool)
      requires subscriptions.Valid()
      ensures matches <==> Matches(Words(), m.body)
    {
      matches := subscriptions.Check(m.body);
    }

    /** A subscription or an unsubscription; anything else is dropped, and so is an unsubscription without a subscription. */
    method Send(data: seq<Byte>)
      requires Valid()
      modifies subscriptions, subscriptions.Repr
      ensures Valid()
      ensures data != [] && data[0] == 1 ==>
        forall w :: subscriptions.Copies(w) == old(subscriptions.Copies(w)) + if w == data[1..] then 1 else 0
      ensures data != [] && data[0] == 0 ==>
        forall w :: subscriptions.Copies(w) == old(subscriptions.Copies(w)) - if w == data[1..] && old(subscriptions.Copies(w)) > 0 then 1 else 0
      ensures data == [] || data[0] > 1 ==> forall w :: subscriptions.Copies(w) == old(subscriptions.Copies(w))
    {
      if |data| >= 1 {
        if data[0] == 1 {
          subscriptions.Add(data[1..]);
        } else if data[0] == 0 {
          var _ := subscriptions.Rm(data[1..]);
        }
      }
    }

    /** The peer published some whole messages. */
    method Arrive(parts: seq<Message>)
      requires Valid() && Finished(parts)
      modifies `input
      ensures Valid() && View() == Apply(old(View()), Step.Arrive(parts))
    {
      StepKeepsInv(View(), Step.Arrive(parts));
      input := input + parts;
    }

    /** The receive from the fair queue; `kept` is what will be decided about the part. */
    method Take(ghost kept: bool) returns (m: Message)
      requires input != []
      modifies `input, `taken
      ensures View() == Took(old(View()), kept) && m == old(input)[0]
    {
      m := input[0];
      taken := taken + [(m, kept)];
      input := input[1..];
    }

    /** Takes the remaining parts of a message whose part `first` did not match. */
    method DropRest(first: Message, ghost from: State)
      requires Finished(input) && (HasMore(first.flags) ==> input != [])
      requires Dropping(from, View(), first)
      modifies `input, `taken
      ensures View() == Dropped(from) && Finished(input)
    {
      var m := first;
      while HasMore(m.flags)
        invariant Finished(input) && (HasMore(m.flags) ==> input != []) && Dropping(from, View(), m)
        decreases |input|, HasMore(m.flags)
      {
        m := Take(false);
      }
    }

    /** Takes messages from the fair queue up to the first one that matches; None when there is none. */
    method NextMatching() returns (m: Option<Message>)
      requires subscriptions.Valid() && Finished(input)
      modifies `input, `taken
      ensures var t := Skipped(old(View()), Words());
        if t.input == [] then m == None && View() == t else m == Some(t.input[0]) && View() == Took(t, true)
    {
      ghost var words := Words();
      while input != []
        invariant Finished(input) && Skipped(View(), words) == Skipped(old(View()), words)
        invariant unchanged(`hasMessage, `message, `more, `out)
        decreases |input|
      {
        var matches := Match(input[0]);
        ghost var s := View();
        var part := Take(matches);
        if matches {
          return Some(part);
        }
        DropRest(part, s);
      }
      m := None;
    }

    method Recv() returns (m: Option<Message>)
      requires Valid()
      modifies this
      ensures Valid() && View() == AfterRecv(old(View()), Words())
      ensures m.Some? ==> out == old(out) + [m.value]
      ensures m == None ==> out == old(out) && input == []
    {
      RecvKeepsInv(View(), Words());
      if hasMessage {
        m := RecvPrefetched();
      } else {
        m := RecvFresh();
      }
    }

    method RecvPrefetched() returns (m: Option<Message>)
      requires subscriptions.Valid() && hasMessage
      modifies `hasMessage, `more, `out
      ensures View() == AfterRecv(old(View()), Words())
      ensures m == Some(message) && out == old(out) + [message]
    {
      m := Some(message);
      hasMessage := false;
      HandOut(message);
    }

    /** Receives past the prefetched message. */
    method RecvFresh() returns (m: Option<Message>)
      requires subscriptions.Valid() && Finished(input) && !hasMessage && (more ==> input != [])
      modifies `input, `taken, `more, `out
      ensures View() == AfterRecv(old(View()), Words())
      ensures m.Some? ==> out == old(out) + [m.value]
      ensures m == None ==> out == old(out) && input == []
    {
      if more {
        var part := Take(true);
        m := Some(part);
      } else {
        m := NextMatching();
      }
      if m.Some? {
        HandOut(m.value);
      }
    }

    method HandOut(m: Message)
      modifies `more, `out
      ensures View() == old(View()).(more := HasMore(m.flags), out := old(out) + [m])
    {
      more := HasMore(m.flags);
      out := out + [m];
    }

    /** True exactly when the next receive will get something. */
    method HasIn() returns (has: bool)
      requires Valid()
      modifies this
      ensures Valid() && View() == AfterHasIn(old(View()), Words())
      ensures has <==> more || hasMessage
      ensures !has ==> input == []
    {
      HasInKeepsInv(View(), Words());
      if more {
        return true;
      }
      if hasMessage {
        return true;
      }
      has := Prefetch();
    }

    /** Keeps the next message that matches for the next receive. */
    method Prefetch() returns (has: bool)
      requires subscriptions.Valid() && Finished(input) && !more && !hasMessage
      modifies `input, `taken, `message, `hasMessage
      ensures View() == AfterHasIn(old(View()), Words())
      ensures has <==> hasMessage
      ensures !has ==> input == []
    {
      var m := NextMatching();
      if m == None {
        return false;
      }
      message := m.value;
      hasMessage := true;
      has := true;
    }
  }
}
