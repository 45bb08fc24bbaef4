/**
 * The single-producer, single-consumer pipe. Queue elements are named by their position in write
 * order; a position stands for the element's address, and addresses of live elements are distinct
 * (module YQueue). Each step touches the shared pointer `c` at most once.
 */
module YPipe {
  import opened Wrappers

  datatype Ptr = Null | At(pos: nat)

  datatype Item<T> = Item(value: T, incomplete: bool)

  /** The writer is between two calls, or inside `flush` after its compare-and-swap failed. */
  datatype WriterPc = Between | MustStore

  datatype Pipe<T> = Pipe(
    items: seq<Item<T>>,  // everything written and not unwritten; the terminator is at |items|
    head: nat,            // the front of the queue
    w: nat, f: nat,       // first un-flushed item, first item to be flushed in the future
    r: Ptr, c: Ptr,       // first un-prefetched item, the shared pointer
    writer: WriterPc,
    got: seq<T>,          // history: what the reader took
    sleeps: nat,          // history: how often the reader set c to NULL
    wakes: nat)           // history: how often flush returned false
  {
    function Back(): nat { |items| }

    /** A position right after a complete item (or the start). */
    ghost predicate Boundary(pos: nat) {
      pos <= |items| && (pos == 0 || !items[pos - 1].incomplete)
    }

    ghost predicate Inv() {
      && head <= w <= f <= |items|
      && Boundary(w) && Boundary(f)
      && (forall i :: f <= i < |items| ==> items[i].incomplete)
      && (c == Null || c == At(w))
      && (r.At? ==> head <= r.pos <= w && Boundary(r.pos))
      && (c == Null ==> head == w)
      && (writer == MustStore ==> c == Null && w < f)
      && got == Values(items[..head])
      && sleeps == wakes + if c == Null then 1 else 0
    }

    /** What `check_read` tests: an item was prefetched and not taken yet. */
    predicate HasItem() { r.At? && r.pos != head }

    function WriteStep(v: T, incomplete: bool): Pipe<T> {
      this.(items := items + [Item(v, incomplete)], f := if incomplete then f else |items| + 1)
    }

    predicate CanUnwrite() { f != Back() }

    function UnwriteStep(): Pipe<T>
      requires CanUnwrite() && items != []
    {
      this.(items := items[..|items| - 1])
    }

    /** The compare-and-swap of `flush`: publishes when `c` is `w`, else the plain store is still to come. */
    function TryPublishStep(): Pipe<T> {
      if w == f then this
      else if c == At(w) then this.(c := At(f), w := f)
      else this.(writer := MustStore)
    }

    /** The plain store after a failed compare-and-swap; `flush` returns false. */
    function StoreStep(): Pipe<T> {
      this.(c := At(f), w := f, writer := Between, wakes := wakes + 1)
    }

    /** The compare-and-swap of `check_read`, when nothing is prefetched. */
    function PrefetchStep(): Pipe<T> {
      if HasItem() then this
      else if c == At(head) then this.(r := c, c := Null, sleeps := sleeps + 1)
      else this.(r := c)
    }

    function TakeStep(): Pipe<T>
      requires head < |items|
    {
      this.(head := head + 1, got := got + [items[head].value])
    }
  }

  function Values<T>(items: seq<Item<T>>): seq<T> {
    if items == [] then [] else Values(items[..|items| - 1]) + [items[|items| - 1].value]
  }

  function Empty<T>(): Pipe<T> {
    Pipe([], 0, 0, 0, At(0), At(0), Between, [], 0, 0)
  }

  /** One atomic step of the writer or of the reader. */
  datatype Step<T> = Write(v: T, incomplete: bool) | Unwrite | TryPublish | Store | Prefetch | Take

  predicate IsReader<T>(s: Step<T>) { s.Prefetch? || s.Take? }

  ghost predicate Enabled<T>(p: Pipe<T>, s: Step<T>) {
    match s
    case Write(_, _) => p.writer == Between
    case Unwrite => p.writer == Between && p.CanUnwrite() && p.items != []
    case TryPublish => p.writer == Between
    case Store => p.writer == MustStore
    case Prefetch => true
    case Take => p.HasItem() && p.head < |p.items|
  }

  ghost function Apply<T>(p: Pipe<T>, s: Step<T>): Pipe<T>
    requires Enabled(p, s)
  {
    match s
    case Write(v, incomplete) => p.WriteStep(v, incomplete)
    case Unwrite => p.UnwriteStep()
    case TryPublish => p.TryPublishStep()
    case Store => p.StoreStep()
    case Prefetch => p.PrefetchStep()
    case Take => p.TakeStep()
  }

  /** The pipe after a schedule of steps; None when some step was not enabled. */
  ghost function Run<T>(steps: seq<Step<T>>): Option<Pipe<T>> {
    if steps == [] then Some(Empty())
    else
      var s := steps[|steps| - 1];
      match Run(steps[..|steps| - 1])
      case None => None
      case Some(p) => if Enabled(p, s) then Some(Apply(p, s)) else None
  }

  /** The writer's own account of a schedule: what it wrote, less what it took back. */
  function Log<T>(steps: seq<Step<T>>): seq<Item<T>> {
    if steps == [] then []
    else
      var log := Log(steps[..|steps| - 1]);
      match steps[|steps| - 1]
      case Write(v, incomplete) => log + [Item(v, incomplete)]
      case Unwrite => if log == [] then log else log[..|log| - 1]
      case _ => log
  }

  lemma StepKeepsInv<T>(p: Pipe<T>, s: Step<T>)
    requires p.Inv() && Enabled(p, s)
    ensures Apply(p, s).Inv()
  {
    if IsReader(s) {
      ReaderStepKeepsInv(p, s);
    } else if s.Write? || s.Unwrite? {
      WriterStepKeepsInv(p, s);
    } else {
      FlushStepKeepsInv(p, s);
    }
  }

  lemma WriterStepKeepsInv<T>(p: Pipe<T>, s: Step<T>)
    requires p.Inv() && Enabled(p, s) && (s.Write? || s.Unwrite?)
    ensures Apply(p, s).Inv()
  {
    assert Apply(p, s).items[..p.head] == p.items[..p.head];
  }

  lemma FlushStepKeepsInv<T>(p: Pipe<T>, s: Step<T>)
    requires p.Inv() && Enabled(p, s) && (s.TryPublish? || s.Store?)
    ensures Apply(p, s).Inv()
  {
  }

  lemma ReaderStepKeepsInv<T>(p: Pipe<T>, s: Step<T>)
    requires p.Inv() && Enabled(p, s) && IsReader(s)
    ensures Apply(p, s).Inv()
  {
    if s.Take? { assert p.items[..p.head + 1][..p.head] == p.items[..p.head]; }
  }

  lemma {:induction false} EveryRunKeepsInv<T>(steps: seq<Step<T>>)
    requires Run(steps).Some?
    ensures Run(steps).value.Inv() && Run(steps).value.items == Log(steps)
  {
    if steps != [] {
      EveryRunKeepsInv(steps[..|steps| - 1]);
      StepKeepsInv(Run(steps[..|steps| - 1]).value, steps[|steps| - 1]);
    }
  }

  /**
   * In every interleaving `c` is NULL or the published position, and the reader has got a prefix, in
   * write order, of the flushed items; both the published and the prefetched part end with a complete item.
   * The reader went to sleep once for each flush that returned false, and once more while it sleeps.
   */
  lemma EveryRunIsSafe<T>(steps: seq<Step<T>>)
    requires Run(steps).Some?
    ensures var p := Run(steps).value;
      && p.items == Log(steps) && p.w <= |p.items|
      && (p.c == Null || p.c == At(p.w))
      && p.got <= Values(p.items[..p.w])
      && p.Boundary(p.w) && (p.r.At? ==> p.Boundary(p.r.pos))
      && p.sleeps == p.wakes + if p.c == Null then 1 else 0
  {
    EveryRunKeepsInv(steps);
    var p := Run(steps).value;
    ValuesPrefix(p.items[..p.w], p.head);
    assert p.items[..p.w][..p.head] == p.items[..p.head];
  }

  lemma {:induction false} ValuesPrefix<T>(items: seq<Item<T>>, n: nat)
    requires n <= |items|
    ensures Values(items[..n]) <= Values(items)
  {
    if n < |items| {
      ValuesPrefix(items[..|items| - 1], n);
      assert items[..|items| - 1][..n] == items[..n];
    } else {
      assert items[..n] == items;
    }
  }

  /**
   * Between the failed compare-and-swap and the plain store no reader step changes `c` or takes an
   * item, so the store overwrites nothing.
   */
  lemma StoreOverwritesNothing<T>(p: Pipe<T>, s: Step<T>)
    requires p.Inv() && p.writer == MustStore && IsReader(s) && Enabled(p, s)
    ensures var q := Apply(p, s);
      q.c == p.c == Null && q.head == p.head && q.writer == MustStore && q.sleeps == p.sleeps
  {
  }

  /** After `check_read` an item is available exactly when a flushed item is unread; asleep means none is. */
  lemma CheckReadSeesFlushed<T>(p: Pipe<T>)
    requires p.Inv()
    ensures p.PrefetchStep().HasItem() <==> p.head < p.w
    ensures p.PrefetchStep().c == Null <==> p.head == p.w
  {
  }

  /** `flush` answers false exactly when the reader sleeps and there is something to publish. */
  lemma FlushAnswer<T>(p: Pipe<T>)
    requires p.Inv() && p.writer == Between
    ensures var q := p.TryPublishStep();
      (q.writer == MustStore <==> p.c == Null && p.w != p.f)
      && (q.writer == Between ==> q.w == p.f)
  {
  }

  /** The pipe object. `flush` is given as its two atomic halves, so that a reader may run in between. */
  class YPipe<T(0)> {
    var items: seq<Item<T>>
    var head: nat
    var w: nat
    var f: nat
    var r: Ptr
    var c: Ptr
    ghost var writer: WriterPc
    ghost var got: seq<T>
    ghost var sleeps: nat
    ghost var wakes: nat

    ghost function View(): Pipe<T>
      reads this
    {
      Pipe(items, head, w, f, r, c, writer, got, sleeps, wakes)
    }

    constructor ()
      ensures View() == Empty<T>() && View().Inv()
    {
      items, head, w, f, r, c := [], 0, 0, 0, At(0), At(0);
      writer, got, sleeps, wakes := Between, [], 0, 0;
    }

    method Write(v: T, incomplete: bool)
      requires View().Inv() && writer == Between
      modifies this
      ensures View() == old(View()).WriteStep(v, incomplete) && View().Inv()
    {
      StepKeepsInv(View(), Step.Write(v, incomplete));
      items := items + [Item(v, incomplete)];
      if !incomplete {
        f := |items|;
      }
    }

    /** Takes back the newest item of an unfinished message; complete items stay. */
    method Unwrite() returns (done: bool, v: T)
      requires View().Inv() && writer == Between
      modifies this
      ensures done <==> old(items) != [] && old(items)[|old(items)| - 1].incomplete
      ensures done ==> View() == old(View()).UnwriteStep() && v == old(items)[|old(items)| - 1].value
      ensures !done ==> View() == old(View())
      ensures View().Inv()
    {
      if f == |items| {
        v := *;
        return false, v;
      }
      StepKeepsInv(View(), Step<T>.Unwrite);
      v := items[|items| - 1].value;
      items := items[..|items| - 1];
      done := true;
    }

    /** First half of `flush`; `decided` is false when the plain store has to follow. */
    method TryPublish() returns (decided: bool)
      requires View().Inv() && writer == Between
      modifies this
      ensures View() == old(View()).TryPublishStep() && View().Inv()
      ensures !decided <==> old(c) == Null && old(w) != old(f)
    {
      StepKeepsInv(View(), Step<T>.TryPublish);
      if w == f {
        return true;
      }
      var seen := c;
      if seen == At(w) { c := At(f); }
      if seen != At(w) {
        writer := MustStore;
        return false;
      }
      w := f;
      decided := true;
    }

    /** Second half of `flush`, which then answers false. */
    method Store()
      requires View().Inv() && writer == MustStore
      modifies this
      ensures View() == old(View()).StoreStep() && View().Inv()
    {
      StepKeepsInv(View(), Step<T>.Store);
      c := At(f);
      w := f;
      writer, wakes := Between, wakes + 1;
    }

    method CheckRead() returns (ok: bool)
      requires View().Inv()
      modifies this
      ensures View() == old(View()).PrefetchStep() && View().Inv()
      ensures ok <==> View().HasItem()
      ensures ok <==> old(head < w)
    {
      StepKeepsInv(View(), Step<T>.Prefetch);
      CheckReadSeesFlushed(View());
      if r != At(head) && r != Null {
        return true;
      }
      var seen := c;
      if seen == At(head) {
        c := Null;
        sleeps := sleeps + 1;
      }
      r := seen;
      ok := !(r == At(head) || r == Null);
    }

    /** Takes the oldest flushed item, if there is one. */
    method Read() returns (ok: bool, v: T)
      requires View().Inv()
      modifies this
      ensures ok <==> old(head < w)
      ensures ok ==> v == old(items)[old(head)].value && View() == old(View()).PrefetchStep().TakeStep()
      ensures !ok ==> View() == old(View()).PrefetchStep()
      ensures View().Inv()
    {
      ok := CheckRead();
      if !ok {
        v := *;
        return;
      }
      StepKeepsInv(View(), Step<T>.Take);
      v := items[head].value;
      head := head + 1;
      got := got + [v];
    }
  }
}
