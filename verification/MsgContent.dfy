/**
 * Message handles and the reference counts of the contents they share. A long content is named by its
 * position in a table; `frees` records how often it was given back.
 */
module MsgContent {
  import opened Bytes
  import opened Wrappers
  import Wire

  /** Bits 1 to 6 of the flag byte are the validity tag. */
  predicate Tagged(flags: Byte) { flags % 128 / 2 == 63 }

  predicate Shared(flags: Byte) { flags >= 128 }

  function WithShared(flags: Byte): (r: Byte)
    ensures Shared(r) && (Tagged(flags) ==> Tagged(r)) && HasMore(r) == HasMore(flags)
  {
    if Shared(flags) then flags else flags + 128
  }

  /** What `zmq_msg_init` leaves in the flag byte. */
  const INIT_FLAGS: Byte := 126

  datatype Body = Vsm(data: seq<Byte>) | Delimiter | Long(id: nat)

  datatype Handle = Handle(flags: Byte, body: Body)

  const MAX_VSM_SIZE: nat := 30

  const EMPTY := Handle(INIT_FLAGS, Vsm([]))

  datatype Content = Content(data: seq<Byte>, refcnt: int, frees: nat)

  datatype Store = Store(contents: seq<Content>, handles: seq<Handle>)

  predicate Holds(h: Handle, c: nat) { Tagged(h.flags) && h.body == Long(c) }

  /** How many handles hold content `c`. */
  function Count(handles: seq<Handle>, c: nat): nat {
    if handles == [] then 0
    else Count(handles[..|handles| - 1], c) + if Holds(handles[|handles| - 1], c) then 1 else 0
  }

  // ---- The operations

  function Set(s: Store, h: nat, x: Handle): Store
    requires h < |s.handles|
  {
    s.(handles := s.handles[h := x])
  }

  /** `zmq_msg_init` and the creation of a small message. */
  function SmallAt(s: Store, h: nat, data: seq<Byte>): Store
    requires h < |s.handles|
  {
    Set(s, h, Handle(INIT_FLAGS, Vsm(data)))
  }

  /** The creation of a long message, with a new content. */
  function LongAt(s: Store, h: nat, data: seq<Byte>): Store
    requires h < |s.handles|
  {
    Set(s, h, Handle(INIT_FLAGS, Long(|s.contents|))).(contents := s.contents + [Content(data, 0, 0)])
  }

  function AddRef(s: Store, c: nat, n: int): Store
    requires c < |s.contents|
  {
    s.(contents := s.contents[c := s.contents[c].(refcnt := s.contents[c].refcnt + n)])
  }

  function SetRef(s: Store, c: nat, n: int): Store
    requires c < |s.contents|
  {
    s.(contents := s.contents[c := s.contents[c].(refcnt := n)])
  }

  function Free(s: Store, c: nat): Store
    requires c < |s.contents|
  {
    s.(contents := s.contents[c := s.contents[c].(frees := s.contents[c].frees + 1)])
  }

  /** Handles refer to contents that exist. */
  ghost predicate Linked(s: Store) {
    forall h :: 0 <= h < |s.handles| && s.handles[h].body.Long? ==> s.handles[h].body.id < |s.contents|
  }

  /** Closing an untagged handle is an error that changes nothing. */
  function Closed(s: Store, h: nat): Store
    requires h < |s.handles| && (s.handles[h].body.Long? ==> s.handles[h].body.id < |s.contents|)
  {
    var x := s.handles[h];
    if !Tagged(x.flags) then s
    else
      var t := Set(s, h, x.(flags := 0));
      if !x.body.Long? then t
      else if !Shared(x.flags) then Free(t, x.body.id)
      else
        var u := AddRef(t, x.body.id, -1);
        if u.contents[x.body.id].refcnt != 0 then u else Free(u, x.body.id)
  }

  /** `zmq_msg_move` does not look at the tags. */
  ghost function Moved(s: Store, dest: nat, src: nat): Store
    requires dest < |s.handles| && src < |s.handles| && Linked(s)
  {
    var t := Closed(s, dest);
    SmallAt(Set(t, dest, t.handles[src]), src, [])
  }

  /** A second handle for the content of `src`, which is shared from now on. The two handles may be the same. */
  ghost function Copied(s: Store, dest: nat, src: nat): Store
    requires dest < |s.handles| && src < |s.handles| && Linked(s)
  {
    if !Tagged(s.handles[dest].flags) || !Tagged(s.handles[src].flags) then s
    else
      var t := Closed(s, dest);
      var u := if t.handles[src].body.Long? then MadeShared(t, src, 1) else t;
      Set(u, dest, u.handles[src])
  }

  /** Adds `n` references to the content of `h`: the counter of a content that was not shared starts from one. */
  function MadeShared(s: Store, h: nat, n: nat): Store
    requires h < |s.handles| && s.handles[h].body.Long? && s.handles[h].body.id < |s.contents|
  {
    var x := s.handles[h];
    if Shared(x.flags) then AddRef(s, x.body.id, n)
    else Set(SetRef(s, x.body.id, n + 1), h, x.(flags := WithShared(x.flags)))
  }

  /**
   * A long message copied to itself: the handle is closed first, and then the counter of its content set
   * to two. When that was the only holder the close frees the content, and the code goes on to write the
   * counter of the content just freed (CopyTouchesLive); no live content is miscounted, so that case is not
   * excluded here. Two is right when the handle was one of three holders.
   */
  predicate Miscounts(s: Store, dest: nat, src: nat)
    requires dest < |s.handles|
  {
    var x := s.handles[dest];
    dest == src && Tagged(x.flags) && x.body.Long? && Count(s.handles, x.body.id) != 1 && Count(s.handles, x.body.id) != 3
  }

  datatype Step = InitSmall(h: nat, data: seq<Byte>) | InitLong(h: nat, data: seq<Byte>) | Close(h: nat) | Move(dest: nat, src: nat) | Copy(dest: nat, src: nat)

  /** A handle is initialised only when it holds no content. */
  ghost predicate Enabled(s: Store, step: Step) {
    match step
    case InitSmall(h, _) => h < |s.handles| && (Tagged(s.handles[h].flags) ==> !s.handles[h].body.Long?)
    case InitLong(h, _) => h < |s.handles| && (Tagged(s.handles[h].flags) ==> !s.handles[h].body.Long?)
    case Close(h) => h < |s.handles|
    case Move(dest, src) => dest < |s.handles| && src < |s.handles|
    case Copy(dest, src) => dest < |s.handles| && src < |s.handles| && !Miscounts(s, dest, src)
  }

  ghost function Apply(s: Store, step: Step): Store
    requires Linked(s) && Enabled(s, step)
  {
    match step
    case InitSmall(h, data) => SmallAt(s, h, data)
    case InitLong(h, data) => LongAt(s, h, data)
    case Close(h) => Closed(s, h)
    case Move(dest, src) => Moved(s, dest, src)
    case Copy(dest, src) => Copied(s, dest, src)
  }

  /** `n` handles that were never initialised. */
  function Blank(n: nat): Store { Store([], seq(n, _ => Handle(0, Vsm([])))) }

  ghost function Run(n: nat, steps: seq<Step>): Option<Store> {
    if steps == [] then Some(Blank(n))
    else
      match Run(n, steps[..|steps| - 1])
      case None => None
      case Some(s) => if Linked(s) && Enabled(s, steps[|steps| - 1]) then Some(Apply(s, steps[|steps| - 1])) else None
  }

  // ---- The invariant

  /** A content with holders is there, and a content without was freed once. */
  ghost predicate Kept(s: Store, c: nat)
    requires c < |s.contents|
  {
    s.contents[c].frees == if Count(s.handles, c) == 0 then 1 else 0
  }

  /** A shared handle's content counts its holders, and `d` more if it is `c`; a handle that is not shared is the only one. */
  ghost predicate Counted(s: Store, h: nat, c: nat, d: int)
    requires h < |s.handles|
  {
    var x := s.handles[h];
    var surplus := if x.body == Long(c) then d else 0;
    Tagged(x.flags) && x.body.Long? ==>
      x.body.id < |s.contents| &&
      if Shared(x.flags) then s.contents[x.body.id].refcnt == Count(s.handles, x.body.id) + surplus
      else Count(s.handles, x.body.id) == 1 && surplus == 0
  }

  /** The invariant inside an operation that changes the number of holders of `c`. */
  ghost predicate InvBut(s: Store, c: nat, d: int) {
    && Linked(s)
    && (forall k {:trigger Kept(s, k)} :: 0 <= k < |s.contents| ==> Kept(s, k))
    && (forall h {:trigger Counted(s, h, c, d)} :: 0 <= h < |s.handles| ==> Counted(s, h, c, d))
  }

  ghost predicate Inv(s: Store) { InvBut(s, 0, 0) }

  lemma AnyContent(s: Store, b: nat, c: nat)
    requires InvBut(s, b, 0)
    ensures InvBut(s, c, 0)
  {
    forall h | 0 <= h < |s.handles| ensures Counted(s, h, c, 0) { assert Counted(s, h, b, 0); }
  }

  lemma {:induction false} CountSet(handles: seq<Handle>, h: nat, x: Handle, c: nat)
    requires h < |handles|
    ensures Count(handles[h := x], c) == Count(handles, c) - (if Holds(handles[h], c) then 1 else 0) + (if Holds(x, c) then 1 else 0)
  {
    var n := |handles| - 1;
    if h == n {
      assert handles[h := x][..n] == handles[..n];
    } else {
      CountSet(handles[..n], h, x, c);
      assert handles[h := x][..n] == handles[..n][h := x];
    }
  }

  lemma {:induction false} CountHeld(handles: seq<Handle>, h: nat, c: nat)
    requires h < |handles| && Holds(handles[h], c)
    ensures Count(handles, c) > 0
  {
    if h < |handles| - 1 { CountHeld(handles[..|handles| - 1], h, c); }
  }

  /** Two different holders are two at least. */
  lemma {:induction false} CountTwo(handles: seq<Handle>, h: nat, k: nat, c: nat)
    requires h < |handles| && k < |handles| && h != k && Holds(handles[h], c) && Holds(handles[k], c)
    ensures Count(handles, c) > 1
  {
    var n := |handles| - 1;
    if h < n && k < n {
      CountTwo(handles[..n], h, k, c);
    } else {
      CountHeld(handles[..n], if h == n then k else h, c);
    }
  }

  /** No handle holds a content that is not there yet. */
  lemma {:induction false} CountNew(handles: seq<Handle>, c: nat)
    requires forall h :: 0 <= h < |handles| && handles[h].body.Long? ==> handles[h].body.id < c
    ensures Count(handles, c) == 0
  {
    if handles != [] { CountNew(handles[..|handles| - 1], c); }
  }

  /** A tagged handle may get any value that holds no content, when it held none. */
  lemma SetKeeps(s: Store, h: nat, x: Handle)
    requires Inv(s) && h < |s.handles| && (x.body.Long? ==> !Tagged(x.flags) && x.body.id < |s.contents|)
    requires Tagged(s.handles[h].flags) ==> !s.handles[h].body.Long?
    ensures Inv(Set(s, h, x))
    ensures forall c :: Count(Set(s, h, x).handles, c) == Count(s.handles, c)
  {
    var t := Set(s, h, x);
    forall c ensures Count(t.handles, c) == Count(s.handles, c) { CountSet(s.handles, h, x, c); }
    forall c | 0 <= c < |t.contents| ensures Kept(t, c) { assert Kept(s, c); }
    forall k | 0 <= k < |t.handles| ensures Counted(t, k, 0, 0) { assert Counted(s, k, 0, 0); }
  }

  lemma InitLongKeeps(s: Store, h: nat, data: seq<Byte>)
    requires Inv(s) && Enabled(s, Step.InitLong(h, data))
    ensures Inv(LongAt(s, h, data))
  {
    var t, n := LongAt(s, h, data), |s.contents|;
    CountNew(s.handles, n);
    forall c ensures Count(t.handles, c) == Count(s.handles, c) + if c == n then 1 else 0 { CountSet(s.handles, h, t.handles[h], c); }
    forall c | 0 <= c < |t.contents| ensures Kept(t, c) { assert c < n ==> Kept(s, c); }
    forall k | 0 <= k < |t.handles| ensures Counted(t, k, 0, 0) { assert Counted(s, k, 0, 0); }
  }

  /** A handle that holds a content gives it up: the last one to do so frees it. */
  lemma CloseKeeps(s: Store, h: nat)
    requires Inv(s) && h < |s.handles|
    ensures Inv(Closed(s, h)) && !Tagged(Closed(s, h).handles[h].flags)
    ensures forall k :: 0 <= k < |s.handles| && k != h ==> Closed(s, h).handles[k] == s.handles[k]
    ensures |Closed(s, h).handles| == |s.handles| && |Closed(s, h).contents| == |s.contents|
    ensures forall c :: Count(Closed(s, h).handles, c) == Count(s.handles, c) - if Holds(s.handles[h], c) then 1 else 0
  {
    assert Counted(s, h, 0, 0);
    var x, t := s.handles[h], Closed(s, h);
    forall c ensures Count(t.handles, c) == Count(s.handles, c) - if Holds(s.handles[h], c) then 1 else 0 {
      CountSet(s.handles, h, t.handles[h], c);
    }
    if Tagged(x.flags) && x.body.Long? {
      var id := x.body.id;
      assert Kept(s, id);
      CountHeld(s.handles, h, id);
      forall c ensures Count(t.handles, c) == Count(s.handles, c) - if c == id then 1 else 0 { CountSet(s.handles, h, t.handles[h], c); }
      forall c | 0 <= c < |t.contents| ensures Kept(t, c) { assert Kept(s, c); }
      forall k | 0 <= k < |t.handles| ensures Counted(t, k, 0, 0) {
        assert Counted(s, k, 0, 0);
        if k != h && Holds(s.handles[k], id) { CountTwo(s.handles, h, k, id); }
      }
    } else if Tagged(x.flags) {
      SetKeeps(s, h, x.(flags := 0));
    }
  }

  /**
   * The handle goes from `src` to `dest`, which gives up what it held, and `src` is an empty message; a
   * message moved to itself is given up. Nobody else's handle changes.
   */
  lemma MoveKeeps(s: Store, dest: nat, src: nat)
    requires Inv(s) && Enabled(s, Move(dest, src))
    ensures Inv(Moved(s, dest, src))
    ensures var t := Moved(s, dest, src);
      && |t.handles| == |s.handles|
      && (dest != src ==> t.handles[dest] == s.handles[src]) && t.handles[src] == EMPTY
      && (forall k :: 0 <= k < |s.handles| && k != dest && k != src ==> t.handles[k] == s.handles[k])
      && (forall c :: Count(t.handles, c) == Count(s.handles, c) - if Holds(s.handles[dest], c) then 1 else 0)
  {
    CloseKeeps(s, dest);
    var t, u := Closed(s, dest), Moved(s, dest, src);
    if dest == src {
      assert Set(t, dest, t.handles[src]) == t;
      SetKeeps(t, src, EMPTY);
    } else {
      forall c ensures Count(u.handles, c) == Count(t.handles, c) {
        CountSet(t.handles, dest, t.handles[src], c);
        CountSet(t.handles[dest := t.handles[src]], src, EMPTY, c);
      }
      forall c | 0 <= c < |u.contents| ensures Kept(u, c) { assert Kept(t, c); }
      forall k | 0 <= k < |u.handles| ensures Counted(u, k, 0, 0) { assert Counted(t, k, 0, 0) && Counted(t, src, 0, 0); }
    }
  }

  /** References added in advance for handles still to come. */
  lemma ShareKeeps(s: Store, h: nat, n: nat)
    requires Inv(s) && h < |s.handles| && Tagged(s.handles[h].flags) && s.handles[h].body.Long? && s.handles[h].body.id < |s.contents|
    ensures var t := MadeShared(s, h, n);
      && InvBut(t, s.handles[h].body.id, n)
      && t.handles == s.handles[h := s.handles[h].(flags := WithShared(s.handles[h].flags))]
      && Count(t.handles, s.handles[h].body.id) == Count(s.handles, s.handles[h].body.id) && |t.contents| == |s.contents|
  {
    var id, t := s.handles[h].body.id, MadeShared(s, h, n);
    assert Counted(s, h, 0, 0);
    forall c ensures Count(t.handles, c) == Count(s.handles, c) { CountSet(s.handles, h, t.handles[h], c); }
    forall c | 0 <= c < |t.contents| ensures Kept(t, c) { assert Kept(s, c); }
    forall k | 0 <= k < |t.handles| ensures Counted(t, k, id, n) {
      assert Counted(s, k, 0, 0);
      if k != h && Holds(s.handles[k], id) { CountTwo(s.handles, h, k, id); }
    }
  }

  /** One of those handles: a copy of a shared handle in the place of one that holds nothing. */
  lemma DuplicateKeeps(s: Store, dest: nat, src: nat, d: int)
    requires dest < |s.handles| && src < |s.handles| && (Tagged(s.handles[dest].flags) ==> !s.handles[dest].body.Long?)
    requires var x := s.handles[src]; Tagged(x.flags) && x.body.Long? && Shared(x.flags) && InvBut(s, x.body.id, d)
    ensures InvBut(Set(s, dest, s.handles[src]), s.handles[src].body.id, d - 1)
  {
    var x := s.handles[src];
    var t, id, left := Set(s, dest, x), x.body.id, d - 1;
    assert Counted(s, src, id, d);
    CountHeld(s.handles, src, id);
    forall c ensures Count(t.handles, c) == Count(s.handles, c) + if c == id then 1 else 0 { CountSet(s.handles, dest, x, c); }
    forall c | 0 <= c < |t.contents| ensures Kept(t, c) { assert Kept(s, c); }
    forall k | 0 <= k < |t.handles| ensures Counted(t, k, id, left) {
      assert Counted(s, k, id, d);
      if k != src && k != dest && Holds(s.handles[k], id) { CountTwo(s.handles, src, k, id); }
    }
  }

  /** Copying keeps the counts right exactly when it is not a copy to itself that miscounts. */
  lemma CopyKeeps(s: Store, dest: nat, src: nat)
    requires Inv(s) && dest < |s.handles| && src < |s.handles|
    ensures Inv(Copied(s, dest, src)) <==> !Miscounts(s, dest, src)
  {
    if dest == src {
      SelfCopyKeeps(s, dest);
    } else if Tagged(s.handles[dest].flags) && Tagged(s.handles[src].flags) {
      CloseKeeps(s, dest);
      var t := Closed(s, dest);
      assert Counted(t, src, 0, 0);
      if t.handles[src].body.Long? {
        var id := t.handles[src].body.id;
        ShareKeeps(t, src, 1);
        DuplicateKeeps(MadeShared(t, src, 1), dest, src, 1);
        AnyContent(Copied(s, dest, src), id, 0);
      } else {
        SetKeeps(t, dest, t.handles[src]);
      }
    }
  }

  lemma SelfCopyKeeps(s: Store, h: nat)
    requires Inv(s) && h < |s.handles|
    ensures Inv(Copied(s, h, h)) <==> !Miscounts(s, h, h)
  {
    var x := s.handles[h];
    CloseKeeps(s, h);
    var t, u := Closed(s, h), Copied(s, h, h);
    if Tagged(x.flags) && x.body.Long? {
      var id := x.body.id;
      assert Counted(s, h, 0, 0) && Linked(t);
      forall c ensures Count(t.handles, c) == Count(s.handles, c) - if c == id then 1 else 0 { CountSet(s.handles, h, t.handles[h], c); }
      forall k | 0 <= k < |t.handles| && Holds(t.handles[k], id) ensures Shared(t.handles[k].flags) {
        assert Counted(s, k, 0, 0);
        CountTwo(s.handles, h, k, id);
      }
      CounterSet(t, h, id, 2);
      assert u == Set(SetRef(t, id, 2), h, Handle(WithShared(0), Long(id)));
    } else if Tagged(x.flags) {
      assert u == t;
    }
  }

  /** Setting the counter of a content, from a handle that does not hold it any more, is right when no one holds it or as many as it then says. */
  lemma CounterSet(t: Store, h: nat, id: nat, n: nat)
    requires Inv(t) && h < |t.handles| && t.handles[h] == Handle(0, Long(id)) && id < |t.contents|
    requires forall k :: 0 <= k < |t.handles| && Holds(t.handles[k], id) ==> Shared(t.handles[k].flags)
    ensures Inv(Set(SetRef(t, id, n), h, Handle(WithShared(0), Long(id)))) <==> Count(t.handles, id) == 0 || Count(t.handles, id) == n
  {
    var y := Handle(WithShared(0), Long(id));
    var u := Set(SetRef(t, id, n), h, y);
    forall c ensures Count(u.handles, c) == Count(t.handles, c) { CountSet(t.handles, h, y, c); }
    forall c | 0 <= c < |u.contents| ensures Kept(u, c) { assert Kept(t, c); }
    if Count(t.handles, id) == 0 || Count(t.handles, id) == n {
      forall k | 0 <= k < |u.handles| ensures Counted(u, k, 0, 0) {
        assert Counted(t, k, 0, 0);
        if Holds(u.handles[k], id) { CountHeld(u.handles, k, id); }
      }
    } else {
      var k := HolderOf(t.handles, id);
      assert Counted(t, k, 0, 0) && !Counted(u, k, 0, 0);
    }
  }

  lemma {:induction false} HolderOf(handles: seq<Handle>, c: nat) returns (k: nat)
    requires Count(handles, c) > 0
    ensures k < |handles| && Holds(handles[k], c)
  {
    k := |handles| - 1;
    if !Holds(handles[k], c) { k := HolderOf(handles[..k], c); }
  }

  /** A copy of a valid message to another handle is a second holder of the same body, and `src` remains one; a copy to itself leaves no valid message. */
  lemma CopyGivesTwo(s: Store, dest: nat, src: nat)
    requires Inv(s) && dest < |s.handles| && src < |s.handles| && Tagged(s.handles[dest].flags) && Tagged(s.handles[src].flags)
    ensures var t := Copied(s, dest, src);
      && t.handles[dest] == t.handles[src] && t.handles[src].body == s.handles[src].body
      && (Tagged(t.handles[src].flags) <==> dest != src)
  {
    CloseKeeps(s, dest);
  }

  /** The content a copy counts is there, but for a message copied to itself by its only holder: that one was just freed. */
  lemma CopyTouchesLive(s: Store, dest: nat, src: nat)
    requires Inv(s) && dest < |s.handles| && src < |s.handles| && Tagged(s.handles[dest].flags)
    requires Tagged(s.handles[src].flags) && s.handles[src].body.Long?
    ensures var id := s.handles[src].body.id;
      id < |Closed(s, dest).contents| &&
      (Closed(s, dest).contents[id].frees == 0 <==> !(dest == src && Count(s.handles, id) == 1))
  {
    var t, id := Closed(s, dest), s.handles[src].body.id;
    CloseKeeps(s, dest);
    CountHeld(s.handles, src, id);
    CountSet(s.handles, dest, t.handles[dest], id);
    if dest != src { CountHeld(t.handles, src, id); }
    assert Kept(t, id);
  }

  // ---- Messages from the wire

  /** A long message that was just received: its content is new, its flags are those the decoder takes from the wire. */
  function ReceivedAt(s: Store, h: nat, data: seq<Byte>, wire: Byte): Store
    requires h < |s.handles|
  {
    var t := LongAt(s, h, data);
    Set(t, h, t.handles[h].(flags := Wire.MessageFlags(wire)))
  }

  /** The counts stay right exactly when bit 7 of the flags byte is clear, as it is in every frame an encoder makes. */
  lemma ReceivedKeeps(s: Store, h: nat, data: seq<Byte>, wire: Byte)
    requires Inv(s) && Enabled(s, Step.InitLong(h, data))
    ensures Tagged(Wire.MessageFlags(wire))
    ensures Inv(ReceivedAt(s, h, data, wire)) <==> wire < 128
    ensures forall flags: Byte :: Wire.WireFlags(flags) < 128
  {
    var t, flags := LongAt(s, h, data), Wire.MessageFlags(wire);
    InitLongKeeps(s, h, data);
    CountHeld(t.handles, h, |s.contents|);
    FlagsKeep(t, h, flags);
  }

  /** Other flags for the only holder of a content that counts nothing yet. */
  lemma FlagsKeep(t: Store, h: nat, flags: Byte)
    requires Inv(t) && HasContent(t, h) && !Shared(t.handles[h].flags) && Tagged(flags)
    requires t.contents[t.handles[h].body.id].refcnt == 0
    ensures Inv(Set(t, h, t.handles[h].(flags := flags))) <==> !Shared(flags)
  {
    var u := Set(t, h, t.handles[h].(flags := flags));
    assert Counted(t, h, 0, 0);
    forall c ensures Count(u.handles, c) == Count(t.handles, c) { CountSet(t.handles, h, u.handles[h], c); }
    if Shared(flags) {
      assert !Counted(u, h, 0, 0);
    } else {
      forall c | 0 <= c < |u.contents| ensures Kept(u, c) { assert Kept(t, c); }
      forall k | 0 <= k < |u.handles| ensures Counted(u, k, 0, 0) { assert Counted(t, k, 0, 0); }
    }
  }

  /** A message received with bit 7 set is not given back when it is closed: its counter started from zero. */
  lemma ReceivedSharedLeaks(s: Store, h: nat, data: seq<Byte>, wire: Byte)
    requires Inv(s) && Enabled(s, Step.InitLong(h, data))
    ensures var t := Closed(ReceivedAt(s, h, data, wire), h);
      Count(t.handles, |s.contents|) == 0 && (t.contents[|s.contents|].frees == 1 <==> wire < 128)
  {
    var t, u, n := LongAt(s, h, data), ReceivedAt(s, h, data, wire), |s.contents|;
    CountNew(s.handles, n);
    CountSet(s.handles, h, t.handles[h], n);
    CountSet(t.handles, h, u.handles[h], n);
    CountSet(u.handles, h, Closed(u, h).handles[h], n);
  }

  lemma StepKeepsInv(s: Store, step: Step)
    requires Inv(s) && Enabled(s, step)
    ensures Inv(Apply(s, step))
  {
    match step
    case InitSmall(h, data) => SetKeeps(s, h, Handle(INIT_FLAGS, Vsm(data)));
    case InitLong(h, data) => InitLongKeeps(s, h, data);
    case Close(h) => CloseKeeps(s, h);
    case Move(dest, src) => MoveKeeps(s, dest, src);
    case Copy(dest, src) => CopyKeeps(s, dest, src);
  }

  lemma {:induction false} CountBlank(n: nat, c: nat)
    ensures Count(seq(n, _ => Handle(0, Vsm([]))), c) == 0
  {
    if n > 0 {
      assert seq(n, _ => Handle(0, Vsm([])))[..n - 1] == seq(n - 1, _ => Handle(0, Vsm([])));
      CountBlank(n - 1, c);
    }
  }

  /**
   * After any operations every shared content counts exactly its holders; a content is freed once, when
   * its last holder gives it up, and not before.
   */
  lemma {:induction false} CountsAreRight(n: nat, steps: seq<Step>)
    requires Run(n, steps).Some?
    ensures Inv(Run(n, steps).value)
  {
    if steps != [] {
      CountsAreRight(n, steps[..|steps| - 1]);
      StepKeepsInv(Run(n, steps[..|steps| - 1]).value, steps[|steps| - 1]);
    }
  }

  // ---- Handing one message to several pipes

  /** The handle is copied into a pipe. */
  function Appended(s: Store, h: nat): Store
    requires h < |s.handles|
  {
    s.(handles := s.handles + [s.handles[h]])
  }

  ghost predicate HasContent(s: Store, h: nat) {
    h < |s.handles| && Tagged(s.handles[h].flags) && s.handles[h].body.Long? && s.handles[h].body.id < |s.contents|
  }

  /** The loop over the pipes: `oks` says which of them accept. A refusal gives one reference back. */
  ghost function Pushed(s: Store, h: nat, oks: seq<bool>): (t: Store)
    requires HasContent(s, h)
    ensures HasContent(t, h) && t.handles[h] == s.handles[h] && |t.handles| >= |s.handles|
    decreases |oks|
  {
    if oks == [] then s
    else Pushed(if oks[0] then Appended(s, h) else AddRef(s, s.handles[h].body.id, -1), h, oks[1..])
  }

  function AppendedTo(s: Store, h: nat, oks: seq<bool>): (t: Store)
    requires h < |s.handles|
    ensures |t.handles| >= |s.handles|
    decreases |oks|
  {
    if oks == [] then s else AppendedTo(if oks[0] then Appended(s, h) else s, h, oks[1..])
  }

  /** `distribute`, for the active pipes tried with the outcomes `oks`, up to the last step. */
  ghost function Spread(s: Store, h: nat, oks: seq<bool>): (t: Store)
    requires h < |s.handles| && Linked(s) && Tagged(s.handles[h].flags)
    ensures |t.handles| >= |s.handles|
  {
    if oks == [] then Closed(s, h)
    else if !s.handles[h].body.Long? then AppendedTo(s, h, oks)
    else if |oks| == 1 then if oks[0] then Appended(s, h) else Closed(s, h)
    else SpreadLong(s, h, oks)
  }

  ghost function SpreadLong(s: Store, h: nat, oks: seq<bool>): (t: Store)
    requires HasContent(s, h) && |oks| >= 2
    ensures |t.handles| >= |s.handles|
  {
    Pushed(MadeShared(s, h, |oks| - 1), h, oks)
  }

  /** The last step detaches the message from what was spread. */
  ghost function Distributed(s: Store, h: nat, oks: seq<bool>): Store
    requires h < |s.handles| && Linked(s) && Tagged(s.handles[h].flags)
  {
    Set(Spread(s, h, oks), h, EMPTY)
  }

  function Accepting(oks: seq<bool>): nat {
    if oks == [] then 0 else (if oks[0] then 1 else 0) + Accepting(oks[1..])
  }

  lemma AppendedKeeps(s: Store, h: nat, d: int)
    requires HasContent(s, h) && Shared(s.handles[h].flags) && InvBut(s, s.handles[h].body.id, d)
    ensures InvBut(Appended(s, h), s.handles[h].body.id, d - 1)
    ensures Count(Appended(s, h).handles, s.handles[h].body.id) == Count(s.handles, s.handles[h].body.id) + 1
  {
    var t, id, left := Appended(s, h), s.handles[h].body.id, d - 1;
    CountHeld(s.handles, h, id);
    assert t.handles[..|s.handles|] == s.handles;
    forall c | 0 <= c < |t.contents| ensures Kept(t, c) { assert Kept(s, c); }
    forall k | 0 <= k < |t.handles| ensures Counted(t, k, id, left) {
      assert Counted(s, h, id, d) && (k < |s.handles| ==> Counted(s, k, id, d));
      if k < |s.handles| && k != h && Holds(s.handles[k], id) { CountTwo(s.handles, h, k, id); }
    }
  }

  lemma RefusalKeeps(s: Store, h: nat, d: int)
    requires HasContent(s, h) && Shared(s.handles[h].flags) && InvBut(s, s.handles[h].body.id, d)
    ensures InvBut(AddRef(s, s.handles[h].body.id, -1), s.handles[h].body.id, d - 1)
  {
    var id, left := s.handles[h].body.id, d - 1;
    var t := AddRef(s, id, -1);
    forall c | 0 <= c < |t.contents| ensures Kept(t, c) { assert Kept(s, c); }
    forall k | 0 <= k < |t.handles| ensures Counted(t, k, id, left) {
      assert Counted(s, k, id, d);
      if k != h && Holds(s.handles[k], id) { CountTwo(s.handles, h, k, id); }
    }
  }

  lemma {:induction false} PushedKeeps(s: Store, h: nat, oks: seq<bool>, d: int, left: int)
    requires HasContent(s, h) && Shared(s.handles[h].flags) && InvBut(s, s.handles[h].body.id, d) && left == d - |oks|
    ensures var t, id := Pushed(s, h, oks), s.handles[h].body.id;
      InvBut(t, id, left) && Count(t.handles, id) == Count(s.handles, id) + Accepting(oks)
    decreases |oks|
  {
    var id := s.handles[h].body.id;
    if oks == [] {
    } else if oks[0] {
      AppendedKeeps(s, h, d);
      PushedKeeps(Appended(s, h), h, oks[1..], d - 1, left);
    } else {
      RefusalKeeps(s, h, d);
      PushedKeeps(AddRef(s, id, -1), h, oks[1..], d - 1, left);
    }
  }

  /** Emptying a handle without closing it is right exactly when its reference is given back already and it is not the last. */
  lemma DetachKeeps(s: Store, h: nat)
    requires HasContent(s, h) && Shared(s.handles[h].flags) && InvBut(s, s.handles[h].body.id, -1)
    ensures Inv(Set(s, h, EMPTY)) <==> Count(s.handles, s.handles[h].body.id) > 1
    ensures Count(Set(s, h, EMPTY).handles, s.handles[h].body.id) == Count(s.handles, s.handles[h].body.id) - 1
  {
    var t, id := Set(s, h, EMPTY), s.handles[h].body.id;
    CountHeld(s.handles, h, id);
    forall c ensures Count(t.handles, c) == Count(s.handles, c) - if c == id then 1 else 0 { CountSet(s.handles, h, EMPTY, c); }
    assert Kept(s, id);
    if Count(s.handles, id) > 1 {
      forall c | 0 <= c < |t.contents| ensures Kept(t, c) { assert Kept(s, c); }
      forall k | 0 <= k < |t.handles| ensures Counted(t, k, 0, 0) { assert Counted(s, k, id, -1); }
    } else {
      assert !Kept(t, id);
    }
  }

  /** Appending and emptying is moving the handle. */
  lemma HandedOver(s: Store, h: nat)
    requires Inv(s) && HasContent(s, h)
    ensures Inv(Set(Appended(s, h), h, EMPTY))
    ensures Count(Set(Appended(s, h), h, EMPTY).handles, s.handles[h].body.id) == Count(s.handles, s.handles[h].body.id)
  {
    var t, u := Appended(s, h), Set(Appended(s, h), h, EMPTY);
    assert t.handles[..|s.handles|] == s.handles;
    forall c ensures Count(u.handles, c) == Count(s.handles, c) { CountSet(t.handles, h, EMPTY, c); }
    forall c | 0 <= c < |u.contents| ensures Kept(u, c) { assert Kept(s, c); }
    forall k | 0 <= k < |u.handles| ensures Counted(u, k, 0, 0) {
      assert Counted(s, h, 0, 0) && (k < |s.handles| ==> Counted(s, k, 0, 0));
    }
  }

  /** With two active pipes or more, all of them refusing, a content that nobody else holds is never freed. */
  ghost predicate Leaks(s: Store, h: nat, oks: seq<bool>)
    requires h < |s.handles|
  {
    s.handles[h].body.Long? && |oks| >= 2 && Accepting(oks) == 0 && Count(s.handles, s.handles[h].body.id) == 1
  }

  /**
   * After distributing a long message its content has as many holders as there were others, plus the
   * pipes that accepted; and the counts are right, and what nobody holds is freed, exactly when it does not leak.
   */
  lemma DistributeCounts(s: Store, h: nat, oks: seq<bool>)
    requires Inv(s) && HasContent(s, h)
    ensures var id := s.handles[h].body.id;
      Count(Distributed(s, h, oks).handles, id) == Count(s.handles, id) - 1 + Accepting(oks)
    ensures Inv(Distributed(s, h, oks)) <==> !Leaks(s, h, oks)
  {
    assert |oks| == 1 ==> oks == [oks[0]];
    if oks == [] || oks == [false] {
      CloseAndEmpty(s, h);
    } else if oks == [true] {
      HandedOver(s, h);
    } else {
      DistributeMany(s, h, oks);
    }
  }

  /** It happens to a long message when both of two pipes refuse it. */
  lemma LeakHappens(data: seq<Byte>)
    requires |data| > MAX_VSM_SIZE
    ensures var steps := [Step.InitLong(0, data)];
      && Run(1, steps).Some?
      && var s := Run(1, steps).value;
      && Inv(s) && HasContent(s, 0) && Leaks(s, 0, [false, false]) && !Inv(Distributed(s, 0, [false, false]))
  {
    var steps := [Step.InitLong(0, data)];
    assert steps[..0] == [];
    CountsAreRight(1, steps);
    var s := Run(1, steps).value;
    assert s == LongAt(Blank(1), 0, data);
    DistributeCounts(s, 0, [false, false]);
  }

  lemma CloseAndEmpty(s: Store, h: nat)
    requires Inv(s) && HasContent(s, h)
    ensures var t := Set(Closed(s, h), h, EMPTY);
      Inv(t) && Count(t.handles, s.handles[h].body.id) == Count(s.handles, s.handles[h].body.id) - 1
  {
    CloseKeeps(s, h);
    SetKeeps(Closed(s, h), h, EMPTY);
    CountSet(s.handles, h, Closed(s, h).handles[h], s.handles[h].body.id);
  }

  lemma DistributeMany(s: Store, h: nat, oks: seq<bool>)
    requires Inv(s) && HasContent(s, h) && |oks| >= 2
    ensures var id, t := s.handles[h].body.id, Distributed(s, h, oks);
      && Count(t.handles, id) == Count(s.handles, id) - 1 + Accepting(oks)
      && (Inv(t) <==> !Leaks(s, h, oks))
  {
    var v := SharedAndPushed(s, h, oks);
    CountHeld(s.handles, h, s.handles[h].body.id);
    DetachKeeps(v, h);
  }

  lemma PushedOut(u: Store, h: nat, oks: seq<bool>) returns (v: Store)
    requires HasContent(u, h) && Shared(u.handles[h].flags) && InvBut(u, u.handles[h].body.id, |oks| - 1)
    ensures v == Pushed(u, h, oks) && HasContent(v, h) && v.handles[h] == u.handles[h]
    ensures InvBut(v, u.handles[h].body.id, -1)
    ensures Count(v.handles, u.handles[h].body.id) == Count(u.handles, u.handles[h].body.id) + Accepting(oks)
  {
    v := Pushed(u, h, oks);
    PushedKeeps(u, h, oks, |oks| - 1, -1);
  }

  lemma SharedAndPushed(s: Store, h: nat, oks: seq<bool>) returns (v: Store)
    requires Inv(s) && HasContent(s, h) && |oks| >= 2
    ensures v == Pushed(MadeShared(s, h, |oks| - 1), h, oks)
    ensures HasContent(v, h) && Shared(v.handles[h].flags) && v.handles[h].body == s.handles[h].body
    ensures InvBut(v, s.handles[h].body.id, -1)
    ensures Count(v.handles, s.handles[h].body.id) == Count(s.handles, s.handles[h].body.id) + Accepting(oks)
  {
    ShareKeeps(s, h, |oks| - 1);
    v := PushedOut(MadeShared(s, h, |oks| - 1), h, oks);
  }

  /** Copies of a small message share nothing. */
  lemma {:induction false} DistributeSmall(s: Store, h: nat, oks: seq<bool>)
    requires Inv(s) && h < |s.handles| && Tagged(s.handles[h].flags) && !s.handles[h].body.Long?
    ensures Inv(Distributed(s, h, oks))
  {
    if oks == [] {
      CloseKeeps(s, h);
      SetKeeps(Closed(s, h), h, EMPTY);
    } else {
      AppendedToKeeps(s, h, oks);
      SetKeeps(AppendedTo(s, h, oks), h, EMPTY);
    }
  }

  lemma {:induction false} AppendedToKeeps(s: Store, h: nat, oks: seq<bool>)
    requires Inv(s) && h < |s.handles| && Tagged(s.handles[h].flags) && !s.handles[h].body.Long?
    ensures Inv(AppendedTo(s, h, oks)) && AppendedTo(s, h, oks).handles[h] == s.handles[h]
    decreases |oks|
  {
    if oks != [] {
      if oks[0] {
        var t := Appended(s, h);
        assert t.handles[..|s.handles|] == s.handles;
        forall c | 0 <= c < |t.contents| ensures Kept(t, c) { assert Kept(s, c); }
        forall k | 0 <= k < |t.handles| ensures Counted(t, k, 0, 0) { assert k < |s.handles| ==> Counted(s, k, 0, 0); }
        AppendedToKeeps(t, h, oks[1..]);
      } else {
        AppendedToKeeps(s, h, oks[1..]);
      }
    }
  }

  lemma {:induction false} AcceptingSnoc(oks: seq<bool>, b: bool)
    ensures Accepting(oks + [b]) == Accepting(oks) + if b then 1 else 0
  {
    if oks == [] {
      assert [] + [b] == [b];
    } else {
      AcceptingSnoc(oks[1..], b);
      assert (oks + [b])[1..] == oks[1..] + [b];
    }
  }

  lemma {:induction false} PushedSnoc(s: Store, h: nat, oks: seq<bool>, b: bool)
    requires HasContent(s, h)
    ensures var t := Pushed(s, h, oks);
      Pushed(s, h, oks + [b]) == if b then Appended(t, h) else AddRef(t, s.handles[h].body.id, -1)
    decreases |oks|
  {
    if oks == [] {
      assert [] + [b] == [b];
    } else {
      PushedSnoc(if oks[0] then Appended(s, h) else AddRef(s, s.handles[h].body.id, -1), h, oks[1..], b);
      assert (oks + [b])[1..] == oks[1..] + [b];
    }
  }

  lemma {:induction false} AppendedToSnoc(s: Store, h: nat, oks: seq<bool>, b: bool)
    requires h < |s.handles|
    ensures var t := AppendedTo(s, h, oks); AppendedTo(s, h, oks + [b]) == if b then Appended(t, h) else t
    decreases |oks|
  {
    if oks == [] {
      assert [] + [b] == [b];
    } else {
      AppendedToSnoc(if oks[0] then Appended(s, h) else s, h, oks[1..], b);
      assert (oks + [b])[1..] == oks[1..] + [b];
    }
  }

  class Messages {
    var contents: seq<Content>
    var handles: seq<Handle>

    ghost function View(): Store
      reads this
    {
      Store(contents, handles)
    }

    constructor (n: nat)
      ensures View() == Blank(n)
    {
      contents, handles := [], seq(n, _ => Handle(0, Vsm([])));
    }

    method InitSize(h: nat, data: seq<Byte>)
      requires h < |handles|
      modifies this
      ensures View() == if |data| <= MAX_VSM_SIZE then SmallAt(old(View()), h, data) else LongAt(old(View()), h, data)
      ensures handles[h] == Handle(INIT_FLAGS, if |data| <= MAX_VSM_SIZE then Vsm(data) else Long(|old(contents)|))
      ensures contents == if |data| <= MAX_VSM_SIZE then old(contents) else old(contents) + [Content(data, 0, 0)]
    {
      if |data| <= MAX_VSM_SIZE {
        handles := handles[h := Handle(INIT_FLAGS, Vsm(data))];
      } else {
        handles := handles[h := Handle(INIT_FLAGS, Long(|contents|))];
        contents := contents + [Content(data, 0, 0)];
      }
    }

    /** Subtracts one reference; false when none is left. */
    method Sub(c: nat) returns (left: bool)
      requires c < |contents|
      modifies `contents
      ensures View() == AddRef(old(View()), c, -1) && left == (contents[c].refcnt != 0)
    {
      contents := contents[c := contents[c].(refcnt := contents[c].refcnt - 1)];
      left := contents[c].refcnt != 0;
    }

    method Close(h: nat) returns (rc: int)
      requires h < |handles| && Linked(View())
      modifies this
      ensures View() == Closed(old(View()), h)
      ensures rc == if Tagged(old(handles)[h].flags) then 0 else -1
    {
      var x := handles[h];
      if !Tagged(x.flags) {
        return -1;
      }
      handles := handles[h := x.(flags := 0)];
      if x.body.Long? {
        var id := x.body.id;
        var left := false;
        if Shared(x.flags) {
          left := Sub(id);
        }
        if !left {
          contents := contents[id := contents[id].(frees := contents[id].frees + 1)];
        }
      }
      rc := 0;
    }

    method Move(dest: nat, src: nat)
      requires dest < |handles| && src < |handles| && Linked(View())
      modifies this
      ensures View() == Moved(old(View()), dest, src)
      ensures handles[src] == EMPTY && (dest != src ==> handles[dest] == old(handles)[src])
    {
      var _ := Close(dest);
      handles := handles[dest := handles[src]];
      handles := handles[src := EMPTY];
    }

    method Copy(dest: nat, src: nat) returns (rc: int)
      requires dest < |handles| && src < |handles| && Linked(View())
      modifies this
      ensures View() == Copied(old(View()), dest, src)
      ensures rc == if Tagged(old(handles)[dest].flags) && Tagged(old(handles)[src].flags) then 0 else -1
    {
      if !Tagged(handles[dest].flags) || !Tagged(handles[src].flags) {
        return -1;
      }
      var _ := Close(dest);
      if handles[src].body.Long? {
        Share(src, 1);
      }
      handles := handles[dest := handles[src]];
      rc := 0;
    }

    /** Adds `n` references for handles to come. */
    method Share(h: nat, n: nat)
      requires h < |handles| && handles[h].body.Long? && handles[h].body.id < |contents|
      modifies this
      ensures View() == MadeShared(old(View()), h, n)
    {
      var x := handles[h];
      var c := contents[x.body.id];
      if Shared(x.flags) {
        contents := contents[x.body.id := c.(refcnt := c.refcnt + n)];
      } else {
        contents := contents[x.body.id := c.(refcnt := n + 1)];
        handles := handles[h := x.(flags := WithShared(x.flags))];
      }
    }

    /** The handle as it is goes into a pipe. */
    method Append(h: nat)
      requires h < |handles|
      modifies `handles
      ensures View() == Appended(old(View()), h)
    {
      handles := handles + [handles[h]];
    }

    /** A pipe that accepted gets the handle; one that refused gives a reference back. */
    method AppendOrSub(h: nat, ok: bool)
      requires HasContent(View(), h)
      modifies this
      ensures View() == if ok then Appended(old(View()), h) else AddRef(old(View()), old(handles)[h].body.id, -1)
    {
      if ok {
        Append(h);
      } else {
        var _ := Sub(handles[h].body.id);
      }
    }

    /** The same inside the loop over the pipes, with the outcomes so far. */
    method PushNext(h: nat, ok: bool, ghost before: Store, ghost oks: seq<bool>)
      requires HasContent(before, h) && View() == Pushed(before, h, oks)
      modifies this
      ensures View() == Pushed(before, h, oks + [ok])
    {
      PushedSnoc(before, h, oks, ok);
      AppendOrSub(h, ok);
    }

    /** A small message is copied into the pipes that accept. */
    method AppendNext(h: nat, ok: bool, ghost before: Store, ghost oks: seq<bool>)
      requires h < |before.handles| && View() == AppendedTo(before, h, oks)
      modifies `handles
      ensures View() == AppendedTo(before, h, oks + [ok])
    {
      AppendedToSnoc(before, h, oks, ok);
      if ok {
        Append(h);
      }
    }

    /** To a single pipe the handle is given as it is; one that refuses it has it closed. */
    method AppendOrClose(h: nat, ok: bool)
      requires h < |handles| && Linked(View())
      modifies this
      ensures View() == if ok then Appended(old(View()), h) else Closed(old(View()), h)
    {
      if ok {
        Append(h);
      } else {
        var _ := Close(h);
      }
    }

    method Detach(h: nat)
      requires h < |handles|
      modifies `handles
      ensures View() == Set(old(View()), h, EMPTY)
    {
      handles := handles[h := EMPTY];
    }
  }
}
