/**
 * The two endpoints of a message pipe as objects over the pipe object and the swap object. Every method
 * does what the corresponding step of module MessagePipe does; `sent` lists the commands posted to the peer.
 */
module PipeEnds {
  import opened Bytes
  import opened Wrappers
  import opened MessagePipe
  import S = Swap
  import Y = YPipe

  /** No flush of the pipe is under way. */
  ghost predicate AtRest(pipe: Y.YPipe<Entry>)
    reads pipe
  {
    pipe.View().Inv() && pipe.writer == Y.Between
  }

  /** The swap holds whole messages, as they come out of it, in a file of `size` bytes. */
  ghost predicate Holds(swap: S.Swap, cfg: Config)
    reads swap, swap.buf1, swap.buf2, swap.file
  {
    && swap.Separate() && swap.Valid() && swap.filesize == cfg.swapSize
    && AllClean(swap.messages)
  }

  method StoreIn(swap: S.Swap, cfg: Config, m: Message)
    requires Holds(swap, cfg) && |m.body| < Pow256(S.SIZEOF_SIZE_T)
    requires |S.Records(swap.messages)| + |S.Record(m)| < cfg.swapSize
    modifies swap, swap.buf1, swap.buf2, swap.file
    ensures Holds(swap, cfg) && swap.messages == old(swap.messages) + [Clean(m)]
  {
    CleanMore(swap.messages, m);
    var stored := swap.Store(m);
    assert stored;
  }

  lemma CleanMore(ms: seq<Message>, m: Message)
    requires AllClean(ms)
    ensures AllClean(ms + [Clean(m)])
  {
  }

  method FetchFrom(swap: S.Swap, cfg: Config) returns (m: Message)
    requires Holds(swap, cfg) && swap.messages != []
    modifies swap, swap.buf1, swap.buf2
    ensures Holds(swap, cfg) && m == old(swap.messages)[0] && swap.messages == old(swap.messages)[1..]
  {
    assert Clean(swap.messages[0]) == swap.messages[0];
    m := swap.Fetch();
  }

  class ReaderEnd {
    const cfg: Config
    const pipe: Y.YPipe<Entry>
    var active: bool
    var msgsRead: nat
    var terminating: bool
    var sent: seq<ToWriter>

    ghost predicate Valid()
      reads this, pipe
    {
      AtRest(pipe)
    }

    /** The reader's side of the state; the writer's side is arbitrary and is not looked at. */
    ghost function View(): State
      reads this, pipe
    {
      State(Reader(active, msgsRead, terminating, false), Init().w, pipe.View(), [], sent, [])
    }

    constructor (cfg: Config, pipe: Y.YPipe<Entry>)
      requires pipe.View() == Y.Empty<Entry>() && AtRest(pipe)
      ensures Valid() && View() == Init() && this.cfg == cfg && this.pipe == pipe
    {
      this.cfg, this.pipe := cfg, pipe;
      active, msgsRead, terminating, sent := true, 0, false, [];
    }

    method CheckRead() returns (ok: bool)
      requires Valid()
      modifies this, pipe
      ensures Valid() && View() == ApplyCheckRead(old(View()))
      ensures ok <==> old(active && pipe.head < pipe.w && pipe.items[pipe.head].value.Part?)
    {
      if !active {
        return false;
      }
      PrefetchFacts(pipe.View());
      var some := pipe.CheckRead();
      if !some {
        active := false;
        return false;
      }
      if pipe.items[pipe.head].value == Delimiter {
        ghost var looked := pipe.View();
        var _, _ := pipe.Read();
        assert looked.PrefetchStep() == looked;
        Terminate();
        return false;
      }
      ok := true;
    }

    /** Gets the oldest part; the delimiter is taken but not handed out. */
    method Read() returns (part: Option<Message>)
      requires Valid()
      modifies this, pipe
      ensures Valid() && View() == ApplyRead(cfg, old(View()))
      ensures part.Some? <==> old(active && pipe.head < pipe.w && pipe.items[pipe.head].value.Part?)
      ensures part.Some? ==> part.value == old(pipe.items[pipe.head].value.m)
      ensures part.Some? ==> msgsRead == old(msgsRead) + if HasMore(part.value.flags) then 0 else 1
      ensures part.Some? ==> sent == old(sent) + if cfg.Lwm() > 0 && msgsRead % cfg.Lwm() == 0 then [ActivateWriter(msgsRead)] else []
    {
      if !active {
        return None;
      }
      PrefetchFacts(pipe.View());
      var ok, entry := pipe.Read();
      if !ok {
        active := false;
        return None;
      }
      if entry == Delimiter {
        Terminate();
        return None;
      }
      CountPart(entry.m);
      part := Some(entry.m);
    }

    /** A last part is counted, and a multiple of the low watermark is made known to the writer. */
    method CountPart(m: Message)
      requires Valid()
      modifies `msgsRead, `sent
      ensures Valid() && var r := CountRead(old(View()).r, m);
        View() == old(View()).(r := r, toWriter := old(sent) + Credit(cfg, r))
      ensures msgsRead == old(msgsRead) + if HasMore(m.flags) then 0 else 1
      ensures sent == old(sent) + if cfg.Lwm() > 0 && msgsRead % cfg.Lwm() == 0 then [ActivateWriter(msgsRead)] else []
    {
      if !HasMore(m.flags) {
        msgsRead := msgsRead + 1;
      }
      if cfg.Lwm() > 0 && msgsRead % cfg.Lwm() == 0 {
        sent := sent + [ActivateWriter(msgsRead)];
      }
    }

    method Terminate()
      requires Valid()
      modifies `active, `terminating, `sent
      ensures Valid() && View() == ApplyStopReader(old(View()))
      ensures terminating && (active ==> old(active) && old(terminating))
      ensures sent == if old(terminating) then old(sent) else old(sent) + [PipeTerm]
    {
      if terminating {
        return;
      }
      active := false;
      terminating := true;
      sent := sent + [PipeTerm];
    }
  }

  class WriterEnd {
    const cfg: Config
    const pipe: Y.YPipe<Entry>
    const swap: S.Swap?
    var active: bool
    var msgsRead: nat
    var msgsWritten: nat
    var swapping: bool
    var pendingDelimiter: bool
    var terminating: bool
    var sent: seq<ToReader>
    ghost var drained: bool
    ghost var log: seq<Message>

    /** The objects that the writer changes besides itself and the pipe. */
    ghost function Storage(): set<object> {
      if swap == null then {} else {swap, swap.buf1, swap.buf2, swap.file}
    }

    ghost predicate Valid()
      reads `swapping, pipe, Storage()
    {
      && AtRest(pipe)
      && (swap == null <==> cfg.swapSize == 0)
      && (swapping ==> swap != null)
      && (swap != null ==> Holds(swap, cfg))
    }

    ghost function Stored(): seq<Message>
      reads swap
    {
      if swap == null then [] else swap.messages
    }

    ghost function WriterView(): Writer
      reads `active, `msgsRead, `msgsWritten, `swapping, `pendingDelimiter, `terminating, `drained, swap
    {
      Writer(active, msgsRead, msgsWritten, Stored(), swapping, pendingDelimiter, terminating, false, drained)
    }

    ghost function View(): State
      reads this, pipe, swap
    {
      State(Init().r, WriterView(), pipe.View(), sent, [], log)
    }

    /** The writer's side is as in `s`. */
    ghost predicate Is(s: State)
      reads this, pipe, swap
    {
      WriterView() == s.w && pipe.View() == s.p && sent == s.toReader && log == s.log
    }

    constructor (cfg: Config, pipe: Y.YPipe<Entry>, blockSize: nat)
      requires pipe.View() == Y.Empty<Entry>() && AtRest(pipe) && blockSize > 0
      ensures Valid() && View() == Init() && this.cfg == cfg && this.pipe == pipe && fresh(Storage())
    {
      this.cfg, this.pipe := cfg, pipe;
      active, msgsRead, msgsWritten, swapping, pendingDelimiter, terminating, sent := true, 0, 0, false, false, false, [];
      drained, log := false, [];
      if cfg.swapSize > 0 {
        swap := new S.Swap(cfg.swapSize, blockSize);
      } else {
        swap := null;
      }
    }

    method PipeFull() returns (full: bool)
      ensures full <==> Full(cfg, WriterView())
    {
      full := cfg.hwm > 0 && msgsWritten - msgsRead == cfg.hwm;
    }

    method Check(m: Message) returns (ok: bool)
      requires Valid()
      modifies `active, `swapping
      ensures Valid() && WriterView() == CheckWrite(cfg, old(WriterView()), m) && ok == active
    {
      if !active {
        return false;
      }
      if swapping {
        var fits := swap.Fits(m);
        if !fits {
          active := false;
          return false;
        }
      } else {
        var full := PipeFull();
        if full {
          if swap != null {
            swapping := true;
          } else {
            active := false;
            return false;
          }
        }
      }
      ok := true;
    }

    /** Asserts, as the source does, that an overflowing part can be stored. */
    method Write(m: Message) returns (ok: bool)
      requires Valid() && StoreSucceeds(cfg, WriterView(), m) && |m.body| < Pow256(S.SIZEOF_SIZE_T)
      modifies this, pipe, Storage()
      ensures Valid() && View() == ApplyWrite(cfg, old(View()), m)
      ensures ok <==> CheckWrite(cfg, old(WriterView()), m).active
    {
      ok := Check(m);
      if ok {
        Append(m);
      }
    }

    /** The second half of `write`, after `check_write` said yes. */
    method Append(m: Message)
      requires Valid() && (swapping ==> FitsSwap(cfg, WriterView(), m)) && |m.body| < Pow256(S.SIZEOF_SIZE_T)
      modifies `log, `msgsWritten, pipe, Storage()
      ensures Valid() && View() == Appended(old(View()), m)
    {
      AppendPart(m);
    }

    method AppendPart(m: Message)
      requires Valid() && (swapping ==> FitsSwap(cfg, WriterView(), m)) && |m.body| < Pow256(S.SIZEOF_SIZE_T)
      modifies `log, `msgsWritten, pipe, Storage()
      ensures Valid() && log == old(log) + [Clean(m)]
      ensures WriterView() == if swapping then old(WriterView()).(swap := old(Stored()) + [Clean(m)]) else WritePart(old(WriterView()), m)
      ensures pipe.View() == if swapping then old(pipe.View()) else MessagePipe.PutPart(old(pipe.View()), m)
    {
      log := log + [Clean(m)];
      if swapping {
        StorePart(m);
      } else {
        PutPart(m);
      }
    }

    method StorePart(m: Message)
      requires Valid() && swap != null && FitsSwap(cfg, WriterView(), m) && |m.body| < Pow256(S.SIZEOF_SIZE_T)
      modifies Storage()
      ensures Valid() && WriterView() == old(WriterView()).(swap := old(Stored()) + [Clean(m)])
      ensures pipe.View() == old(pipe.View())
    {
      StoreIn(swap, cfg, m);
    }

    method PutPart(m: Message)
      requires Valid()
      modifies `msgsWritten, pipe
      ensures Valid() && pipe.View() == MessagePipe.PutPart(old(pipe.View()), m)
      ensures WriterView() == WritePart(old(WriterView()), m)
    {
      pipe.Write(Part(m), HasMore(m.flags));
      if !HasMore(m.flags) {
        msgsWritten := msgsWritten + 1;
      }
    }

    /** Removes the parts of an unfinished message; rolling back the swap is not part of this model. */
    method Rollback()
      requires Valid() && (swapping ==> Finished(Stored()))
      modifies `log, pipe
      ensures Valid() && View() == ApplyRollback(old(View()))
    {
      if swapping {
        return;
      }
      log := DropUnfinished(log);
      Unwrite();
    }

    /** Takes the items of an unfinished message back from the pipe, newest first. */
    method Unwrite()
      requires AtRest(pipe)
      modifies pipe
      ensures AtRest(pipe) && pipe.View() == RolledBack(old(pipe.View()))
    {
      ghost var p := pipe.View();
      assert p == p.(items := p.items[..|p.items|]);
      var done := true;
      while done
        invariant AtRest(pipe) && p.f <= |pipe.items| <= |p.items|
        invariant pipe.View() == p.(items := p.items[..|pipe.items|])
        invariant !done ==> |pipe.items| == p.f
        decreases |pipe.items|, done
      {
        var entry;
        done, entry := pipe.Unwrite();
      }
    }

    method Flush()
      requires Valid()
      modifies `sent, pipe
      ensures Valid() && View() == ApplyFlush(old(View()))
      ensures !swapping ==> pipe.w == pipe.f == old(pipe.f)
      ensures sent == old(sent) + if !swapping && old(pipe.c == Y.Null && pipe.w != pipe.f) then [ActivateReader] else []
    {
      FlushFacts(pipe.View());
      if !swapping {
        Publish();
      }
    }

    method Publish()
      requires Valid()
      modifies `sent, pipe
      ensures Valid() && View() == old(View()).(p := Flushed(old(pipe.View())), toReader := old(sent) + Wake(old(pipe.View())))
    {
      var ok := pipe.TryPublish();
      if !ok {
        pipe.Store();
        sent := sent + [ActivateReader];
      }
    }

    method Terminate()
      requires Valid() && (swapping ==> Finished(Stored()))
      modifies this, pipe
      ensures Valid() && View() == ApplyStopWriter(old(View()))
      ensures terminating && (!old(terminating) ==> !active)
      ensures !old(terminating) ==> if swapping then pendingDelimiter else Ended(pipe.View()) && pipe.w == |pipe.items|
    {
      if terminating {
        return;
      }
      Close();
      Rollback();
      if swapping {
        pendingDelimiter := true;
        return;
      }
      PutDelimiter();
    }

    /** No more messages are accepted. */
    method Close()
      requires Valid()
      modifies `terminating, `active
      ensures Valid() && View() == old(View()).(w := old(WriterView()).(terminating := true, active := false))
    {
      terminating := true;
      active := false;
    }

    method PutDelimiter()
      requires Valid()
      modifies `sent, pipe
      ensures Valid() && View() == MessagePipe.PutDelimiter(old(View()))
      ensures Ended(pipe.View()) && (!swapping ==> pipe.w == |pipe.items|)
    {
      pipe.Write(Delimiter, false);
      Flush();
    }

    method TakeStored() returns (m: Message)
      requires Valid() && swap != null && Stored() != []
      modifies Storage()
      ensures Valid() && m == old(Stored())[0] && WriterView() == old(WriterView()).(swap := old(Stored())[1..])
      ensures pipe.View() == old(pipe.View())
    {
      m := FetchFrom(swap, cfg);
    }

    /** Moves the oldest part from the swap to the pipe. */
    method MoveOne()
      requires Valid() && swap != null && Stored() != []
      modifies `msgsWritten, pipe, Storage()
      ensures Valid() && pipe.View() == MessagePipe.PutPart(old(pipe.View()), old(Stored())[0])
      ensures WriterView() == Unstored(old(WriterView()))
    {
      var m := TakeStored();
      PutPart(m);
    }

    /** Moves parts from the swap to the pipe until the pipe is full or the swap is empty. */
    method Drain()
      requires Valid() && swap != null
      modifies `msgsWritten, pipe, Storage()
      ensures Valid() && WriterView() == DrainedWriter(cfg, old(WriterView()))
      ensures pipe.View() == DrainedPipe(cfg, old(WriterView()), old(pipe.View()))
    {
      ghost var w, p := WriterView(), pipe.View();
      var moving := CanMove();
      while moving
        invariant Valid() && moving == !DrainStops(cfg, WriterView())
        invariant DrainedWriter(cfg, WriterView()) == DrainedWriter(cfg, w)
        invariant DrainedPipe(cfg, WriterView(), pipe.View()) == DrainedPipe(cfg, w, p)
        decreases |Stored()|
      {
        MoveOne();
        moving := CanMove();
      }
    }

    /** The guard of the drain loop. */
    method CanMove() returns (moving: bool)
      requires Valid() && swap != null
      ensures moving == !DrainStops(cfg, WriterView())
    {
      var full := PipeFull();
      var empty := swap.Empty();
      moving := !full && !empty;
    }

    method DrainAndPublish()
      requires Valid() && swap != null
      modifies `msgsWritten, `sent, `drained, pipe, Storage()
      ensures Valid() && WriterView() == DrainedWriter(cfg, old(WriterView())).(drained := true)
      ensures pipe.View() == Flushed(DrainedPipe(cfg, old(WriterView()), old(pipe.View())))
      ensures sent == old(sent) + Wake(DrainedPipe(cfg, old(WriterView()), old(pipe.View())))
    {
      Drain();
      Publish();
      drained := true;
    }

    method Confirm(msgsRead: nat)
      requires Valid()
      modifies `msgsRead
      ensures Valid() && View() == old(View()).(w := old(WriterView()).(msgsRead := msgsRead))
    {
      this.msgsRead := msgsRead;
    }

    /** First half of `process_activate_writer`: up to and including the flush after the drain loop. */
    method Activate(msgsRead: nat)
      requires Valid() && !drained
      modifies this, pipe, Storage()
      ensures Valid() && Is(Activated(cfg, old(View()), msgsRead))
    {
      Confirm(msgsRead);
      if swapping {
        DrainAndPublish();
      } else {
        Resume();
      }
    }

    /** Second half: leave the swapping mode when the swap is empty. */
    method FinishActivation()
      requires Valid() && drained && swapping
      modifies this, pipe
      ensures Valid() && View() == ApplyFinishActivation(old(View()))
      ensures !drained && (swapping <==> Stored() != []) && (!terminating && !pendingDelimiter ==> active)
    {
      var empty := swap.Empty();
      drained := false;
      if empty {
        swapping := false;
        if pendingDelimiter {
          PutDelimiter();
          return;
        }
      }
      Resume();
    }

    method Resume()
      requires Valid()
      modifies `active
      ensures Valid() && View() == old(View()).(w := Reactivated(old(WriterView())))
    {
      if !active && !terminating {
        active := true;
      }
    }
  }
}
