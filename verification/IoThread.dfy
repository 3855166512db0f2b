/**
 The job thread's unit bookkeeping as the C code keeps it: flags and counters
 updated in place, the free stack and the requeue ring as real containers.
 Every method is tied to the function of module IoUnits that specifies it, so
 what is proved there of every run holds of this object.
 */
module IoThread {
  import opened Common
  import opened IoUQueue
  import opened IoUnits

  class IoThread {
    var units: seq<Unit>          // io_u_all
    const freelist: Stack<nat>
    const requeues: Ring<nat>
    ghost var out: set<nat>
    var curDepth: int
    var queued: int
    var inFlight: int
    var issues: int
    var ioBytes: nat
    ghost var done: seq<Unit>
    ghost var settled: nat
    ghost var slips: nat
    const batch: nat              // iodepth_batch
    const serialize: bool         // serialize_overlap

    // The containers are sound and sized for the units.
    ghost predicate Wired()
      reads this, freelist, freelist.ioUs, requeues, requeues.ring
    {
      && freelist.Valid() && requeues.Valid()
      && freelist.max == |units| && requeues.nr == |units|
    }

    // Besides, every unit is in exactly one place.
    ghost predicate Valid()
      reads this, freelist, freelist.ioUs, requeues, requeues.ring
    {
      Wired() && Placed(View())
    }

    ghost function View(): State
      requires freelist.Valid() && requeues.Valid()
      reads this, freelist, freelist.ioUs, requeues, requeues.ring
    {
      State(units, freelist.Contents(), requeues.Contents(), out, curDepth, queued, inFlight, issues,
            ioBytes, done, settled, slips)
    }

    /** init_io_u: `depth` units, all free. */
    constructor (depth: nat, blank: Unit, batch: nat, serialize: bool)
      requires depth < 0x8000_0000 && !blank.flight
      ensures Valid() && Init(View()) && |units| == depth
      ensures fresh(freelist) && fresh(freelist.ioUs) && fresh(requeues) && fresh(requeues.ring)
      ensures this.batch == batch && this.serialize == serialize
    {
      var f := new Stack<nat>(depth);
      var r := new Ring<nat>(depth);
      var i := 0;
      while i < depth
        invariant 0 <= i <= depth
        invariant f.Valid() && f.max == depth && fresh(f) && fresh(f.ioUs)
        invariant r.Valid() && r.nr == depth && fresh(r) && fresh(r.ring) && r.Contents() == []
        invariant f.Contents() == seq(i, k => k)
      {
        var ok := f.Push(i);
        i := i + 1;
      }
      freelist, requeues := f, r;
      units := seq(depth, _ => blank);
      out, curDepth, queued, inFlight, issues := {}, 0, 0, 0, 0;
      ioBytes, done, settled, slips := 0, [], 0, 0;
      this.batch, this.serialize := batch, serialize;
      new;
      InitInv(View(), serialize);
    }

    method TakeRequeued() returns (u: nat)
      requires Wired() && View().requeues != [] && View().requeues[0] < |units|
      modifies this`units, this`out, this`curDepth, requeues`tail
      ensures Wired() && u == old(View().requeues[0])
      ensures View() == old(View()).(units := old(units)[u := old(units)[u].(verList := false)],
                                     requeues := old(View().requeues[1..]),
                                     out := old(out) + {u}, curDepth := old(curDepth) + 1)
    {
      var r := requeues.Pop();
      u := r.value;
      units := units[u := units[u].(verList := false)];
      out := out + {u};
      curDepth := curDepth + 1;
    }

    method TakeFree(range: Unit) returns (u: nat)
      requires Wired() && View().free != [] && View().free[|View().free| - 1] < |units|
      modifies this`units, this`out, this`curDepth, freelist`nr, freelist.ioUs
      ensures Wired() && u == old(View().free[|View().free| - 1])
      ensures View() == old(View()).(units := old(units)[u := Fresh(range)],
                                     free := old(View().free[..|View().free| - 1]),
                                     out := old(out) + {u}, curDepth := old(curDepth) + 1)
    {
      var r := freelist.Pop();
      u := r.value;
      units := units[u := Fresh(range)];
      out := out + {u};
      curDepth := curDepth + 1;
    }

    method GetRequeued(ghost range: Unit) returns (u: nat)
      requires Valid() && View().requeues != []
      modifies this`units, this`out, this`curDepth, requeues`tail
      ensures Valid() && (View(), u) == Get(old(View()), range)
    {
      GetOldest(View(), range);
      u := TakeRequeued();
    }

    method GetFree(range: Unit) returns (u: nat)
      requires Valid() && View().requeues == [] && View().free != []
      modifies this`units, this`out, this`curDepth, freelist`nr, freelist.ioUs
      ensures Valid() && (View(), u) == Get(old(View()), range)
    {
      GetTop(View(), range);
      u := TakeFree(range);
    }

    /** __get_io_u and the setup of the unit; None when nothing is left.  `full`
        is the latency-target part of queue_full. */
    method GetIoU(range: Unit, full: bool) returns (r: Option<nat>)
      requires Valid()
      modifies this`units, this`out, this`curDepth, freelist`nr, freelist.ioUs, requeues`tail
      ensures Valid()
      ensures r.None? <==> old(View().requeues) == [] && (full || old(View().free) == [])
      ensures r.None? ==> View() == old(View())
      ensures r.Some? ==> (View(), r.value) == Get(old(View()), range)
    {
      if requeues.head != requeues.tail {
        var u := GetRequeued(range);
        r := Some(u);
      } else if !full && freelist.nr != 0 {
        var u := GetFree(range);
        r := Some(u);
      } else {
        r := None;
      }
    }

    // put_io_u where the stack has room
    method Release(u: nat)
      requires Wired() && |View().free| < |units|
      modifies this`out, this`curDepth, freelist`nr, freelist.ioUs
      ensures Wired() && View() == Put(old(View()), u)
    {
      out := out - {u};
      curDepth := curDepth - 1;
      var ok := freelist.Push(u);
      assert ok;
    }

    // put_io_u of a unit whose transfer is over
    method Finish(u: nat)
      requires Wired() && u < |units| && |View().free| < |units|
      modifies this`out, this`curDepth, this`done, freelist`nr, freelist.ioUs
      ensures Wired() && View() == Close(old(View()), u)
    {
      Release(u);
      if units[u].rw {
        done := done + [units[u]];
      }
    }

    /** put_io_u: the push always fits. */
    method PutIoU(u: nat)
      requires Valid() && u in out
      modifies this`out, this`curDepth, freelist`nr, freelist.ioUs
      ensures Valid() && View() == Put(old(View()), u)
    {
      PushesFit(View(), u);
      PutPlaced(View(), u);
      Release(u);
    }

    /** io_u_clear of IO_U_F_FLIGHT */
    method LandIoU(u: nat)
      requires Wired() && u < |units|
      modifies this`units
      ensures Wired() && View() == Land(old(View()), u)
    {
      units := units[u := units[u].(flight := false)];
    }

    // The flag is cleared by a completion.
    method SettleIoU(u: nat)
      requires Wired() && u < |units|
      modifies this`units, this`settled
      ensures Wired() && View() == Settle(old(View()), u)
    {
      settled := settled + One(Counted(units[u]));
      LandIoU(u);
    }

    // requeue_io_u where the ring has room
    method PushBack(u: nat)
      requires Wired() && u < |units| && |View().requeues| < |units|
      modifies this`units, this`out, this`curDepth, this`issues, this`slips, requeues`head, requeues.ring
      ensures Wired() && View() == Requeue(old(View()), u)
    {
      if units[u].flight && units[u].rw {
        issues := issues - 1;
        slips := slips + One(units[u].verList);
      }
      units := units[u := units[u].(flight := false)];
      out := out - {u};
      curDepth := curDepth - 1;
      var ok := requeues.Push(u);
      assert ok;
    }

    /** requeue_io_u: the push always fits, so the ring keeps every unit. */
    method RequeueIoU(u: nat)
      requires Valid() && u in out && u < |units|
      modifies this`units, this`out, this`curDepth, this`issues, this`slips, requeues`head, requeues.ring
      ensures Valid() && View() == Requeue(old(View()), u)
    {
      PushesFit(View(), u);
      RequeuePlaced(View(), u);
      PushBack(u);
    }

    /** td_io_commit; the engine's commit hook does not touch the counters. */
    method CommitIo()
      requires Wired()
      modifies this`queued, this`inFlight
      ensures Wired() && View() == Commit(old(View()))
    {
      if curDepth == 0 || queued == 0 {
        return;
      }
      inFlight := inFlight + queued;
      queued := 0;
    }

    // Entry of td_io_queue: the flag and the issue counter.
    method IssueIoU(u: nat)
      requires Wired() && u < |units|
      modifies this`units, this`issues
      ensures Wired()
      ensures View() == SetUnit(old(View()), u, old(units[u]).(flight := true))
                          .(issues := old(issues) + One(Counted(old(units[u]))))
    {
      var x := units[u];
      units := units[u := x.(flight := true)];
      if x.rw && !x.verList {
        issues := issues + 1;
      }
    }

    // td->io_u_queued++, and the commit when the batch is full.
    method CountQueued()
      requires Wired()
      modifies this`queued, this`inFlight
      ensures Wired()
      ensures var q := old(View()).(queued := old(queued) + 1);
              View() == if q.queued >= batch then Commit(q) else q
    {
      queued := queued + 1;
      if queued >= batch {
        CommitIo();
      }
    }

    /** td_io_queue, given the engine's answer. */
    method QueueIoU(u: nat, a: Answer)
      requires Wired() && u < |units|
      modifies this`units, this`queued, this`inFlight, this`issues, this`slips
      ensures Wired() && View() == Queue(old(View()), u, a, batch)
    {
      IssueIoU(u);
      match a
      case Completed(_, _) =>
      case Queued => CountQueued();
      case Busy =>
        if units[u].rw {
          LandIoU(u);
          issues := issues - 1;
          slips := slips + One(units[u].verList);
        }
    }

    // xfer_buflen, xfer_buf and offset after a short transfer.
    method MoveOn(u: nat, resid: nat)
      requires Wired() && u < |units| && resid <= units[u].xferBuflen
      modifies this`units
      ensures Wired() && View() == SetUnit(old(View()), u, Advance(old(units[u]), resid))
    {
      units := units[u := Advance(units[u], resid)];
    }

    // td_io_getevents for one event
    method FetchEvent(e: Event)
      requires Wired() && e.unit < |units|
      modifies this`units, this`inFlight
      ensures Wired() && View() == Fetched(old(View()), e)
    {
      inFlight := inFlight - 1;
      units := units[e.unit := Note(units[e.unit], Reply(e.resid, true, e.error))];
    }

    /** io_completed for a reaped event, which td_io_getevents takes off
        io_u_in_flight first. */
    method ReapEvent(e: Event)
      requires Valid() && e.unit in out && e.unit < |units| && e.resid <= units[e.unit].xferBuflen
      modifies this`units, this`out, this`curDepth, this`inFlight, this`issues, this`ioBytes,
               this`done, this`settled, this`slips, freelist`nr, freelist.ioUs, requeues`head, requeues.ring
      ensures Valid() && View() == Reap(old(View()), e)
    {
      ReapReady(View(), e);
      FetchEvent(e);
      CompleteIoU(e.unit, e.error, e.resid);
    }

    /** io_completed and the put_io_u after it. */
    method CompleteIoU(u: nat, error: bool, resid: nat)
      requires Wired() && u < |units| && resid <= units[u].xferBuflen
      requires |View().free| < |units| && |View().requeues| < |units|
      modifies this`units, this`out, this`curDepth, this`issues, this`ioBytes,
               this`done, this`settled, this`slips, freelist`nr, freelist.ioUs, requeues`head, requeues.ring
      ensures Wired() && View() == IoCompleted(old(View()), u, error, resid)
    {
      var x := units[u];
      SettleIoU(u);
      if !error && x.rw {
        var bytes := x.xferBuflen - resid;
        if bytes > 0 && resid > 0 {
          MoveOn(u, resid);
          if units[u].offset < x.fileSize {
            PushBack(u);
            return;
          }
        }
        ioBytes := ioBytes + bytes;
      }
      Finish(u);
    }

    /** io_u_submit and io_queue_event. */
    method SubmitIoU(u: nat, a: Answer)
      requires Valid() && u in out && u < |units|
      requires a.Completed? ==> a.resid <= units[u].xferBuflen
      modifies this`units, this`out, this`curDepth, this`queued, this`inFlight, this`issues, this`ioBytes,
               this`done, this`settled, this`slips, freelist`nr, freelist.ioUs, requeues`head, requeues.ring
      ensures Valid()
      ensures var blocked := serialize && old(curDepth) > 1 && InFlightOverlap(old(View()), u);
              View() == Submit(old(View()), u, blocked, a, batch)
    {
      PushesFit(View(), u);
      var blocked := false;
      if serialize && curDepth > 1 {
        blocked := FindOverlap(units, u);
      }
      SubmitPlaced(View(), u, blocked, a, batch);
      if blocked {
        PushBack(u);
        CommitIo();
      } else {
        Issue(u, a);
      }
    }

    method Issue(u: nat, a: Answer)
      requires Wired() && u < |units| && (a.Completed? ==> a.resid <= units[u].xferBuflen)
      requires |View().free| < |units| && |View().requeues| < |units|
      modifies this`units, this`out, this`curDepth, this`queued, this`inFlight, this`issues, this`ioBytes,
               this`done, this`settled, this`slips, freelist`nr, freelist.ioUs, requeues`head, requeues.ring
      ensures Wired() && View() == Submit(old(View()), u, false, a, batch)
    {
      QueueIoU(u, a);
      match a
      case Completed(error, resid) => HandleCompleted(u, error, resid);
      case Queued =>
      case Busy =>
        PushBack(u);
        CommitIo();
    }

    // The FIO_Q_COMPLETED case of io_queue_event.
    method HandleCompleted(u: nat, error: bool, resid: nat)
      requires Wired() && u < |units| && resid <= units[u].xferBuflen
      requires |View().free| < |units| && |View().requeues| < |units|
      modifies this`units, this`out, this`curDepth, this`issues, this`ioBytes,
               this`done, this`settled, this`slips, freelist`nr, freelist.ioUs, requeues`head, requeues.ring
      ensures Wired() && View() == SyncEvent(old(View()), u, error, resid)
    {
      units := units[u := Note(units[u], Reply(resid, false, error))];
      if error || 0 < resid == units[u].xferBuflen {
        SettleIoU(u);
        Finish(u);
      } else if resid == 0 {
        CompleteIoU(u, false, 0);
      } else {
        MoveOn(u, resid);
        if units[u].offset == units[u].fileSize {
          CompleteIoU(u, false, resid);
        } else {
          PushBack(u);
        }
      }
    }
  }
}
