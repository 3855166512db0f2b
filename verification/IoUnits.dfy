/**
 The life cycle of I/O units in one inline job thread: handing out
 (__get_io_u, put_io_u, requeue_io_u in fio/io_u.c), submission and its
 outcome (io_u_submit and io_queue_event in fio/backend.c), completion
 (io_completed in fio/io_u.c) and the engine accounting (td_io_queue,
 td_io_commit, td_io_getevents in fio/ioengines.c).

 Every unit is in the free stack, in the requeue ring, or handed out.  The
 engine's answers are free choices; it may report an event only for a unit it
 has accepted as queued and not reported yet.
 */
module IoUnits {
  import opened Common

  // One answer of the engine about a transfer: what it left over, whether it
  // came as a reaped event or at once, whether it was an error.
  datatype Reply = Reply(resid: nat, reaped: bool, error: bool)

  // flight is IO_U_F_FLIGHT, verList IO_U_F_VER_LIST, rw is ddir_rw(acct_ddir),
  // fileSize the real_file_size of the unit's file.  The last two fields are
  // history: where the transfer began and the answers to it so far.
  datatype Unit = Unit(offset: nat, buflen: nat, xferBuflen: nat, flight: bool, verList: bool, rw: bool,
                       fileSize: nat, start: nat, replies: seq<Reply>)

  // The last three fields are history: the finished transfers, the completions
  // of units that were counted as issued, and the units taken off io_issues
  // that had never been put on.
  datatype State = State(
    units: seq<Unit>,
    free: seq<nat>,          // top of the stack last
    requeues: seq<nat>,      // oldest first
    out: set<nat>,           // handed out
    curDepth: int,
    queued: int,             // td->io_u_queued
    inFlight: int,           // td->io_u_in_flight, unreduced
    issues: int,             // td->io_issues, all directions, unreduced
    ioBytes: nat,            // td->io_bytes, all directions
    done: seq<Unit>,
    settled: nat,
    slips: nat)

  // What the engine's queue hook, or a reaped event, says about a unit.
  datatype Answer = Completed(error: bool, resid: nat) | Queued | Busy

  datatype Event = Event(unit: nat, error: bool, resid: nat)

  function SetUnit(s: State, u: nat, x: Unit): State
    requires u < |s.units|
  {
    s.(units := s.units[u := x])
  }

  // ------------------------------------------------- handing out, giving back

  // A unit set up for a new transfer.
  function Fresh(range: Unit): Unit {
    range.(flight := false, xferBuflen := range.buflen, start := range.offset, replies := [])
  }

  // __get_io_u followed by the setup in get_io_u; a unit from the ring keeps
  // its range, a fresh one gets `range`.
  function Get(s: State, range: Unit): (r: (State, nat))
    requires s.requeues != [] || s.free != []
    requires Bounded(s)
  {
    if s.requeues != [] then
      var u := s.requeues[0];
      (SetUnit(s, u, s.units[u].(verList := false))
         .(requeues := s.requeues[1..], out := s.out + {u}, curDepth := s.curDepth + 1), u)
    else
      var u := s.free[|s.free| - 1];
      (SetUnit(s, u, Fresh(range))
         .(free := s.free[..|s.free| - 1], out := s.out + {u}, curDepth := s.curDepth + 1), u)
  }

  function Put(s: State, u: nat): State {
    s.(free := s.free + [u], out := s.out - {u}, curDepth := s.curDepth - 1)
  }

  // put_io_u at the end of a transfer.
  function Close(s: State, u: nat): State
    requires u < |s.units|
  {
    Put(s, u).(done := if s.units[u].rw then s.done + [s.units[u]] else s.done)
  }

  // clear_io_u, and the flag handling of io_completed.
  function Land(s: State, u: nat): State
    requires u < |s.units|
  {
    SetUnit(s, u, s.units[u].(flight := false))
  }

  // Units that td_io_queue counts in io_issues.
  predicate Counted(x: Unit) { x.rw && !x.verList }

  function Requeue(s: State, u: nat): State
    requires u < |s.units|
  {
    var off := s.units[u].flight && s.units[u].rw;
    Land(s, u).(requeues := s.requeues + [u], out := s.out - {u}, curDepth := s.curDepth - 1,
                issues := s.issues - One(off), slips := s.slips + One(off && s.units[u].verList))
  }

  // ----------------------------------------------------------------- engine

  function Commit(s: State): State {
    if s.curDepth == 0 || s.queued == 0 then s
    else s.(inFlight := s.inFlight + s.queued, queued := 0)
  }

  // td_io_queue
  function Queue(s: State, u: nat, a: Answer, batch: nat): State
    requires u < |s.units|
  {
    var x := s.units[u];
    var issued := SetUnit(s, u, x.(flight := true)).(issues := s.issues + One(Counted(x)));
    match a
    case Completed(_, _) => issued
    case Queued =>
      var q := issued.(queued := s.queued + 1);
      if q.queued >= batch then Commit(q) else q
    case Busy =>
      if x.rw then Land(issued, u).(issues := issued.issues - 1, slips := s.slips + One(x.verList)) else issued
  }

  // The test of in_flight_overlap for one pair.
  predicate Overlap(x: Unit, y: Unit) {
    x.offset < y.offset + y.buflen && y.offset < x.offset + x.buflen
  }

  ghost predicate InFlightOverlap(s: State, u: nat)
    requires u < |s.units|
  {
    exists k :: 0 <= k < |s.units| && s.units[k].flight && Overlap(s.units[u], s.units[k])
  }

  // The part of a transfer that remains after a completion with this resid.
  function Advance(x: Unit, resid: nat): Unit
    requires resid <= x.xferBuflen
  {
    x.(offset := x.offset + (x.xferBuflen - resid), xferBuflen := resid)
  }

  function Note(x: Unit, r: Reply): Unit { x.(replies := x.replies + [r]) }

  function Settle(s: State, u: nat): State
    requires u < |s.units|
  {
    Land(s, u).(settled := s.settled + One(Counted(s.units[u])))
  }

  // io_completed, and the put_io_u after it.
  function IoCompleted(s: State, u: nat, error: bool, resid: nat): State
    requires u < |s.units| && resid <= s.units[u].xferBuflen
  {
    var x := s.units[u];
    var landed := Settle(s, u);
    if !error && x.rw then
      var bytes := x.xferBuflen - resid;
      if bytes > 0 && resid > 0 then
        var moved := SetUnit(landed, u, Advance(landed.units[u], resid));
        if moved.units[u].offset < x.fileSize then Requeue(moved, u)
        else Close(moved.(ioBytes := s.ioBytes + bytes), u)
      else Close(landed.(ioBytes := s.ioBytes + bytes), u)
    else Close(landed, u)
  }

  // io_queue_event for a unit the engine completed at once.
  function SyncEvent(s: State, u: nat, error: bool, resid: nat): State
    requires u < |s.units| && resid <= s.units[u].xferBuflen
  {
    var x := Note(s.units[u], Reply(resid, false, error));
    var noted := SetUnit(s, u, x);
    if error || 0 < resid == x.xferBuflen then Close(Settle(noted, u), u)
    else if resid == 0 then IoCompleted(noted, u, false, 0)
    else
      var moved := SetUnit(noted, u, Advance(x, resid));
      if moved.units[u].offset == x.fileSize then IoCompleted(moved, u, false, resid) else Requeue(moved, u)
  }

  // io_u_submit and io_queue_event; blocked is the outcome of the overlap check.
  function Submit(s: State, u: nat, blocked: bool, a: Answer, batch: nat): State
    requires u < |s.units| && (a.Completed? ==> a.resid <= s.units[u].xferBuflen)
  {
    if blocked then Commit(Requeue(s, u))
    else
      var q := Queue(s, u, a, batch);
      match a
      case Completed(error, resid) => SyncEvent(q, u, error, resid)
      case Queued => q
      case Busy => Commit(Requeue(q, u))
  }

  // td_io_getevents returns one more event.
  function Fetched(s: State, e: Event): State
    requires e.unit < |s.units|
  {
    SetUnit(s, e.unit, Note(s.units[e.unit], Reply(e.resid, true, e.error))).(inFlight := s.inFlight - 1)
  }

  function Reap(s: State, e: Event): State
    requires e.unit < |s.units| && e.resid <= s.units[e.unit].xferBuflen
  {
    IoCompleted(Fetched(s, e), e.unit, e.error, e.resid)
  }

  // ------------------------------------------------------------------ steps

  // Every unit index in the three places is a unit.
  ghost predicate Within(n: nat, free: seq<nat>, requeues: seq<nat>, out: set<nat>) {
    && (forall k :: 0 <= k < |free| ==> free[k] < n)
    && (forall k :: 0 <= k < |requeues| ==> requeues[k] < n)
    && (forall u :: u in out ==> u < n)
  }

  ghost predicate Bounded(s: State) { Within(|s.units|, s.free, s.requeues, s.out) }

  ghost predicate GetStep(s: State, s': State) {
    Bounded(s) && (s.requeues != [] || s.free != []) && exists range :: s' == Get(s, range).0
  }

  // put_io_u of a unit that was not submitted.
  ghost predicate PutStep(s: State, s': State) {
    exists u :: u in s.out && u < |s.units| && !s.units[u].flight && s' == Put(s, u)
  }

  // The overlap check is made only if serialize_overlap is set and more than
  // this unit is handed out.
  ghost predicate SubmitStep(s: State, s': State, serialize: bool, u: nat, a: Answer, batch: nat) {
    && u in s.out && u < |s.units| && !s.units[u].flight
    && (a.Completed? ==> a.resid <= s.units[u].xferBuflen)
    && s' == Submit(s, u, serialize && s.curDepth > 1 && InFlightOverlap(s, u), a, batch)
  }

  ghost predicate ReapStep(s: State, s': State, e: Event) {
    && e.unit in s.out && e.unit < |s.units| && s.units[e.unit].flight
    && e.resid <= s.units[e.unit].xferBuflen
    && s' == Reap(s, e)
  }

  ghost predicate Next(s: State, s': State, serialize: bool) {
    || GetStep(s, s') || PutStep(s, s') || s' == Commit(s)
    || (exists u, a, batch :: SubmitStep(s, s', serialize, u, a, batch))
    || (exists e :: ReapStep(s, s', e))
  }

  // init_io_u: all units in the free stack.
  ghost predicate Init(s: State) {
    && s.free == seq(|s.units|, i => i)
    && s.requeues == [] && s.out == {} && s.curDepth == 0 && s.queued == 0 && s.inFlight == 0
    && s.issues == 0 && s.ioBytes == 0 && s.done == [] && s.settled == 0 && s.slips == 0
    && forall k :: 0 <= k < |s.units| ==> !s.units[k].flight
  }

  ghost predicate Run(run: seq<State>, serialize: bool) {
    && |run| > 0 && Init(run[0])
    && forall k :: 0 <= k < |run| - 1 ==> Next(run[k], run[k + 1], serialize)
  }

  // -------------------------------------------------------------- invariant

  ghost predicate Somewhere(free: seq<nat>, requeues: seq<nat>, out: set<nat>, k: nat) {
    k in free || k in requeues || k in out
  }

  // Each of n units is in exactly one of the three places, once.
  ghost predicate Places(n: nat, free: seq<nat>, requeues: seq<nat>, out: set<nat>) {
    && Within(n, free, requeues, out) && NoDup(free) && NoDup(requeues)
    && (forall u :: u in out ==> u !in free && u !in requeues)
    && (forall u :: u in free ==> u !in requeues)
    && (forall k :: 0 <= k < n ==> Somewhere(free, requeues, out, k))
  }

  // Every unit is in one place; cur_depth counts those handed out.
  ghost predicate Placed(s: State) {
    Places(|s.units|, s.free, s.requeues, s.out) && s.curDepth == |s.out|
  }

  ghost function FlightSet(units: seq<Unit>): set<nat> {
    set k: nat | k < |units| && units[k].flight
  }

  // Units in flight are handed out, and there are `count` of them.
  ghost predicate Flying(units: seq<Unit>, out: set<nat>, count: int) {
    && (forall k :: 0 <= k < |units| && units[k].flight ==> k in out)
    && count == |FlightSet(units)|
  }

  // No two units in flight overlap.
  ghost predicate Disjoint(units: seq<Unit>) {
    forall j, k :: 0 <= j < k < |units| && units[j].flight && units[k].flight ==> !Overlap(units[j], units[k])
  }

  // The two counters together are the number of units in flight, but for
  // `extra` units whose step is not finished.
  ghost predicate Good(s: State, serialize: bool, extra: int) {
    && Placed(s) && Flying(s.units, s.out, s.queued + s.inFlight + extra) && s.queued >= 0
    && (serialize ==> Disjoint(s.units))
  }

  ghost predicate Inv(s: State, serialize: bool) {
    Good(s, serialize, 0)
  }

  lemma FlightMove(units: seq<Unit>, u: nat, x: Unit)
    requires u < |units|
    ensures |FlightSet(units[u := x])| == |FlightSet(units)| - One(units[u].flight) + One(x.flight)
  {
    assert FlightSet(units[u := x]) - {u} == FlightSet(units) - {u};
    SizeSplit(FlightSet(units[u := x]), u);
    SizeSplit(FlightSet(units), u);
  }

  // A unit that is not in flight afterwards cannot break the disjointness.
  lemma LandGood(s: State, u: nat, x: Unit, serialize: bool, extra: int)
    requires Good(s, serialize, extra) && u < |s.units| && !x.flight
    ensures Good(SetUnit(s, u, x), serialize, extra - One(s.units[u].flight))
  {
    FlightMove(s.units, u, x);
  }

  lemma TakeOffGood(s: State, u: nat, serialize: bool, extra: int)
    requires Good(s, serialize, extra) && u in s.out && u < |s.units| && !s.units[u].flight
    requires serialize ==> !InFlightOverlap(s, u)
    ensures Good(SetUnit(s, u, s.units[u].(flight := true)), serialize, extra + 1)
  {
    FlightMove(s.units, u, s.units[u].(flight := true));
  }

  lemma PutPlaced(s: State, u: nat)
    requires Placed(s) && u in s.out
    ensures Placed(Put(s, u))
  {
    SizeSplit(s.out, u);
    assert forall k :: k in s.free + [u] <==> k in s.free || k == u;
    assert forall k :: Somewhere(s.free, s.requeues, s.out, k) ==> Somewhere(s.free + [u], s.requeues, s.out - {u}, k);
  }

  lemma CloseGood(s: State, u: nat, serialize: bool, extra: int)
    requires Good(s, serialize, extra) && u in s.out && u < |s.units| && !s.units[u].flight
    ensures Good(Put(s, u), serialize, extra) && Good(Close(s, u), serialize, extra)
  {
    PutPlaced(s, u);
  }

  lemma RequeuePlaced(s: State, u: nat)
    requires Placed(s) && u in s.out && u < |s.units|
    ensures Placed(Requeue(s, u))
  {
    SizeSplit(s.out, u);
    assert forall k :: k in s.requeues + [u] <==> k in s.requeues || k == u;
    assert forall k :: Somewhere(s.free, s.requeues, s.out, k) ==> Somewhere(s.free, s.requeues + [u], s.out - {u}, k);
  }

  lemma RequeueGood(s: State, u: nat, serialize: bool, extra: int)
    requires u in s.out && u < |s.units| && Good(Land(s, u), serialize, extra)
    ensures Good(Requeue(s, u), serialize, extra)
  {
    RequeuePlaced(s, u);
  }

  lemma CommitGood(s: State, serialize: bool, extra: int)
    requires Good(s, serialize, extra)
    ensures Good(Commit(s), serialize, extra)
  {
  }

  lemma TakeOldestPlaced(s: State)
    requires Placed(s) && s.requeues != []
    ensures Placed(s.(requeues := s.requeues[1..], out := s.out + {s.requeues[0]}, curDepth := s.curDepth + 1))
  {
    var u := s.requeues[0];
    assert u in s.requeues;
    assert s.requeues == [u] + s.requeues[1..];
    assert forall k :: k in s.requeues <==> k == u || k in s.requeues[1..];
    assert forall k :: Somewhere(s.free, s.requeues, s.out, k) ==> Somewhere(s.free, s.requeues[1..], s.out + {u}, k);
  }

  lemma TakeTopPlaced(s: State)
    requires Placed(s) && s.free != []
    ensures Placed(s.(free := s.free[..|s.free| - 1], out := s.out + {s.free[|s.free| - 1]},
                      curDepth := s.curDepth + 1))
  {
    var rest, u := s.free[..|s.free| - 1], s.free[|s.free| - 1];
    assert u in s.free && u !in rest;
    assert s.free == rest + [u];
    assert forall k :: k in s.free <==> k == u || k in rest;
    assert forall k :: Somewhere(s.free, s.requeues, s.out, k) ==> Somewhere(rest, s.requeues, s.out + {u}, k);
  }

  lemma GetOldest(s: State, range: Unit)
    requires Placed(s) && s.requeues != []
    ensures var u := s.requeues[0];
            Get(s, range) == (State(s.units[u := s.units[u].(verList := false)], s.free, s.requeues[1..], s.out + {u},
                                    s.curDepth + 1, s.queued, s.inFlight, s.issues, s.ioBytes, s.done, s.settled,
                                    s.slips), u)
    ensures Placed(Get(s, range).0)
  {
    var u := s.requeues[0];
    TakeOldestPlaced(SetUnit(s, u, s.units[u].(verList := false)));
  }

  lemma GetTop(s: State, range: Unit)
    requires Placed(s) && s.requeues == [] && s.free != []
    ensures var u := s.free[|s.free| - 1];
            Get(s, range) == (State(s.units[u := Fresh(range)],
                                    s.free[..|s.free| - 1], s.requeues, s.out + {u},
                                    s.curDepth + 1, s.queued, s.inFlight, s.issues, s.ioBytes, s.done, s.settled,
                                    s.slips), u)
    ensures Placed(Get(s, range).0)
  {
    var u := s.free[|s.free| - 1];
    TakeTopPlaced(SetUnit(s, u, Fresh(range)));
  }

  lemma CompletedPlaced(s: State, u: nat, error: bool, resid: nat)
    requires Placed(s) && u in s.out && u < |s.units| && resid <= s.units[u].xferBuflen
    ensures Placed(IoCompleted(s, u, error, resid))
  {
    PutPlaced(s, u);
    RequeuePlaced(s, u);
  }

  lemma SyncEventPlaced(s: State, u: nat, error: bool, resid: nat)
    requires Placed(s) && u in s.out && u < |s.units| && resid <= s.units[u].xferBuflen
    ensures Placed(SyncEvent(s, u, error, resid))
  {
    PutPlaced(s, u);
    RequeuePlaced(s, u);
  }

  lemma SubmitPlaced(s: State, u: nat, blocked: bool, a: Answer, batch: nat)
    requires Placed(s) && u in s.out && u < |s.units| && (a.Completed? ==> a.resid <= s.units[u].xferBuflen)
    ensures Placed(Submit(s, u, blocked, a, batch))
  {
    if a.Completed? && !blocked {
      SyncEventPlaced(Queue(s, u, a, batch), u, a.error, a.resid);
    } else {
      RequeuePlaced(s, u);
    }
  }

  lemma ReapReady(s: State, e: Event)
    requires Placed(s) && e.unit in s.out && e.unit < |s.units| && e.resid <= s.units[e.unit].xferBuflen
    ensures |s.free| < |s.units| && |s.requeues| < |s.units| && Placed(Reap(s, e))
  {
    PushesFit(s, e.unit);
    CompletedPlaced(Fetched(s, e), e.unit, e.error, e.resid);
  }

  lemma HandOutGood(s: State, s': State, serialize: bool)
    requires Good(s, serialize, 0) && Placed(s') && s'.units == s.units && s.out <= s'.out
    requires s'.queued == s.queued && s'.inFlight == s.inFlight
    ensures Good(s', serialize, 0)
  {
  }

  lemma GetInv(s: State, s': State, serialize: bool)
    requires Inv(s, serialize) && GetStep(s, s')
    ensures Inv(s', serialize)
  {
    var range :| s' == Get(s, range).0;
    if s.requeues != [] {
      GetOldestInv(s, range, serialize);
    } else {
      GetTopInv(s, range, serialize);
    }
  }

  lemma GetOldestInv(s: State, range: Unit, serialize: bool)
    requires Inv(s, serialize) && s.requeues != []
    ensures Inv(Get(s, range).0, serialize)
  {
    var u := s.requeues[0];
    assert u in s.requeues;
    GetOldest(s, range);
    LandGood(s, u, s.units[u].(verList := false), serialize, 0);
    HandOutGood(SetUnit(s, u, s.units[u].(verList := false)), Get(s, range).0, serialize);
  }

  lemma GetTopInv(s: State, range: Unit, serialize: bool)
    requires Inv(s, serialize) && s.requeues == [] && s.free != []
    ensures Inv(Get(s, range).0, serialize)
  {
    var u := s.free[|s.free| - 1];
    assert u in s.free;
    GetTop(s, range);
    var x := Fresh(range);
    LandGood(s, u, x, serialize, 0);
    HandOutGood(SetUnit(s, u, x), Get(s, range).0, serialize);
  }

  // With at most one unit handed out, nothing else is in flight.
  lemma AloneInFlight(s: State, serialize: bool, u: nat)
    requires Inv(s, serialize) && u in s.out && u < |s.units| && !s.units[u].flight && s.curDepth <= 1
    ensures forall k :: 0 <= k < |s.units| ==> !s.units[k].flight
  {
    forall k | 0 <= k < |s.units| ensures !s.units[k].flight {
      SizeSplit(s.out, u);
      SizeSplit(s.out - {u}, k);
    }
  }

  lemma SubmitInv(s: State, s': State, serialize: bool, u: nat, a: Answer, batch: nat)
    requires Inv(s, serialize) && SubmitStep(s, s', serialize, u, a, batch)
    ensures Inv(s', serialize)
  {
    if serialize && s.curDepth > 1 && InFlightOverlap(s, u) {
      LandGood(s, u, s.units[u].(flight := false), serialize, 0);
      RequeueGood(s, u, serialize, 0);
      CommitGood(Requeue(s, u), serialize, 0);
    } else {
      if s.curDepth <= 1 { AloneInFlight(s, serialize, u); }
      TakeOffGood(s, u, serialize, 0);
      QueueInv(s, s', serialize, u, a, batch);
    }
  }

  lemma QueueInv(s: State, s': State, serialize: bool, u: nat, a: Answer, batch: nat)
    requires u in s.out && u < |s.units| && !s.units[u].flight
    requires Good(SetUnit(s, u, s.units[u].(flight := true)), serialize, 1)
    requires (a.Completed? ==> a.resid <= s.units[u].xferBuflen) && s' == Submit(s, u, false, a, batch)
    ensures Inv(s', serialize)
  {
    var up := SetUnit(s, u, s.units[u].(flight := true));
    var q := Queue(s, u, a, batch);
    match a
    case Completed(error, resid) =>
      assert Good(q, serialize, 1);
      SyncEventInv(q, u, error, resid, serialize);
    case Queued =>
    case Busy =>
      LandGood(up, u, s.units[u], serialize, 1);
      assert Land(q, u).units == up.units[u := s.units[u]];
      RequeueGood(q, u, serialize, 0);
      CommitGood(Requeue(q, u), serialize, 0);
  }

  lemma MovedGood(s: State, u: nat, resid: nat, serialize: bool)
    requires Good(s, serialize, 0) && u in s.out && u < |s.units| && !s.units[u].flight
    requires resid <= s.units[u].xferBuflen
    ensures var moved := SetUnit(s, u, Advance(s.units[u], resid));
            Good(Close(moved, u), serialize, 0) && Good(Requeue(moved, u), serialize, 0)
  {
    var moved := SetUnit(s, u, Advance(s.units[u], resid));
    LandGood(s, u, moved.units[u], serialize, 0);
    CloseGood(moved, u, serialize, 0);
    assert Land(moved, u) == moved;
    RequeueGood(moved, u, serialize, 0);
  }

  // What io_completed does to a unit in flight, whatever its range has become.
  lemma CompletedGood(s: State, u: nat, error: bool, resid: nat, serialize: bool)
    requires u in s.out && u < |s.units| && resid <= s.units[u].xferBuflen && Good(Land(s, u), serialize, 0)
    ensures Inv(IoCompleted(s, u, error, resid), serialize)
  {
    CloseGood(Settle(s, u), u, serialize, 0);
    MovedGood(Settle(s, u), u, resid, serialize);
  }

  lemma SyncEventInv(s: State, u: nat, error: bool, resid: nat, serialize: bool)
    requires Good(s, serialize, 1) && u in s.out && u < |s.units| && s.units[u].flight && resid <= s.units[u].xferBuflen
    ensures Inv(SyncEvent(s, u, error, resid), serialize)
  {
    var x := Note(s.units[u], Reply(resid, false, error));
    var noted := SetUnit(s, u, x);
    var moved := SetUnit(noted, u, Advance(x, resid));
    LandGood(s, u, x.(flight := false), serialize, 1);
    assert Land(noted, u).units == s.units[u := x.(flight := false)];
    CloseGood(Land(noted, u), u, serialize, 0);
    CompletedGood(noted, u, false, resid, serialize);
    LandGood(s, u, Advance(x, resid).(flight := false), serialize, 1);
    assert Land(moved, u).units == s.units[u := Advance(x, resid).(flight := false)];
    CompletedGood(moved, u, false, resid, serialize);
    RequeueGood(moved, u, serialize, 0);
  }

  lemma FetchedGood(s: State, e: Event, serialize: bool)
    requires Inv(s, serialize) && e.unit < |s.units| && s.units[e.unit].flight
    ensures Good(Land(Fetched(s, e), e.unit), serialize, 0)
  {
    var x := Note(s.units[e.unit], Reply(e.resid, true, e.error)).(flight := false);
    LandGood(s, e.unit, x, serialize, 0);
    assert Land(Fetched(s, e), e.unit).units == s.units[e.unit := x];
  }

  lemma ReapInv(s: State, e: Event, serialize: bool)
    requires Inv(s, serialize) && e.unit in s.out && e.unit < |s.units| && s.units[e.unit].flight
    requires e.resid <= s.units[e.unit].xferBuflen
    ensures Inv(Reap(s, e), serialize)
  {
    FetchedGood(s, e, serialize);
    CompletedGood(Fetched(s, e), e.unit, e.error, e.resid, serialize);
  }

  lemma NextInv(s: State, s': State, serialize: bool)
    requires Inv(s, serialize) && Next(s, s', serialize)
    ensures Inv(s', serialize)
  {
    if GetStep(s, s') {
      GetInv(s, s', serialize);
    } else if PutStep(s, s') {
      var u :| u in s.out && u < |s.units| && !s.units[u].flight && s' == Put(s, u);
      CloseGood(s, u, serialize, 0);
    } else if s' == Commit(s) {
      CommitGood(s, serialize, 0);
    } else if exists u, a, batch :: SubmitStep(s, s', serialize, u, a, batch) {
      var u, a, batch :| SubmitStep(s, s', serialize, u, a, batch);
      SubmitInv(s, s', serialize, u, a, batch);
    } else {
      var e :| ReapStep(s, s', e);
      ReapInv(s, e, serialize);
    }
  }

  lemma InitInv(s: State, serialize: bool)
    requires Init(s)
    ensures Inv(s, serialize)
  {
    assert FlightSet(s.units) == {};
    forall k | 0 <= k < |s.units| ensures k in s.free { assert s.free[k] == k; }
  }

  lemma {:induction false} RunInv(run: seq<State>, serialize: bool, k: nat)
    requires Run(run, serialize) && k < |run|
    ensures Inv(run[k], serialize)
  {
    if k == 0 {
      InitInv(run[0], serialize);
    } else {
      RunInv(run, serialize, k - 1);
      assert Next(run[k - 1], run[k - 1 + 1], serialize);
      NextInv(run[k - 1], run[k], serialize);
    }
  }

  // --------------------------------------------------------------- theorems

  // With serialize_overlap no two units in flight share a byte, resubmitted
  // short transfers and the cur_depth shortcut included.
  lemma OverlapSerialised(run: seq<State>, k: nat, i: nat, j: nat, byte: nat)
    requires Run(run, true) && k < |run| && i < |run[k].units| && j < |run[k].units| && i != j
    requires run[k].units[i].flight && run[k].units[j].flight
    requires run[k].units[i].offset <= byte < run[k].units[i].offset + run[k].units[i].buflen
    ensures !(run[k].units[j].offset <= byte < run[k].units[j].offset + run[k].units[j].buflen)
  {
    RunInv(run, true, k);
    var x, y := run[k].units[i], run[k].units[j];
    assert !Overlap(x, y) || !Overlap(y, x);
  }

  // io_u_queued + io_u_in_flight is exactly the number of units the engine
  // holds, although td_io_getevents may take the second one below zero.
  lemma OutstandingExact(run: seq<State>, serialize: bool, k: nat)
    requires Run(run, serialize) && k < |run|
    ensures run[k].queued + run[k].inFlight == |FlightSet(run[k].units)| <= run[k].curDepth <= |run[k].units|
  {
    RunInv(run, serialize, k);
    var s := run[k];
    assert FlightSet(s.units) <= s.out;
    SubsetSize(FlightSet(s.units), s.out);
    BelowSize(s.out, |s.units|);
  }

  lemma SubsetSize(a: set<nat>, b: set<nat>)
    requires a <= b
    ensures |a| <= |b|
  {
    assert |b| == |a| + |b - a| by { assert b == a + (b - a); }
  }

  lemma {:induction false} BelowSize(a: set<nat>, n: nat)
    requires forall x :: x in a ==> x < n
    ensures |a| <= n
    decreases n
  {
    if n == 0 {
      assert a == {};
    } else {
      BelowSize(a - {n - 1}, n - 1);
      SizeSplit(a, n - 1);
    }
  }

  ghost function Elements(s: seq<nat>): set<nat> {
    set x | x in s
  }

  lemma {:induction false} ElementsSize(s: seq<nat>)
    requires NoDup(s)
    ensures |Elements(s)| == |s|
  {
    if s != [] {
      ElementsSize(s[1..]);
      assert Elements(s) == {s[0]} + Elements(s[1..]);
      assert s[0] !in s[1..];
    }
  }

  // A sequence without duplicates below n that misses u has room for u.
  lemma RoomForOneMore(s: seq<nat>, n: nat, u: nat)
    requires NoDup(s) && (forall k :: 0 <= k < |s| ==> s[k] < n) && u < n && u !in s
    ensures |s| < n
  {
    ElementsSize(s);
    BelowSize(Elements(s) + {u}, n);
  }

  // Whenever a handed-out unit is given back or requeued, there is room: the
  // asserts in io_u_qpush and io_u_rpush cannot fail.
  lemma PushesFit(s: State, u: nat)
    requires Placed(s) && u in s.out
    ensures |s.free| < |s.units| && |s.requeues| < |s.units|
  {
    RoomForOneMore(s.free, |s.units|, u);
    RoomForOneMore(s.requeues, |s.units|, u);
  }

  // ------------------------------------------------------------ overlap check

  predicate HasByte(x: Unit, b: nat) { x.offset <= b < x.offset + x.buflen }

  // Some unit in flight covers a byte that unit u covers.
  ghost predicate SharesByte(units: seq<Unit>, u: nat)
    requires u < |units|
  {
    exists k, b :: 0 <= k < |units| && units[k].flight && HasByte(units[u], b) && HasByte(units[k], b)
  }

  lemma OverlapIsSharedByte(x: Unit, y: Unit)
    requires x.buflen > 0 && y.buflen > 0
    ensures Overlap(x, y) <==> exists b :: HasByte(x, b) && HasByte(y, b)
  {
    if Overlap(x, y) {
      var b := if x.offset < y.offset then y.offset else x.offset;
      assert HasByte(x, b) && HasByte(y, b);
    }
  }

  lemma OverlapIsSharing(units: seq<Unit>, u: nat)
    requires u < |units| && forall k :: 0 <= k < |units| ==> units[k].buflen > 0
    ensures SharesByte(units, u) <==> exists k :: 0 <= k < |units| && units[k].flight && Overlap(units[u], units[k])
  {
    forall k | 0 <= k < |units|
      ensures Overlap(units[u], units[k]) <==> exists b :: HasByte(units[u], b) && HasByte(units[k], b)
    {
      OverlapIsSharedByte(units[u], units[k]);
    }
    if k :| 0 <= k < |units| && units[k].flight && Overlap(units[u], units[k]) {
      var b :| HasByte(units[u], b) && HasByte(units[k], b);
      assert SharesByte(units, u);
    }
  }

  /** A unit the engine would queue goes in flight exactly when no unit in flight
      has a byte in common with it, or overlaps need not be serialised; otherwise
      it waits at the end of the requeue ring. */
  lemma SubmittedIff(run: seq<State>, serialize: bool, k: nat, u: nat, batch: nat)
    requires Run(run, serialize) && k + 1 < |run| && SubmitStep(run[k], run[k + 1], serialize, u, Queued, batch)
    requires forall i :: 0 <= i < |run[k].units| ==> run[k].units[i].buflen > 0
    ensures |run[k + 1].units| == |run[k].units|
    ensures if serialize && SharesByte(run[k].units, u)
            then !run[k + 1].units[u].flight && run[k + 1].requeues == run[k].requeues + [u]
            else run[k + 1].units[u].flight && u in run[k + 1].out
  {
    var s := run[k];
    RunInv(run, serialize, k);
    OverlapIsSharing(s.units, u);
    if s.curDepth <= 1 {
      AloneInFlight(s, serialize, u);
    }
  }

  // ------------------------------------------------- handing out and batches

  /** What is handed out: a requeued unit, the oldest, with its transfer as it
      was left; or a fresh unit set up for the range asked for. */
  lemma HandsOut(s: State, range: Unit)
    requires Placed(s) && (s.requeues != [] || s.free != [])
    ensures var (s', u) := Get(s, range);
            && u in s'.out && u !in s'.free && u !in s'.requeues
            && var x, y := s.units[u], s'.units[u];
               if s.requeues != []
               then u == s.requeues[0] && y.offset == x.offset && y.xferBuflen == x.xferBuflen && y.buflen == x.buflen
                    && y.rw == x.rw && y.fileSize == x.fileSize && y.start == x.start && y.replies == x.replies
               else y.offset == y.start == range.offset && y.xferBuflen == y.buflen == range.buflen && !y.flight
                    && y.rw == range.rw && y.verList == range.verList && y.fileSize == range.fileSize && y.replies == []
  {
    if s.requeues != [] {
      GetOldest(s, range);
    } else {
      GetTop(s, range);
    }
  }

  /** Commits keep the queued units below a batch: after any submission with this
      batch fewer than that are queued, and a commit leaves none unless nothing
      is handed out. */
  lemma QueuedBelowBatch(s: State, u: nat, blocked: bool, a: Answer, batch: nat)
    requires Placed(s) && u in s.out && u < |s.units| && (a.Completed? ==> a.resid <= s.units[u].xferBuflen)
    requires 0 <= s.queued < batch
    ensures Submit(s, u, blocked, a, batch).queued < batch
    ensures a.Queued? && !blocked ==>
              Submit(s, u, blocked, a, batch).queued == if s.queued + 1 == batch then 0 else s.queued + 1
    ensures Commit(s).queued == 0 && Commit(s).inFlight == s.inFlight + s.queued
  {
    SizeSplit(s.out, u);
  }

  /** in_flight_overlap, over io_u_all. */
  method FindOverlap(units: seq<Unit>, u: nat) returns (overlap: bool)
    requires u < |units|
    ensures overlap <==> exists k :: 0 <= k < |units| && units[k].flight && Overlap(units[u], units[k])
    ensures (forall k :: 0 <= k < |units| ==> units[k].buflen > 0) ==> (overlap <==> SharesByte(units, u))
  {
    if forall k :: 0 <= k < |units| ==> units[k].buflen > 0 {
      OverlapIsSharing(units, u);
    }
    var x1, x2 := units[u].offset, units[u].offset + units[u].buflen;
    overlap := false;
    var i := 0;
    while i < |units|
      invariant 0 <= i <= |units| && !overlap
      invariant forall k :: 0 <= k < i ==> !(units[k].flight && Overlap(units[u], units[k]))
    {
      if units[i].flight {
        var y1, y2 := units[i].offset, units[i].offset + units[i].buflen;
        if x1 < y2 && y1 < x2 {
          overlap := true;
          return;
        }
      }
      i := i + 1;
    }
  }
}
