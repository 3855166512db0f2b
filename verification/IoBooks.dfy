/**
 What a job thread counts: io_issues and io_bytes over every run of the state
 machine of module IoUnits, and the pieces in which a transfer is moved.
 */
module IoBooks {
  import opened Common
  import opened IoUnits
  import opened Sums

  // -------------------------------------------------------------- io_issues

  // Units in flight that were counted as issued.
  ghost function IssuedSet(units: seq<Unit>): set<nat> {
    set k: nat | k < |units| && units[k].flight && Counted(units[k])
  }

  predicate Issued(x: Unit) { x.flight && Counted(x) }

  ghost predicate IssuesOk(s: State) {
    s.issues == |IssuedSet(s.units)| + s.settled - s.slips
  }

  lemma IssuedMove(units: seq<Unit>, u: nat, x: Unit)
    requires u < |units|
    ensures |IssuedSet(units[u := x])| == |IssuedSet(units)| - One(Issued(units[u])) + One(Issued(x))
  {
    assert IssuedSet(units[u := x]) - {u} == IssuedSet(units) - {u};
    SizeSplit(IssuedSet(units[u := x]), u);
    SizeSplit(IssuedSet(units), u);
  }

  // A step that replaces unit u and nothing else of the counting.
  lemma IssuesKept(s: State, s': State, u: nat)
    requires IssuesOk(s) && u < |s.units| == |s'.units| && s'.units == s.units[u := s'.units[u]]
    requires s'.issues - s'.settled + s'.slips - One(Issued(s'.units[u])) ==
             s.issues - s.settled + s.slips - One(Issued(s.units[u]))
    ensures IssuesOk(s')
  {
    IssuedMove(s.units, u, s'.units[u]);
  }

  lemma GetIssues(s: State, s': State, serialize: bool)
    requires Inv(s, serialize) && IssuesOk(s) && GetStep(s, s')
    ensures IssuesOk(s')
  {
    var range :| s' == Get(s, range).0;
    var u := Get(s, range).1;
    assert u in s.free || u in s.requeues;
    IssuesKept(s, s', u);
  }

  lemma QueueIssues(s: State, u: nat, a: Answer, batch: nat)
    requires IssuesOk(s) && u < |s.units| && !s.units[u].flight
    ensures IssuesOk(Queue(s, u, a, batch))
  {
    IssuesKept(s, Queue(s, u, a, batch), u);
  }

  lemma SyncEventIssues(s: State, u: nat, error: bool, resid: nat)
    requires IssuesOk(s) && u < |s.units| && s.units[u].flight && resid <= s.units[u].xferBuflen
    ensures IssuesOk(SyncEvent(s, u, error, resid))
  {
    IssuesKept(s, SyncEvent(s, u, error, resid), u);
  }

  lemma RequeueIssues(s: State, u: nat)
    requires IssuesOk(s) && u < |s.units|
    ensures IssuesOk(Requeue(s, u)) && IssuesOk(Commit(Requeue(s, u)))
  {
    IssuesKept(s, Requeue(s, u), u);
  }

  lemma SubmitIssues(s: State, u: nat, blocked: bool, a: Answer, batch: nat)
    requires IssuesOk(s) && u < |s.units| && !s.units[u].flight && (a.Completed? ==> a.resid <= s.units[u].xferBuflen)
    ensures IssuesOk(Submit(s, u, blocked, a, batch))
  {
    if blocked {
      RequeueIssues(s, u);
    } else {
      var q := Queue(s, u, a, batch);
      QueueIssues(s, u, a, batch);
      match a
      case Completed(error, resid) => SyncEventIssues(q, u, error, resid);
      case Queued =>
      case Busy => RequeueIssues(q, u);
    }
  }

  lemma ReapIssues(s: State, e: Event)
    requires IssuesOk(s) && e.unit < |s.units| && s.units[e.unit].flight && e.resid <= s.units[e.unit].xferBuflen
    ensures IssuesOk(Reap(s, e))
  {
    IssuesKept(s, Reap(s, e), e.unit);
  }

  lemma NextIssues(s: State, s': State, serialize: bool)
    requires Inv(s, serialize) && IssuesOk(s) && Next(s, s', serialize)
    ensures IssuesOk(s')
  {
    if GetStep(s, s') {
      GetIssues(s, s', serialize);
    } else if u, a, batch :| SubmitStep(s, s', serialize, u, a, batch) {
      SubmitIssues(s, u, serialize && s.curDepth > 1 && InFlightOverlap(s, u), a, batch);
    } else if e :| ReapStep(s, s', e) {
      ReapIssues(s, e);
    }
  }

  lemma {:induction false} RunIssues(run: seq<State>, serialize: bool, k: nat)
    requires Run(run, serialize) && k < |run|
    ensures IssuesOk(run[k])
  {
    if k == 0 {
      assert IssuedSet(run[0].units) == {};
    } else {
      RunIssues(run, serialize, k - 1);
      RunInv(run, serialize, k - 1);
      assert Next(run[k - 1], run[k - 1 + 1], serialize);
      NextIssues(run[k - 1], run[k], serialize);
    }
  }

  /** In every run io_issues is the number of counted units in flight plus the
      completions of counted units, less one for every verify-list unit that was
      refused or came back short at once: it is exact if and only if there was
      none of those. */
  lemma IssuesExact(run: seq<State>, serialize: bool, k: nat)
    requires Run(run, serialize) && k < |run|
    ensures run[k].issues == |IssuedSet(run[k].units)| + run[k].settled - run[k].slips
    ensures run[k].issues == |IssuedSet(run[k].units)| + run[k].settled <==> run[k].slips == 0
  {
    RunIssues(run, serialize, k);
  }

  // A verify-list transfer that the engine refuses, or completes short at once
  // so that it is requeued.
  predicate SlipsBy(x: Unit, blocked: bool, a: Answer) {
    && !blocked && x.rw && x.verList
    && (a.Busy? || (a.Completed? && !a.error && 0 < a.resid < x.xferBuflen
                    && x.offset + (x.xferBuflen - a.resid) != x.fileSize))
  }

  ghost predicate Blocked(s: State, serialize: bool, u: nat)
    requires u < |s.units|
  {
    serialize && s.curDepth > 1 && InFlightOverlap(s, u)
  }

  ghost predicate SlipAt(s: State, s': State, serialize: bool, u: nat, a: Answer, batch: nat) {
    SubmitStep(s, s', serialize, u, a, batch) && SlipsBy(s.units[u], Blocked(s, serialize, u), a)
  }

  ghost predicate SlipStep(s: State, s': State, serialize: bool) {
    exists u, a, batch :: SlipAt(s, s', serialize, u, a, batch)
  }

  lemma SubmitSlips(s: State, u: nat, blocked: bool, a: Answer, batch: nat)
    requires u < |s.units| && !s.units[u].flight && (a.Completed? ==> a.resid <= s.units[u].xferBuflen)
    ensures Submit(s, u, blocked, a, batch).slips == s.slips + One(SlipsBy(s.units[u], blocked, a))
  {
  }

  lemma SubmitStepSlips(s: State, s': State, serialize: bool, u: nat, a: Answer, batch: nat)
    requires SubmitStep(s, s', serialize, u, a, batch)
    ensures s'.slips == s.slips + One(SlipAt(s, s', serialize, u, a, batch))
  {
    SubmitSlips(s, u, Blocked(s, serialize, u), a, batch);
  }

  lemma ReapSlips(s: State, e: Event)
    requires e.unit < |s.units| && e.resid <= s.units[e.unit].xferBuflen
    ensures Reap(s, e).slips == s.slips
  {
  }

  lemma NextSlips(s: State, s': State, serialize: bool)
    requires Next(s, s', serialize)
    ensures s'.slips == s.slips + One(SlipStep(s, s', serialize))
  {
    if SlipStep(s, s', serialize) {
      var u, a, batch :| SlipAt(s, s', serialize, u, a, batch);
      SubmitStepSlips(s, s', serialize, u, a, batch);
    } else if u, a, batch :| SubmitStep(s, s', serialize, u, a, batch) {
      SubmitStepSlips(s, s', serialize, u, a, batch);
    } else if e :| ReapStep(s, s', e) {
      ReapSlips(s, e);
    }
  }

  lemma RunSlips(run: seq<State>, serialize: bool)
    requires Run(run, serialize)
    ensures run[0].slips == 0
    ensures forall m :: 0 <= m < |run| - 1 ==>
      run[m + 1].slips == run[m].slips + One(SlipStep(run[m], run[m + 1], serialize))
  {
    forall m | 0 <= m < |run| - 1
      ensures run[m + 1].slips == run[m].slips + One(SlipStep(run[m], run[m + 1], serialize))
    {
      NextSlips(run[m], run[m + 1], serialize);
    }
  }

  lemma {:induction false} SlipsCount(run: seq<State>, serialize: bool, k: nat)
    requires k < |run| && run[0].slips == 0
    requires forall m :: 0 <= m < |run| - 1 ==>
      run[m + 1].slips == run[m].slips + One(SlipStep(run[m], run[m + 1], serialize))
    ensures run[k].slips == 0 <==> forall m :: 0 <= m < k ==> !SlipStep(run[m], run[m + 1], serialize)
  {
    if k != 0 {
      SlipsCount(run, serialize, k - 1);
      assert run[k - 1 + 1].slips == run[k - 1].slips + One(SlipStep(run[k - 1], run[k - 1 + 1], serialize));
    }
  }

  /** The same condition, said of the steps of the run. */
  lemma IssuesExactInRun(run: seq<State>, serialize: bool, k: nat)
    requires Run(run, serialize) && k < |run|
    ensures run[k].issues == |IssuedSet(run[k].units)| + run[k].settled <==>
            forall m :: 0 <= m < k ==> !SlipStep(run[m], run[m + 1], serialize)
  {
    IssuesExact(run, serialize, k);
    RunSlips(run, serialize);
    SlipsCount(run, serialize, k);
  }

  // A refused submission leaves the issue counter alone exactly when the unit
  // is not a read, write or trim from the verify list.
  lemma RefusalKeepsIssues(s: State, u: nat, blocked: bool, batch: nat)
    requires u < |s.units| && !s.units[u].flight
    ensures Submit(s, u, blocked, Busy, batch).issues == s.issues <==>
            blocked || !(s.units[u].rw && s.units[u].verList)
  {
  }

  // A short transfer that is requeued: counted once in all when the engine
  // completes synchronously, once more per piece when it is reaped.
  lemma ShortTransferIssues(s: State, u: nat, resid: nat, batch: nat)
    requires u < |s.units| && !s.units[u].flight && Counted(s.units[u])
    requires 0 < resid < s.units[u].xferBuflen
    requires s.units[u].offset + (s.units[u].xferBuflen - resid) < s.units[u].fileSize
    ensures Submit(s, u, false, Completed(false, resid), batch).issues == s.issues
    ensures Reap(Submit(s, u, false, Queued, batch), Event(u, false, resid)).issues == s.issues + 1
  {
  }

  // ---------------------------------------------------- pieces of a transfer

  datatype Piece = Piece(offset: nat, bytes: nat)
  datatype End = Pending | Full | EndOfFile(reaped: bool) | NoProgress | Failed

  // The pieces moved, how the transfer stands, where it is and what is left of
  // it, and the bytes credited to the job.
  datatype Trace = Trace(pieces: seq<Piece>, end: End, offset: nat, left: nat, credited: nat)

  // What one answer does to a transfer.  At the end of the file the two paths
  // differ: io_queue_event shortens the unit before io_completed looks at it.
  function Answered(t: Trace, r: Reply, fileSize: nat): Trace {
    if r.error || r.resid > t.left then t.(end := Failed)
    else
      var bytes := t.left - r.resid;
      var moved := t.(pieces := t.pieces + [Piece(t.offset, bytes)], offset := t.offset + bytes, left := r.resid);
      if r.resid == 0 then moved.(end := Full, credited := t.credited + bytes)
      else if bytes == 0 then t.(end := NoProgress)
      else if r.reaped && moved.offset >= fileSize then moved.(end := EndOfFile(true), credited := t.credited + bytes)
      else if !r.reaped && moved.offset == fileSize then moved.(end := EndOfFile(false))
      else moved
  }

  function Follow(start: nat, length: nat, fileSize: nat, replies: seq<Reply>): Trace {
    if replies == [] then Trace([], Pending, start, length, 0)
    else
      var t := Follow(start, length, fileSize, replies[..|replies| - 1]);
      if t.end.Pending? then Answered(t, replies[|replies| - 1], fileSize) else t
  }

  function Traced(x: Unit): Trace { Follow(x.start, x.buflen, x.fileSize, x.replies) }

  // The pieces follow one another from `from` to `to` without gap or overlap.
  predicate Tiles(pieces: seq<Piece>, from: nat, to: nat) {
    if pieces == [] then from == to
    else
      var last := pieces[|pieces| - 1];
      last.offset + last.bytes == to && Tiles(pieces[..|pieces| - 1], from, last.offset)
  }

  function TotalBytes(pieces: seq<Piece>): nat {
    if pieces == [] then 0 else TotalBytes(pieces[..|pieces| - 1]) + pieces[|pieces| - 1].bytes
  }

  lemma {:induction false} TilesTotal(pieces: seq<Piece>, from: nat, to: nat)
    requires Tiles(pieces, from, to)
    ensures TotalBytes(pieces) == to - from
  {
    if pieces != [] {
      TilesTotal(pieces[..|pieces| - 1], from, pieces[|pieces| - 1].offset);
    }
  }

  // The transfer ended in a way that io_completed credits.
  predicate Credits(t: Trace) { t.end.Full? || t.end == EndOfFile(true) }

  // The pieces cover what is not left.
  predicate Covers(t: Trace, start: nat, length: nat) {
    Tiles(t.pieces, start, t.offset) && t.offset + t.left == start + length
  }

  // Every piece moved a byte, so there are no more of them than bytes; the
  // credit is the last piece or nothing.
  predicate Counts(t: Trace, length: nat, n: nat) {
    && (t.end.Pending? ==> |t.pieces| == n && n + t.left <= length && (length > 0 ==> t.left > 0))
    && (t.end.Full? ==> t.left == 0)
    && (Credits(t) ==> t.pieces != [])
    && (length == 0 ==> t.pieces == [] || (|t.pieces| == 1 && t.end.Full?))
    && (forall i :: 0 <= i < |t.pieces| && length > 0 ==> t.pieces[i].bytes > 0)
    && t.credited == if Credits(t) then t.pieces[|t.pieces| - 1].bytes else 0
  }

  // What holds of a transfer after at most n answers.
  predicate Sound(t: Trace, start: nat, length: nat, n: nat) {
    Covers(t, start, length) && Counts(t, length, n)
  }

  lemma TilesMore(pieces: seq<Piece>, from: nat, to: nat, bytes: nat)
    requires Tiles(pieces, from, to)
    ensures Tiles(pieces + [Piece(to, bytes)], from, to + bytes)
  {
    assert (pieces + [Piece(to, bytes)])[..|pieces|] == pieces;
  }

  lemma CoversStep(t: Trace, r: Reply, fileSize: nat, start: nat, length: nat)
    requires Covers(t, start, length)
    ensures Covers(Answered(t, r, fileSize), start, length)
  {
    if !r.error && r.resid <= t.left {
      TilesMore(t.pieces, start, t.offset, t.left - r.resid);
    }
  }

  lemma CountsStep(t: Trace, r: Reply, fileSize: nat, length: nat, n: nat)
    requires Counts(t, length, n) && t.end.Pending?
    ensures Counts(Answered(t, r, fileSize), length, n + 1)
  {
  }

  lemma SoundStep(t: Trace, r: Reply, fileSize: nat, start: nat, length: nat, n: nat)
    requires Sound(t, start, length, n) && t.end.Pending?
    ensures Sound(Answered(t, r, fileSize), start, length, n + 1)
  {
    CoversStep(t, r, fileSize, start, length);
    CountsStep(t, r, fileSize, length, n);
  }

  lemma {:induction false} FollowSound(start: nat, length: nat, fileSize: nat, replies: seq<Reply>)
    ensures Sound(Follow(start, length, fileSize, replies), start, length, |replies|)
    decreases |replies|
  {
    if replies != [] {
      var before := replies[..|replies| - 1];
      FollowSound(start, length, fileSize, before);
      var t := Follow(start, length, fileSize, before);
      if t.end.Pending? {
        SoundStep(t, replies[|replies| - 1], fileSize, start, length, |before|);
      }
    }
  }

  // Credited in full: nothing moved, or one piece that the completion credits.
  predicate Direct(t: Trace) { t.pieces == [] || (|t.pieces| == 1 && Credits(t)) }

  /** Of the bytes a transfer moved, those credited to the job are the last piece
      or none; they are all of them if and only if it went in one piece, and not
      to the end of the file at once. */
  lemma AccountedInFullWhen(start: nat, length: nat, fileSize: nat, replies: seq<Reply>)
    ensures var t := Follow(start, length, fileSize, replies);
            && t.credited <= TotalBytes(t.pieces) == t.offset - start
            && (t.credited == TotalBytes(t.pieces) <==> Direct(t))
            && (t.end.Full? ==> TotalBytes(t.pieces) == length)
  {
    var t := Follow(start, length, fileSize, replies);
    FollowSound(start, length, fileSize, replies);
    TilesTotal(t.pieces, start, t.offset);
    if t.pieces != [] {
      var before := t.pieces[..|t.pieces| - 1];
      TilesTotal(before, start, t.pieces[|t.pieces| - 1].offset);
      if before != [] && length > 0 {
        assert before[|before| - 1].bytes > 0;
      }
    }
  }

  // ------------------------------------------- transfers in the state machine

  lemma NoteStep(x: Unit, r: Reply)
    ensures Traced(Note(x, r)) == if Traced(x).end.Pending? then Answered(Traced(x), r, x.fileSize) else Traced(x)
  {
    assert (x.replies + [r])[..|x.replies|] == x.replies;
  }

  // The unit is where its answers have brought it.
  predicate OnTrack(x: Unit) {
    x.rw ==> var t := Traced(x); t.end.Pending? && t.offset == x.offset && t.left == x.xferBuflen
  }

  function CreditsOf(done: seq<Unit>): seq<nat> {
    seq(|done|, i requires 0 <= i < |done| => Traced(done[i]).credited)
  }

  function MovedBy(done: seq<Unit>): seq<nat> {
    seq(|done|, i requires 0 <= i < |done| => TotalBytes(Traced(done[i]).pieces))
  }

  // The byte counter is what the finished transfers were credited.
  ghost predicate Paid(ioBytes: nat, done: seq<Unit>) {
    && ioBytes == Sum(CreditsOf(done))
    && forall i :: 0 <= i < |done| ==> !Traced(done[i]).end.Pending?
  }

  // All units that are not free are on track, but perhaps u.
  ghost predicate TrackedBut(units: seq<Unit>, free: seq<nat>, u: int) {
    forall k :: 0 <= k < |units| && k !in free && k != u ==> OnTrack(units[k])
  }

  ghost predicate Tracked(s: State) {
    TrackedBut(s.units, s.free, -1) && Paid(s.ioBytes, s.done)
  }

  lemma PaidMore(ioBytes: nat, done: seq<Unit>, x: Unit)
    requires Paid(ioBytes, done) && !Traced(x).end.Pending?
    ensures Paid(ioBytes + Traced(x).credited, done + [x])
  {
    assert CreditsOf(done + [x]) == CreditsOf(done) + [Traced(x).credited];
    SumAppend(CreditsOf(done), Traced(x).credited);
  }

  // Unit u is given back with its transfer ended and credited.
  lemma CloseTracked(s: State, u: nat, credit: nat)
    requires u < |s.units| && TrackedBut(s.units, s.free, u) && Paid(s.ioBytes, s.done)
    requires s.units[u].rw ==> !Traced(s.units[u]).end.Pending? && Traced(s.units[u]).credited == credit
    requires !s.units[u].rw ==> credit == 0
    ensures Tracked(Close(s.(ioBytes := s.ioBytes + credit), u))
  {
    if s.units[u].rw {
      PaidMore(s.ioBytes, s.done, s.units[u]);
    }
    assert forall k :: k in s.free + [u] <==> k in s.free || k == u;
  }

  lemma RequeueTracked(s: State, u: nat)
    requires u < |s.units| && TrackedBut(s.units, s.free, u) && Paid(s.ioBytes, s.done) && OnTrack(s.units[u])
    ensures Tracked(Requeue(s, u))
  {
  }

  // A short answer moves the unit along its track, or ends it.
  lemma ShortAnswer(x: Unit, resid: nat)
    requires x.rw && OnTrack(x) && 0 < resid < x.xferBuflen
    ensures var y := Advance(Note(x, Reply(resid, true, false)).(flight := false), resid);
            if y.offset < x.fileSize then OnTrack(y)
            else !Traced(y).end.Pending? && Traced(y).credited == x.xferBuflen - resid
  {
    NoteStep(x, Reply(resid, true, false));
    Uncredited(x);
    var y := Advance(Note(x, Reply(resid, true, false)).(flight := false), resid);
    assert Traced(y) == Traced(Note(x, Reply(resid, true, false)));
  }

  // io_completed with the answer already noted, before the unit is moved on:
  // a short transfer …
  lemma ShortTracked(s: State, u: nat, resid: nat, x: Unit)
    requires u < |s.units| && 0 < resid < x.xferBuflen && x.rw && s.units[u] == Note(x, Reply(resid, true, false))
    requires TrackedBut(s.units, s.free, u) && Paid(s.ioBytes, s.done) && OnTrack(x)
    ensures Tracked(IoCompleted(s, u, false, resid))
  {
    ShortAnswer(x, resid);
    var y := Advance(Note(x, Reply(resid, true, false)).(flight := false), resid);
    var moved := SetUnit(Settle(s, u), u, y);
    assert TrackedBut(moved.units, moved.free, u);
    if y.offset < x.fileSize {
      RequeueTracked(moved, u);
    } else {
      CloseTracked(moved, u, x.xferBuflen - resid);
    }
  }

  // … and any other.
  lemma CompletedTracked(s: State, u: nat, error: bool, resid: nat, x: Unit, reaped: bool)
    requires u < |s.units| && resid <= s.units[u].xferBuflen && s.units[u] == Note(x, Reply(resid, reaped, error))
    requires TrackedBut(s.units, s.free, u) && Paid(s.ioBytes, s.done) && OnTrack(x)
    requires reaped || (resid == 0 && !error)
    ensures Tracked(IoCompleted(s, u, error, resid))
  {
    if !error && x.rw && 0 < resid < x.xferBuflen {
      ShortTracked(s, u, resid, x);
    } else {
      NoteStep(x, Reply(resid, reaped, error));
      Uncredited(x);
      CloseTracked(Settle(s, u), u, if !error && x.rw then x.xferBuflen - resid else 0);
    }
  }

  lemma Uncredited(x: Unit)
    ensures Traced(x).end.Pending? ==> Traced(x).credited == 0
  {
    FollowSound(x.start, x.buflen, x.fileSize, x.replies);
  }

  lemma SyncEventTracked(s: State, u: nat, error: bool, resid: nat)
    requires Tracked(s) && u < |s.units| && u !in s.free && resid <= s.units[u].xferBuflen
    ensures Tracked(SyncEvent(s, u, error, resid))
  {
    var r := Reply(resid, false, error);
    var x := Note(s.units[u], r);
    var noted := SetUnit(s, u, x);
    assert OnTrack(s.units[u]);
    NoteStep(s.units[u], r);
    Uncredited(s.units[u]);
    if error || 0 < resid == x.xferBuflen {
      CloseTracked(Settle(noted, u), u, 0);
    } else if resid == 0 {
      CompletedTracked(noted, u, false, 0, s.units[u], false);
    } else {
      var moved := SetUnit(noted, u, Advance(x, resid));
      if moved.units[u].offset == x.fileSize {
        CloseTracked(Settle(moved, u), u, 0);
      } else {
        RequeueTracked(moved, u);
      }
    }
  }

  lemma SubmitTracked(s: State, u: nat, blocked: bool, a: Answer, batch: nat)
    requires Tracked(s) && u < |s.units| && u !in s.free && (a.Completed? ==> a.resid <= s.units[u].xferBuflen)
    ensures Tracked(Submit(s, u, blocked, a, batch))
  {
    assert OnTrack(s.units[u]);
    if blocked {
      RequeueTracked(s, u);
    } else {
      var q := Queue(s, u, a, batch);
      assert Tracked(q);
      match a
      case Completed(error, resid) => SyncEventTracked(q, u, error, resid);
      case Queued =>
      case Busy => RequeueTracked(q, u);
    }
  }

  lemma ReapTracked(s: State, e: Event)
    requires Tracked(s) && e.unit < |s.units| && e.unit !in s.free && e.resid <= s.units[e.unit].xferBuflen
    ensures Tracked(Reap(s, e))
  {
    var x := s.units[e.unit];
    assert OnTrack(x);
    CompletedTracked(Fetched(s, e), e.unit, e.error, e.resid, x, true);
  }

  lemma GetTracked(s: State, s': State)
    requires Placed(s) && Tracked(s) && GetStep(s, s')
    ensures Tracked(s')
  {
    var range :| s' == Get(s, range).0;
    var u := Get(s, range).1;
    if s.requeues != [] {
      assert u in s.requeues;
      assert OnTrack(s.units[u]);
    } else {
      assert OnTrack(Fresh(range));
      assert s.free == s'.free + [u];
    }
  }

  lemma NextTracked(s: State, s': State, serialize: bool)
    requires Inv(s, serialize) && Tracked(s) && Next(s, s', serialize)
    ensures Tracked(s')
  {
    if GetStep(s, s') {
      GetTracked(s, s');
    } else if u, a, batch :| SubmitStep(s, s', serialize, u, a, batch) {
      SubmitTracked(s, u, serialize && s.curDepth > 1 && InFlightOverlap(s, u), a, batch);
    } else if e :| ReapStep(s, s', e) {
      ReapTracked(s, e);
    }
  }

  lemma {:induction false} RunTracked(run: seq<State>, serialize: bool, k: nat)
    requires Run(run, serialize) && k < |run|
    ensures Tracked(run[k])
  {
    if k == 0 {
      forall i | 0 <= i < |run[0].units| ensures i in run[0].free {
        assert run[0].free[i] == i;
      }
    } else {
      RunTracked(run, serialize, k - 1);
      RunInv(run, serialize, k - 1);
      assert Next(run[k - 1], run[k - 1 + 1], serialize);
      NextTracked(run[k - 1], run[k], serialize);
    }
  }

  /** Every transfer under way, in every run: the pieces moved so far tile the
      range from its start to where the unit is now, the rest is what is still
      asked for, every piece moved a byte, and there were no more answers than
      bytes. */
  lemma PiecesTile(run: seq<State>, serialize: bool, k: nat, u: nat)
    requires Run(run, serialize) && k < |run| && u < |run[k].units| && u !in run[k].free && run[k].units[u].rw
    ensures var x := run[k].units[u];
            var t := Traced(x);
            && Tiles(t.pieces, x.start, x.offset) && x.offset + x.xferBuflen == x.start + x.buflen
            && |t.pieces| == |x.replies| <= x.buflen
            && (x.buflen > 0 ==> forall i :: 0 <= i < |t.pieces| ==> t.pieces[i].bytes > 0)
  {
    RunTracked(run, serialize, k);
    var x := run[k].units[u];
    assert OnTrack(x);
    FollowSound(x.start, x.buflen, x.fileSize, x.replies);
  }

  /** A transfer that has had more answers than it has bytes is over. */
  lemma ChainEnds(start: nat, length: nat, fileSize: nat, replies: seq<Reply>)
    requires |replies| > length
    ensures !Follow(start, length, fileSize, replies).end.Pending?
  {
    FollowSound(start, length, fileSize, replies);
  }

  /** io_bytes against the bytes the finished transfers moved, in every run: never
      more, and equal if and only if each of them went in one credited piece. */
  lemma BytesExactIff(run: seq<State>, serialize: bool, k: nat)
    requires Run(run, serialize) && k < |run|
    ensures run[k].ioBytes <= Sum(MovedBy(run[k].done))
    ensures run[k].ioBytes == Sum(MovedBy(run[k].done)) <==>
            forall i :: 0 <= i < |run[k].done| ==> Direct(Traced(run[k].done[i]))
  {
    RunTracked(run, serialize, k);
    var done := run[k].done;
    var x, y := CreditsOf(done), MovedBy(done);
    forall i | 0 <= i < |done| ensures x[i] <= y[i] && (x[i] == y[i] <==> Direct(Traced(done[i]))) {
      AccountedInFullWhen(done[i].start, done[i].buflen, done[i].fileSize, done[i].replies);
    }
    SumBelow(x, y);
    if x == y {
      forall i | 0 <= i < |done| ensures Direct(Traced(done[i])) {
        assert x[i] == y[i];
      }
    } else {
      var i :| 0 <= i < |done| && x[i] != y[i];
      assert !Direct(Traced(done[i]));
    }
  }

  // ----------------------------------------------------------- concrete runs

  function Blank(verList: bool): Unit { Unit(0, 8, 8, false, verList, true, 100, 0, []) }

  function Alone(x: Unit): State { State([x], [0], [], {}, 0, 0, 0, 0, 0, [], 0, 0) }

  lemma AloneInit(x: Unit)
    requires !x.flight
    ensures Init(Alone(x)) && Bounded(Alone(x))
  {
  }

  // The short transfer, stage by stage.
  function Short(k: nat): State {
    var x := Blank(false);
    var half := x.(offset := 5, xferBuflen := 3, replies := [Reply(3, false, false)]);
    if k == 0 then Alone(x)
    else if k == 1 then State([x], [], [], {0}, 1, 0, 0, 0, 0, [], 0, 0)
    else if k == 2 then State([half], [], [0], {}, 0, 0, 0, 0, 0, [], 0, 0)
    else if k == 3 then State([half], [], [], {0}, 1, 0, 0, 0, 0, [], 0, 0)
    else
      var whole := Note(half, Reply(0, false, false));
      State([whole], [0], [], {}, 0, 0, 0, 1, 3, [whole], 1, 0)
  }

  lemma ShortGets()
    ensures GetStep(Short(0), Short(1)) && GetStep(Short(2), Short(3))
  {
    var x := Blank(false);
    assert Get(Short(0), x).0 == Short(1);
    assert Get(Short(2), x).0 == Short(3);
  }

  lemma ShortSubmits()
    ensures SubmitStep(Short(1), Short(2), false, 0, Completed(false, 3), 1)
    ensures SubmitStep(Short(3), Short(4), false, 0, Completed(false, 0), 1)
  {
    var first := Reply(3, false, false);
    var none: seq<Reply> := [];
    assert {0} - {0} == {} && none + [first] == [first];
    assert Submit(Short(1), 0, false, Completed(false, 3), 1) == Short(2);
    assert Submit(Short(3), 0, false, Completed(false, 0), 1) == Short(4);
  }

  lemma ShortStep(k: nat)
    requires k < 4
    ensures Next(Short(k), Short(k + 1), false)
  {
    ShortGets();
    ShortSubmits();
  }

  lemma ShortMoves()
    ensures Sum(MovedBy(Short(4).done)) == 8
  {
    var half := Blank(false).(offset := 5, xferBuflen := 3, replies := [Reply(3, false, false)]);
    var whole := Note(half, Reply(0, false, false));
    NoteStep(half.(replies := []), Reply(3, false, false));
    NoteStep(half, Reply(0, false, false));
    AccountedInFullWhen(0, 8, 100, whole.replies);
    assert MovedBy([whole]) == [8];
    assert [8][1..] == [];
  }

  /** Eight bytes moved at once as five and three: io_bytes says three. */
  lemma ShortTransferLosesBytes() returns (run: seq<State>)
    ensures Run(run, false) && |run| == 5
    ensures run[4].ioBytes == 3 && Sum(MovedBy(run[4].done)) == 8
  {
    run := seq(5, (k: nat) => Short(k));
    AloneInit(Blank(false));
    ShortMoves();
    forall k | 0 <= k < 4 ensures Next(run[k], run[k + 1], false) { ShortStep(k); }
  }

  /** A verify-list unit that is refused takes io_issues below zero. */
  lemma RefusalLowersIssues() returns (run: seq<State>)
    ensures Run(run, false) && |run| == 3 && run[2].issues == -1
  {
    var x := Blank(true);
    AloneInit(x);
    var s1 := State([x], [], [], {0}, 1, 0, 0, 0, 0, [], 0, 0);
    assert Get(Alone(x), x).0 == s1;
    assert GetStep(Alone(x), s1);
    var s2 := Submit(s1, 0, false, Busy, 1);
    assert SubmitStep(s1, s2, false, 0, Busy, 1);
    run := [Alone(x), s1, s2];
    assert Next(run[0], run[1], false) && Next(run[1], run[2], false);
  }
}
