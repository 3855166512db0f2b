/**
 The job thread's counters said of what happened: for a run of module IoUnits
 together with the act of each of its steps, `io_bytes` and `io_issues` are
 computed from the acts alone.
 */
module IoLog {
  import opened Common
  import opened IoBooks
  import opened IoUnits
  import opened Sums

  datatype Act =
    | Got(unit: nat, range: Unit, first: bool)              // first: from the free stack
    | GivenBack(unit: nat)
    | Committed
    | Submitted(unit: nat, blocked: bool, answer: Answer, batch: nat)
    | Reaped(event: Event)

  ghost predicate StepBy(s: State, act: Act, s': State, serialize: bool) {
    match act
    case Got(u, range, first) =>
      Bounded(s) && (s.requeues != [] || s.free != []) && (s', u) == Get(s, range) && first == (s.requeues == [])
    case GivenBack(u) => u in s.out && u < |s.units| && !s.units[u].flight && s' == Put(s, u)
    case Committed => s' == Commit(s)
    case Submitted(u, blocked, a, batch) =>
      SubmitStep(s, s', serialize, u, a, batch) && blocked == Blocked(s, serialize, u)
    case Reaped(e) => ReapStep(s, s', e)
  }

  lemma NextHasAct(s: State, s': State, serialize: bool)
    requires Next(s, s', serialize)
    ensures exists act :: StepBy(s, act, s', serialize)
  {
    if GetStep(s, s') {
      var range :| s' == Get(s, range).0;
      assert StepBy(s, Got(Get(s, range).1, range, s.requeues == []), s', serialize);
    } else if u :| u in s.out && u < |s.units| && !s.units[u].flight && s' == Put(s, u) {
      assert StepBy(s, GivenBack(u), s', serialize);
    } else if s' == Commit(s) {
      assert StepBy(s, Committed, s', serialize);
    } else if u, a, batch :| SubmitStep(s, s', serialize, u, a, batch) {
      assert StepBy(s, Submitted(u, Blocked(s, serialize, u), a, batch), s', serialize);
    } else {
      var e :| ReapStep(s, s', e);
      assert StepBy(s, Reaped(e), s', serialize);
    }
  }

  ghost predicate Logged(run: seq<State>, acts: seq<Act>, serialize: bool) {
    && Run(run, serialize) && |acts| == |run| - 1
    && forall i {:trigger acts[i]} :: 0 <= i < |acts| ==> StepBy(run[i], acts[i], run[i + 1], serialize)
  }

  // Every run has such a log.
  lemma {:induction false} LogUpTo(run: seq<State>, serialize: bool, n: nat) returns (acts: seq<Act>)
    requires Run(run, serialize) && n < |run|
    ensures |acts| == n
    ensures forall i {:trigger acts[i]} :: 0 <= i < n ==> StepBy(run[i], acts[i], run[i + 1], serialize)
  {
    acts := [];
    if n != 0 {
      acts := LogUpTo(run, serialize, n - 1);
      var act := ActAt(run, serialize, n - 1);
      acts := acts + [act];
    }
  }

  lemma ActAt(run: seq<State>, serialize: bool, i: nat) returns (act: Act)
    requires Run(run, serialize) && i + 1 < |run|
    ensures StepBy(run[i], act, run[i + 1], serialize)
  {
    NextHasAct(run[i], run[i + 1], serialize);
    act :| StepBy(run[i], act, run[i + 1], serialize);
  }

  lemma RunHasLog(run: seq<State>, serialize: bool) returns (acts: seq<Act>)
    requires Run(run, serialize)
    ensures Logged(run, acts, serialize)
  {
    acts := LogUpTo(run, serialize, |run| - 1);
  }

  // ------------------------------------------------------ read off the acts

  // The answer an act brings about unit u, if any.
  function Brings(act: Act, u: nat): seq<Reply> {
    match act
    case Submitted(v, blocked, a, _) =>
      if v == u && !blocked && a.Completed? then [Reply(a.resid, false, a.error)] else []
    case Reaped(e) => if e.unit == u then [Reply(e.resid, true, e.error)] else []
    case _ => []
  }

  // The transfer for which unit u was last taken from the free stack.
  function Asked(acts: seq<Act>, u: nat): Option<Unit> {
    if acts == [] then None
    else
      var last := acts[|acts| - 1];
      if last.Got? && last.unit == u && last.first then Some(last.range) else Asked(acts[..|acts| - 1], u)
  }

  // Whether it counts as a verify-list transfer: as asked, until it is handed
  // out again.
  function Verifying(acts: seq<Act>, u: nat): bool {
    if acts == [] then false
    else
      var last := acts[|acts| - 1];
      if last.Got? && last.unit == u then last.first && last.range.verList else Verifying(acts[..|acts| - 1], u)
  }

  // The answers to that transfer since.
  function AnswersFor(acts: seq<Act>, u: nat): seq<Reply> {
    if acts == [] then []
    else
      var last := acts[|acts| - 1];
      if last.Got? && last.unit == u && last.first then []
      else AnswersFor(acts[..|acts| - 1], u) + Brings(last, u)
  }

  // How that transfer stands.
  function Standing(acts: seq<Act>, u: nat): Trace {
    var x := Asked(acts, u);
    if x.None? then Follow(0, 0, 0, [])
    else Follow(x.value.offset, x.value.buflen, x.value.fileSize, AnswersFor(acts, u))
  }

  predicate Transfers(acts: seq<Act>, u: nat) { Asked(acts, u).Some? && Asked(acts, u).value.rw }

  // The bytes the last act earns: what the answer credits to its transfer.
  function Earned(acts: seq<Act>): nat
    requires acts != []
  {
    var before, last := acts[..|acts| - 1], acts[|acts| - 1];
    if last.Submitted? && Transfers(before, last.unit) && Brings(last, last.unit) != [] then
      Credit(before, last.unit, Brings(last, last.unit)[0])
    else if last.Reaped? && Transfers(before, last.event.unit) then
      Credit(before, last.event.unit, Brings(last, last.event.unit)[0])
    else 0
  }

  function Credit(acts: seq<Act>, u: nat, r: Reply): nat {
    if Asked(acts, u).None? then 0 else Answered(Standing(acts, u), r, Asked(acts, u).value.fileSize).credited
  }

  function EarnedInAll(acts: seq<Act>): nat {
    if acts == [] then 0 else EarnedInAll(acts[..|acts| - 1]) + Earned(acts)
  }

  // A submission that comes straight back: refused, or moved in part at once.
  predicate ComesBack(acts: seq<Act>, u: nat, a: Answer) {
    a.Busy?
    || (a.Completed? && Asked(acts, u).Some?
        && var r := Reply(a.resid, false, a.error);
           Answered(Standing(acts, u), r, Asked(acts, u).value.fileSize).end.Pending?)
  }

  // What the last act does to io_issues: one for a transfer that stays with the
  // engine or is over, one less for one of the verify list.
  function IssueChange(acts: seq<Act>): int
    requires acts != []
  {
    var before, last := acts[..|acts| - 1], acts[|acts| - 1];
    if last.Submitted? && !last.blocked && Transfers(before, last.unit) then
      One(!ComesBack(before, last.unit, last.answer)) - One(Verifying(before, last.unit))
    else 0
  }

  function IssuedInAll(acts: seq<Act>): int {
    if acts == [] then 0 else IssuedInAll(acts[..|acts| - 1]) + IssueChange(acts)
  }

  // --------------------------------------------------- the units agree with it

  predicate AsAsked(x: Unit, range: Unit) {
    x.start == range.offset && x.buflen == range.buflen && x.fileSize == range.fileSize && x.rw == range.rw
  }

  // Unit x carries the transfer the acts tell of.
  predicate Agrees(x: Unit, acts: seq<Act>, u: nat) {
    && Asked(acts, u).Some? && AsAsked(x, Asked(acts, u).value)
    && x.verList == Verifying(acts, u) && x.replies == AnswersFor(acts, u)
  }

  ghost predicate AllAgree(s: State, acts: seq<Act>) {
    forall u :: 0 <= u < |s.units| && u !in s.free ==> Agrees(s.units[u], acts, u)
  }

  // The fields that no answer changes.
  predicate SameTransfer(x: Unit, y: Unit) {
    x.start == y.start && x.buflen == y.buflen && x.fileSize == y.fileSize && x.rw == y.rw && x.verList == y.verList
  }

  // What a step about unit u does to the units and the free stack.
  predicate OnlyUnit(s: State, t: State, u: nat, heard: seq<Reply>)
    requires u < |s.units|
  {
    && |t.units| == |s.units| && (forall k :: 0 <= k < |s.units| && k != u ==> t.units[k] == s.units[k])
    && SameTransfer(t.units[u], s.units[u]) && t.units[u].replies == s.units[u].replies + heard
    && (t.free == s.free || t.free == s.free + [u])
  }

  lemma CompletedUnits(s: State, u: nat, error: bool, resid: nat)
    requires u < |s.units| && resid <= s.units[u].xferBuflen
    ensures OnlyUnit(s, IoCompleted(s, u, error, resid), u, [])
  {
  }

  lemma SyncUnits(s: State, u: nat, error: bool, resid: nat)
    requires u < |s.units| && resid <= s.units[u].xferBuflen
    ensures OnlyUnit(s, SyncEvent(s, u, error, resid), u, [Reply(resid, false, error)])
  {
    var x := Note(s.units[u], Reply(resid, false, error));
    var noted := SetUnit(s, u, x);
    CompletedUnits(noted, u, false, resid);
    CompletedUnits(SetUnit(noted, u, Advance(x, resid)), u, false, resid);
  }

  lemma SubmitUnits(s: State, u: nat, blocked: bool, a: Answer, batch: nat)
    requires u < |s.units| && (a.Completed? ==> a.resid <= s.units[u].xferBuflen)
    ensures OnlyUnit(s, Submit(s, u, blocked, a, batch), u, Brings(Submitted(u, blocked, a, batch), u))
  {
    if a.Completed? && !blocked {
      SyncUnits(Queue(s, u, a, batch), u, a.error, a.resid);
    }
  }

  lemma ReapUnits(s: State, e: Event)
    requires e.unit < |s.units| && e.resid <= s.units[e.unit].xferBuflen
    ensures OnlyUnit(s, Reap(s, e), e.unit, Brings(Reaped(e), e.unit))
  {
  }

  lemma GotUnits(s: State, range: Unit)
    requires Placed(s) && (s.requeues != [] || s.free != [])
    ensures var (t, u) := Get(s, range);
            && u < |s.units| == |t.units| && (forall k :: 0 <= k < |s.units| && k != u ==> t.units[k] == s.units[k])
            && (forall k :: k in s.free && k != u ==> k in t.free)
            && (s.requeues != [] ==> u !in s.free && t.units[u] == s.units[u].(verList := false))
            && (s.requeues == [] ==> t.units[u] == Fresh(range))
  {
    if s.requeues != [] {
      GetOldest(s, range);
      assert s.requeues[0] in s.requeues;
    } else {
      GetTop(s, range);
      assert s.free == s.free[..|s.free| - 1] + [s.free[|s.free| - 1]];
    }
  }

  lemma Appended(acts: seq<Act>, act: Act, u: nat)
    ensures Asked(acts + [act], u) == if act.Got? && act.unit == u && act.first then Some(act.range) else Asked(acts, u)
    ensures Verifying(acts + [act], u) ==
            if act.Got? && act.unit == u then act.first && act.range.verList else Verifying(acts, u)
    ensures AnswersFor(acts + [act], u) ==
            if act.Got? && act.unit == u && act.first then [] else AnswersFor(acts, u) + Brings(act, u)
  {
    assert (acts + [act])[..|acts|] == acts;
  }

  lemma AgreeGot(s: State, v: nat, range: Unit, first: bool, s': State, acts: seq<Act>, serialize: bool, u: nat)
    requires Inv(s, serialize) && StepBy(s, Got(v, range, first), s', serialize) && AllAgree(s, acts)
    requires u < |s'.units| && u !in s'.free
    ensures Agrees(s'.units[u], acts + [Got(v, range, first)], u)
  {
    Appended(acts, Got(v, range, first), u);
    GotUnits(s, range);
  }

  lemma AgreeHeard(s: State, s': State, v: nat, act: Act, acts: seq<Act>, u: nat)
    requires v < |s.units| && OnlyUnit(s, s', v, Brings(act, v)) && AllAgree(s, acts)
    requires (act.Submitted? && act.unit == v) || (act.Reaped? && act.event.unit == v)
    requires u < |s'.units| && u !in s'.free && v !in s.free
    ensures Agrees(s'.units[u], acts + [act], u)
  {
    Appended(acts, act, u);
    assert u !in s.free;
  }

  lemma AgreeStep(s: State, act: Act, s': State, acts: seq<Act>, serialize: bool, u: nat)
    requires Inv(s, serialize) && StepBy(s, act, s', serialize) && AllAgree(s, acts)
    requires u < |s'.units| && u !in s'.free
    ensures Agrees(s'.units[u], acts + [act], u)
  {
    match act
    case Got(v, range, first) => AgreeGot(s, v, range, first, s', acts, serialize, u);
    case GivenBack(v) => Appended(acts, act, u);
    case Committed => Appended(acts, act, u);
    case Submitted(v, blocked, a, batch) =>
      SubmitUnits(s, v, blocked, a, batch);
      AgreeHeard(s, s', v, act, acts, u);
    case Reaped(e) =>
      ReapUnits(s, e);
      AgreeHeard(s, s', e.unit, act, acts, u);
  }

  lemma AllAgreeStep(s: State, act: Act, s': State, acts: seq<Act>, serialize: bool)
    requires Inv(s, serialize) && StepBy(s, act, s', serialize) && AllAgree(s, acts)
    ensures AllAgree(s', acts + [act])
  {
    forall u | 0 <= u < |s'.units| && u !in s'.free ensures Agrees(s'.units[u], acts + [act], u) {
      AgreeStep(s, act, s', acts, serialize, u);
    }
  }

  lemma AgreesAtFirst(s: State)
    requires Init(s)
    ensures AllAgree(s, [])
  {
    forall u | 0 <= u < |s.units| ensures u in s.free {
      assert s.free[u] == u;
    }
  }

  lemma Grown(acts: seq<Act>, n: nat)
    requires 0 < n <= |acts|
    ensures acts[..n] == acts[..n - 1] + [acts[n - 1]]
  {
  }

  lemma {:induction false} RunAgrees(run: seq<State>, acts: seq<Act>, serialize: bool, n: nat)
    requires Logged(run, acts, serialize) && n < |run|
    ensures AllAgree(run[n], acts[..n])
  {
    if n == 0 {
      AgreesAtFirst(run[0]);
    } else {
      RunAgrees(run, acts, serialize, n - 1);
      RunInv(run, serialize, n - 1);
      ActOf(run, acts, serialize, n - 1);
      AllAgreeStep(run[n - 1], acts[n - 1], run[n], acts[..n - 1], serialize);
      Grown(acts, n);
    }
  }

  lemma ActOf(run: seq<State>, acts: seq<Act>, serialize: bool, i: nat)
    requires Logged(run, acts, serialize) && i < |acts|
    ensures StepBy(run[i], acts[i], run[i + 1], serialize)
  {
  }

  // ---------------------------------------------------------------- io_bytes

  lemma SyncBytes(s: State, u: nat, error: bool, resid: nat)
    requires u < |s.units| && resid <= s.units[u].xferBuflen && OnTrack(s.units[u])
    ensures var x := s.units[u];
            SyncEvent(s, u, error, resid).ioBytes ==
            s.ioBytes + if x.rw then Answered(Traced(x), Reply(resid, false, error), x.fileSize).credited else 0
  {
    Uncredited(s.units[u]);
  }

  lemma ReapBytes(s: State, e: Event)
    requires e.unit < |s.units| && e.resid <= s.units[e.unit].xferBuflen && OnTrack(s.units[e.unit])
    ensures var x := s.units[e.unit];
            Reap(s, e).ioBytes ==
            s.ioBytes + if x.rw then Answered(Traced(x), Reply(e.resid, true, e.error), x.fileSize).credited else 0
  {
    Uncredited(s.units[e.unit]);
  }

  lemma SubmitBytes(s: State, u: nat, blocked: bool, a: Answer, batch: nat)
    requires u < |s.units| && (a.Completed? ==> a.resid <= s.units[u].xferBuflen) && OnTrack(s.units[u])
    ensures var x, heard := s.units[u], Brings(Submitted(u, blocked, a, batch), u);
            Submit(s, u, blocked, a, batch).ioBytes ==
            s.ioBytes + if x.rw && heard != [] then Answered(Traced(x), heard[0], x.fileSize).credited else 0
  {
    if a.Completed? && !blocked {
      var q := Queue(s, u, a, batch);
      assert Traced(q.units[u]) == Traced(s.units[u]);
      SyncBytes(q, u, a.error, a.resid);
    }
  }

  // A unit that is handed out has the transfer the acts tell of.
  lemma StandsThere(s: State, acts: seq<Act>, u: nat, serialize: bool)
    requires Inv(s, serialize) && AllAgree(s, acts) && Tracked(s) && u in s.out && u < |s.units|
    ensures OnTrack(s.units[u]) && Agrees(s.units[u], acts, u) && Standing(acts, u) == Traced(s.units[u])
  {
  }

  lemma SubmittedEarns(s: State, act: Act, s': State, acts: seq<Act>, serialize: bool)
    requires Inv(s, serialize) && StepBy(s, act, s', serialize) && AllAgree(s, acts) && Tracked(s) && act.Submitted?
    ensures s'.ioBytes == s.ioBytes + Earned(acts + [act])
  {
    assert (acts + [act])[..|acts|] == acts;
    StandsThere(s, acts, act.unit, serialize);
    SubmitBytes(s, act.unit, act.blocked, act.answer, act.batch);
  }

  lemma ReapedEarns(s: State, act: Act, s': State, acts: seq<Act>, serialize: bool)
    requires Inv(s, serialize) && StepBy(s, act, s', serialize) && AllAgree(s, acts) && Tracked(s) && act.Reaped?
    ensures s'.ioBytes == s.ioBytes + Earned(acts + [act])
  {
    assert (acts + [act])[..|acts|] == acts;
    StandsThere(s, acts, act.event.unit, serialize);
    ReapBytes(s, act.event);
  }

  lemma BytesStep(s: State, act: Act, s': State, acts: seq<Act>, serialize: bool)
    requires Inv(s, serialize) && StepBy(s, act, s', serialize) && AllAgree(s, acts) && Tracked(s)
    ensures s'.ioBytes == s.ioBytes + Earned(acts + [act])
  {
    if act.Submitted? {
      SubmittedEarns(s, act, s', acts, serialize);
    } else if act.Reaped? {
      ReapedEarns(s, act, s', acts, serialize);
    }
  }

  /** In every run io_bytes is what the acts earned: for each answer to a read,
      write or trim, the bytes io_completed credits at that point of its transfer. */
  lemma {:induction false} BytesFromActs(run: seq<State>, acts: seq<Act>, serialize: bool, n: nat)
    requires Logged(run, acts, serialize) && n < |run|
    ensures run[n].ioBytes == EarnedInAll(acts[..n])
  {
    if n != 0 {
      BytesFromActs(run, acts, serialize, n - 1);
      BytesAt(run, acts, serialize, n - 1);
      Grown(acts, n);
      assert acts[..n][..n - 1] == acts[..n - 1];
    }
  }

  lemma BytesAt(run: seq<State>, acts: seq<Act>, serialize: bool, i: nat)
    requires Logged(run, acts, serialize) && i < |acts|
    ensures run[i + 1].ioBytes == run[i].ioBytes + Earned(acts[..i] + [acts[i]])
  {
    RunAgrees(run, acts, serialize, i);
    RunTracked(run, serialize, i);
    RunInv(run, serialize, i);
    ActOf(run, acts, serialize, i);
    BytesStep(run[i], acts[i], run[i + 1], acts[..i], serialize);
  }

  // --------------------------------------------------------------- io_issues

  predicate Back(x: Unit, a: Answer) {
    a.Busy? || (a.Completed? && Answered(Traced(x), Reply(a.resid, false, a.error), x.fileSize).end.Pending?)
  }

  lemma SyncIssues(s: State, u: nat, error: bool, resid: nat)
    requires u < |s.units| && resid <= s.units[u].xferBuflen && OnTrack(s.units[u]) && s.units[u].flight
    ensures var x := s.units[u];
            SyncEvent(s, u, error, resid).issues == s.issues - One(x.rw && Back(x, Completed(error, resid)))
  {
  }

  lemma SubmitIssues(s: State, u: nat, blocked: bool, a: Answer, batch: nat)
    requires u < |s.units| && (a.Completed? ==> a.resid <= s.units[u].xferBuflen)
    requires OnTrack(s.units[u]) && !s.units[u].flight
    ensures var x := s.units[u];
            Submit(s, u, blocked, a, batch).issues ==
            s.issues + if blocked || !x.rw then 0 else One(!Back(x, a)) - One(x.verList)
  {
    if a.Completed? && !blocked {
      var q := Queue(s, u, a, batch);
      assert Traced(q.units[u]) == Traced(s.units[u]);
      SyncIssues(q, u, a.error, a.resid);
    }
  }

  lemma ReapIssues(s: State, e: Event)
    requires e.unit < |s.units| && e.resid <= s.units[e.unit].xferBuflen
    ensures Reap(s, e).issues == s.issues
  {
  }

  lemma IssuesStep(s: State, act: Act, s': State, acts: seq<Act>, serialize: bool)
    requires Inv(s, serialize) && StepBy(s, act, s', serialize) && AllAgree(s, acts) && Tracked(s)
    ensures s'.issues == s.issues + IssueChange(acts + [act])
  {
    assert (acts + [act])[..|acts|] == acts;
    match act
    case Got(_, _, _) =>
    case GivenBack(_) =>
    case Committed =>
    case Submitted(u, blocked, a, batch) =>
      StandsThere(s, acts, u, serialize);
      SubmitIssues(s, u, blocked, a, batch);
    case Reaped(e) => ReapIssues(s, e);
  }

  lemma IssuesAt(run: seq<State>, acts: seq<Act>, serialize: bool, i: nat)
    requires Logged(run, acts, serialize) && i < |acts|
    ensures run[i + 1].issues == run[i].issues + IssueChange(acts[..i] + [acts[i]])
  {
    RunAgrees(run, acts, serialize, i);
    RunTracked(run, serialize, i);
    RunInv(run, serialize, i);
    ActOf(run, acts, serialize, i);
    IssuesStep(run[i], acts[i], run[i + 1], acts[..i], serialize);
  }

  /** In every run io_issues is one for every transfer handed to the engine that
      did not come straight back, less one for every submission of a verify-list
      transfer. */
  lemma {:induction false} IssuesFromActs(run: seq<State>, acts: seq<Act>, serialize: bool, n: nat)
    requires Logged(run, acts, serialize) && n < |run|
    ensures run[n].issues == IssuedInAll(acts[..n])
  {
    if n != 0 {
      IssuesFromActs(run, acts, serialize, n - 1);
      IssuesAt(run, acts, serialize, n - 1);
      Grown(acts, n);
      assert acts[..n][..n - 1] == acts[..n - 1];
    }
  }

  /** Where every transfer under way is, said of the acts: the range it was asked
      for and the answers to it since determine the unit. */
  lemma UnitsFromActs(run: seq<State>, acts: seq<Act>, serialize: bool, n: nat, u: nat)
    requires Logged(run, acts, serialize) && n < |run| && u < |run[n].units| && u !in run[n].free && run[n].units[u].rw
    ensures Transfers(acts[..n], u)
    ensures var x, t := run[n].units[u], Standing(acts[..n], u);
            t.end.Pending? && x.offset == t.offset && x.xferBuflen == t.left
  {
    RunAgrees(run, acts, serialize, n);
    RunTracked(run, serialize, n);
    assert OnTrack(run[n].units[u]) && Agrees(run[n].units[u], acts[..n], u);
  }
}
