/**
 Flow control (fio/flow.c): jobs with the same flow id share an object with an
 atomic admission counter and a total weight; every job also counts its own
 admissions.  A job is held back while its share of the admissions exceeds its
 share of the weight.

 The model interleaves the jobs at every shared access: the two loads of the
 test, the atomic add, the private increment, joining, and the separate
 subtractions of leaving.  The two ratios are compared exactly, by
 cross-multiplication.  A job may die at any point (it is a process that can
 be killed) and its membership is then given up on its behalf.
 */
module Flow {
  import opened Common
  import opened Sums

  type Ref = nat

  datatype Phase =
    | Running                    // about to call flow_threshold_exceeded
    | Sampled(counter: int)      // has loaded flow->flow_counter
    | Passed                     // the test let it through, before atomic_add
    | Added                      // after atomic_add, before ++td->flow_counter

  datatype Membership =
    | Out
    | Joining(flow: Ref)               // flow_get has returned, weight not added yet
    | In(flow: Ref, phase: Phase)
    | Leaving(flow: Ref, step: nat)    // flow_put: 1, counter subtracted; 2, weight subtracted too

  datatype Job = Job(weight: nat, flowId: nat, count: nat, member: Membership)

  // `lost` counts members that died between the atomic add and their own increment.
  datatype FlowObject = FlowObject(id: nat, refs: nat, counter: int, totalWeight: int, lost: nat)

  datatype State = State(flows: map<Ref, FlowObject>, jobs: seq<Job>)

  // Contributions of one job to the object r.
  predicate Refers(j: Job, r: Ref) { !j.member.Out? && j.member.flow == r }
  predicate Takes(j: Job, r: Ref) { j.member.In? && j.member.flow == r }
  function Admitted(j: Job, r: Ref): nat {
    if Takes(j, r) then j.count + One(j.member.phase.Added?) else 0
  }
  function Weighs(j: Job, r: Ref): nat {
    if Takes(j, r) || (j.member.Leaving? && j.member.flow == r && j.member.step == 1) then j.weight else 0
  }

  function Admissions(jobs: seq<Job>, r: Ref): (s: seq<nat>) {
    seq(|jobs|, i requires 0 <= i < |jobs| => Admitted(jobs[i], r))
  }
  function Weights(jobs: seq<Job>, r: Ref): (s: seq<nat>) {
    seq(|jobs|, i requires 0 <= i < |jobs| => Weighs(jobs[i], r))
  }
  function References(jobs: seq<Job>, r: Ref): (s: seq<nat>) {
    seq(|jobs|, i requires 0 <= i < |jobs| => One(Refers(jobs[i], r)))
  }

  // ---------------------------------------------------------------- steps

  // flow_counter_ratio > flow_weight_ratio, over exact fractions.
  predicate Exceeds(count: nat, counter: int, weight: nat, totalWeight: int) {
    count * totalWeight > weight * counter
  }

  function SetJob(s: State, i: nat, j: Job): State
    requires i < |s.jobs|
  {
    s.(jobs := s.jobs[i := j])
  }

  function SetFlow(s: State, r: Ref, f: FlowObject): State {
    s.(flows := s.flows[r := f])
  }

  datatype Kind = Get | AddWeight | Sample | Test | Add | Increment | PutCounter | PutWeight | PutRef

  // Steps that leave the membership alone.
  predicate Admission(k: Kind) { k.Sample? || k.Test? || k.Add? || k.Increment? }

  ghost predicate Step(s: State, s': State, i: nat, kind: Kind) {
    && i < |s.jobs|
    && var j := s.jobs[i];
       match kind
       case Get =>
         && j.member.Out?
         && exists r: Ref ::
              if exists q :: q in s.flows && s.flows[q].id == j.flowId
              then r in s.flows && s.flows[r].id == j.flowId
                   && s' == SetFlow(SetJob(s, i, j.(member := Joining(r))), r,
                                    s.flows[r].(refs := s.flows[r].refs + 1))
              else r !in s.flows
                   && s' == SetFlow(SetJob(s, i, j.(member := Joining(r))), r, FlowObject(j.flowId, 1, 1, 0, 0))
       case AddWeight =>
         && j.member.Joining? && j.member.flow in s.flows
         && var f := s.flows[j.member.flow];
            s' == SetFlow(SetJob(s, i, j.(count := 0, member := In(j.member.flow, Running))), j.member.flow,
                          f.(totalWeight := f.totalWeight + j.weight))
       case Sample =>
         && j.member.In? && j.member.phase.Running? && j.member.flow in s.flows
         && s' == SetJob(s, i, j.(member := In(j.member.flow, Sampled(s.flows[j.member.flow].counter))))
       case Test =>
         && j.member.In? && j.member.phase.Sampled? && j.member.flow in s.flows
         && var held := Exceeds(j.count, j.member.phase.counter, j.weight, s.flows[j.member.flow].totalWeight);
            s' == SetJob(s, i, j.(member := In(j.member.flow, if held then Running else Passed)))
       case Add =>
         && j.member.In? && j.member.phase.Passed? && j.member.flow in s.flows
         && var f := s.flows[j.member.flow];
            s' == SetFlow(SetJob(s, i, j.(member := In(j.member.flow, Added))), j.member.flow,
                          f.(counter := f.counter + 1))
       case Increment =>
         && j.member.In? && j.member.phase.Added?
         && s' == SetJob(s, i, j.(count := j.count + 1, member := In(j.member.flow, Running)))
       case PutCounter =>
         && j.member.In? && j.member.flow in s.flows
         && var f := s.flows[j.member.flow];
            s' == SetFlow(SetJob(s, i, j.(member := Leaving(j.member.flow, 1))), j.member.flow,
                          f.(counter := f.counter - j.count, lost := f.lost + One(j.member.phase.Added?)))
       case PutWeight =>
         && j.member.Leaving? && j.member.step == 1 && j.member.flow in s.flows
         && var f := s.flows[j.member.flow];
            s' == SetFlow(SetJob(s, i, j.(member := Leaving(j.member.flow, 2))), j.member.flow,
                          f.(totalWeight := f.totalWeight - j.weight))
       case PutRef =>
         && j.member.Leaving? && j.member.step == 2 && j.member.flow in s.flows
         && var f := s.flows[j.member.flow];
            var out := SetJob(s, i, j.(member := Out));
            if f.refs == 1 then s' == out.(flows := out.flows - {j.member.flow})
            else f.refs > 1 && s' == SetFlow(out, j.member.flow, f.(refs := f.refs - 1))
  }

  ghost predicate Next(s: State, s': State) {
    exists i, kind :: Step(s, s', i, kind)
  }

  ghost predicate Init(s: State) {
    s.flows == map[] && forall i :: 0 <= i < |s.jobs| ==> s.jobs[i].member.Out? && s.jobs[i].weight > 0
  }

  ghost predicate Run(run: seq<State>) {
    && |run| > 0 && Init(run[0])
    && forall k :: 0 <= k < |run| - 1 ==> Next(run[k], run[k + 1])
  }

  // ------------------------------------------------------------ invariant

  ghost predicate Conserved(s: State, r: Ref)
    requires r in s.flows
  {
    && s.flows[r].counter == 1 + Sum(Admissions(s.jobs, r)) + s.flows[r].lost
    && s.flows[r].totalWeight == Sum(Weights(s.jobs, r))
    && s.flows[r].refs == Sum(References(s.jobs, r)) > 0
  }

  ghost predicate Inv(s: State) {
    && (forall i :: 0 <= i < |s.jobs| ==> JobOk(s, s.jobs[i]))
    && (forall q, r :: q in s.flows && r in s.flows && s.flows[q].id == s.flows[r].id ==> q == r)
    && (forall r :: r in s.flows ==> Conserved(s, r))
  }

  // Replacing job i changes each sum by that job's contribution alone.
  lemma SumsMove(jobs: seq<Job>, i: nat, j: Job, r: Ref)
    requires i < |jobs|
    ensures Sum(Admissions(jobs[i := j], r)) == Sum(Admissions(jobs, r)) - Admitted(jobs[i], r) + Admitted(j, r)
    ensures Sum(Weights(jobs[i := j], r)) == Sum(Weights(jobs, r)) - Weighs(jobs[i], r) + Weighs(j, r)
    ensures Sum(References(jobs[i := j], r)) ==
            Sum(References(jobs, r)) - One(Refers(jobs[i], r)) + One(Refers(j, r))
  {
    assert Admissions(jobs[i := j], r) == Admissions(jobs, r)[i := Admitted(j, r)];
    assert Weights(jobs[i := j], r) == Weights(jobs, r)[i := Weighs(j, r)];
    assert References(jobs[i := j], r) == References(jobs, r)[i := One(Refers(j, r))];
    SumUpdate(Admissions(jobs, r), i, Admitted(j, r));
    SumUpdate(Weights(jobs, r), i, Weighs(j, r));
    SumUpdate(References(jobs, r), i, One(Refers(j, r)));
  }

  // What object r must become for its books to balance when job i becomes j.
  ghost predicate Balanced(f: FlowObject, f': FlowObject, was: Job, j: Job, r: Ref) {
    && f'.counter - f'.lost - Admitted(j, r) == f.counter - f.lost - Admitted(was, r)
    && f'.totalWeight - Weighs(j, r) == f.totalWeight - Weighs(was, r)
    && f'.refs - One(Refers(j, r)) == f.refs - One(Refers(was, r))
    && f'.refs > 0
  }

  lemma ConservedKept(s: State, s': State, i: nat, j: Job, r: Ref)
    requires i < |s.jobs| && s'.jobs == s.jobs[i := j]
    requires r in s.flows && r in s'.flows && Conserved(s, r)
    requires Balanced(s.flows[r], s'.flows[r], s.jobs[i], j, r)
    ensures Conserved(s', r)
  {
    SumsMove(s.jobs, i, j, r);
  }

  ghost predicate JobOk(s: State, j: Job) {
    && j.weight > 0
    && (!j.member.Out? ==> j.member.flow in s.flows && s.flows[j.member.flow].id == j.flowId)
    && (j.member.Leaving? ==> 1 <= j.member.step <= 2)
    && (j.member.In? && j.member.phase.Sampled? ==> j.member.phase.counter >= 1)
  }

  // A job of object r changes together with r, and the books balance.
  lemma UpdateInv(s: State, s': State, i: nat, r: Ref)
    requires Inv(s) && i < |s.jobs| == |s'.jobs| && r in s.flows && r in s'.flows
    requires s'.jobs == s.jobs[i := s'.jobs[i]] && s'.flows == s.flows[r := s'.flows[r]]
    requires s'.flows[r].id == s.flows[r].id
    requires (s.jobs[i].member.Out? || Refers(s.jobs[i], r)) && Refers(s'.jobs[i], r) && JobOk(s', s'.jobs[i])
    requires Balanced(s.flows[r], s'.flows[r], s.jobs[i], s'.jobs[i], r)
    ensures Inv(s')
  {
    forall q | q in s'.flows ensures Conserved(s', q) {
      ConservedKept(s, s', i, s'.jobs[i], q);
    }
    forall k | 0 <= k < |s'.jobs| ensures JobOk(s', s'.jobs[k]) {
      assert JobOk(s, s.jobs[k]);
    }
  }

  lemma StepInv(s: State, s': State, i: nat, kind: Kind)
    requires Inv(s) && Step(s, s', i, kind)
    ensures Inv(s')
  {
    if kind.Get? {
      GetInv(s, s', i);
    } else {
      assert JobOk(s, s.jobs[i]);
      var r := s.jobs[i].member.flow;
      assert Conserved(s, r);
      if kind.PutRef? {
        PutRefInv(s, s', i);
      } else if Admission(kind) {
        AdmissionInv(s, s', i, kind, r);
      } else {
        UpdateInv(s, s', i, r);
      }
    }
  }

  lemma AdmissionInv(s: State, s': State, i: nat, kind: Kind, r: Ref)
    requires Inv(s) && Step(s, s', i, kind) && Admission(kind) && r == s.jobs[i].member.flow
    ensures Inv(s')
  {
    assert JobOk(s, s.jobs[i]) && Conserved(s, r);
    assert kind.Add? || s'.flows == s.flows[r := s.flows[r]];
    UpdateInv(s, s', i, r);
  }

  lemma GetInv(s: State, s': State, i: nat)
    requires Inv(s) && Step(s, s', i, Get)
    ensures Inv(s')
  {
    var r := s'.jobs[i].member.flow;
    assert JobOk(s, s.jobs[i]);
    if r in s.flows {
      assert Conserved(s, r);
      UpdateInv(s, s', i, r);
    } else {
      NewFlowInv(s, s', i, r);
    }
  }

  // The first member brings the object into being.
  lemma NewFlowInv(s: State, s': State, i: nat, r: Ref)
    requires Inv(s) && i < |s.jobs| && s.jobs[i].member.Out? && r !in s.flows
    requires forall q :: q in s.flows ==> s.flows[q].id != s.jobs[i].flowId
    requires s'.jobs == s.jobs[i := s.jobs[i].(member := Joining(r))]
    requires s'.flows == s.flows[r := FlowObject(s.jobs[i].flowId, 1, 1, 0, 0)]
    ensures Inv(s')
  {
    Unreferenced(s, r);
    SumsMove(s.jobs, i, s'.jobs[i], r);
    forall q | q in s'.flows ensures Conserved(s', q) {
      if q in s.flows { ConservedKept(s, s', i, s'.jobs[i], q); }
    }
    forall k | 0 <= k < |s'.jobs| ensures JobOk(s', s'.jobs[k]) {
      assert JobOk(s, s.jobs[k]);
    }
  }

  // Nothing refers to, and so nothing is counted in, an object that is not there.
  lemma Unreferenced(s: State, r: Ref)
    requires Inv(s) && r !in s.flows
    ensures Sum(Admissions(s.jobs, r)) == Sum(Weights(s.jobs, r)) == Sum(References(s.jobs, r)) == 0
  {
    forall k | 0 <= k < |s.jobs| ensures !Refers(s.jobs[k], r) { assert JobOk(s, s.jobs[k]); }
    SumZero(Admissions(s.jobs, r));
    SumZero(Weights(s.jobs, r));
    SumZero(References(s.jobs, r));
  }

  lemma PutRefInv(s: State, s': State, i: nat)
    requires Inv(s) && Step(s, s', i, PutRef)
    ensures Inv(s')
  {
    assert JobOk(s, s.jobs[i]);
    var r := s.jobs[i].member.flow;
    forall q | q in s'.flows ensures Conserved(s', q) {
      ConservedKept(s, s', i, s'.jobs[i], q);
    }
    if s.flows[r].refs == 1 {
      LastReference(s, i, r);
      forall k | 0 <= k < |s.jobs| ensures JobOk(s', s'.jobs[k]) { assert JobOk(s, s.jobs[k]); }
    }
  }

  // The holder of the last reference is alone.
  lemma LastReference(s: State, i: nat, r: Ref)
    requires Inv(s) && i < |s.jobs| && r in s.flows && Refers(s.jobs[i], r) && s.flows[r].refs == 1
    ensures forall k :: 0 <= k < |s.jobs| && k != i ==> !Refers(s.jobs[k], r)
    ensures Sum(Admissions(s.jobs, r)) == Admitted(s.jobs[i], r)
  {
    assert Conserved(s, r);
    var out := s.jobs[i].(member := Out);
    SumsMove(s.jobs, i, out, r);
    SumZero(References(s.jobs[i := out], r));
    forall k | 0 <= k < |s.jobs| && k != i ensures !Refers(s.jobs[k], r) {
      assert References(s.jobs[i := out], r)[k] == 0;
    }
    SumZero(Admissions(s.jobs[i := out], r));
  }

  // ------------------------------------------- conservation and progress

  lemma {:induction false} RunInv(run: seq<State>, k: nat)
    requires Run(run) && k < |run|
    ensures Inv(run[k])
  {
    if k > 0 {
      RunInv(run, k - 1);
      assert Next(run[k - 1], run[k - 1 + 1]);
      var i, kind :| Step(run[k - 1], run[k], i, kind);
      StepInv(run[k - 1], run[k], i, kind);
    }
  }

  // The shared counter is one plus the members' admissions (plus those of
  // members killed half-way), the total weight is the members' weight, and
  // the object lives as long as somebody refers to it.
  lemma Conservation(run: seq<State>, k: nat, r: Ref)
    requires Run(run) && k < |run| && r in run[k].flows
    ensures run[k].flows[r].counter == 1 + Sum(Admissions(run[k].jobs, r)) + run[k].flows[r].lost
    ensures run[k].flows[r].totalWeight == Sum(Weights(run[k].jobs, r))
    ensures run[k].flows[r].refs == Sum(References(run[k].jobs, r)) > 0
    ensures forall i :: 0 <= i < |run[k].jobs| && !run[k].jobs[i].member.Out? ==>
              run[k].jobs[i].member.flow in run[k].flows
  {
    RunInv(run, k);
    assert Conserved(run[k], r);
    forall i | 0 <= i < |run[k].jobs| && !run[k].jobs[i].member.Out?
      ensures run[k].jobs[i].member.flow in run[k].flows
    {
      assert JobOk(run[k], run[k].jobs[i]);
    }
  }

  // assert(flow->flow_counter == 1) at the last flow_put holds exactly when no
  // member ever died between the atomic add and its own increment.
  lemma LastPutAssert(run: seq<State>, k: nat, i: nat)
    requires Run(run) && k + 1 < |run| && Step(run[k], run[k + 1], i, PutRef)
    requires run[k].flows[run[k].jobs[i].member.flow].refs == 1
    ensures run[k].flows[run[k].jobs[i].member.flow].counter == 1 <==>
            run[k].flows[run[k].jobs[i].member.flow].lost == 0
  {
    RunInv(run, k);
    var r := run[k].jobs[i].member.flow;
    assert Conserved(run[k], r);
    LastReference(run[k], i, r);
  }

  // A member of r dies between the atomic add and its own increment.
  ghost predicate DiesHalfway(s: State, s': State, r: Ref) {
    exists i :: 0 <= i < |s.jobs| && s.jobs[i].member == In(r, Added) && Step(s, s', i, PutCounter)
  }

  // The object r came into being at step c and is there up to step k.
  ghost predicate Lives(run: seq<State>, r: Ref, c: nat, k: nat) {
    && 0 < c <= k < |run| && r !in run[c - 1].flows
    && forall m :: c <= m <= k ==> r in run[m].flows
  }

  lemma LostBy(s: State, s': State, i: nat, kind: Kind, r: Ref)
    requires Inv(s) && Step(s, s', i, kind) && r in s.flows && r in s'.flows
    ensures s'.flows[r].lost == s.flows[r].lost + One(kind.PutCounter? && s.jobs[i].member == In(r, Added))
  {
    assert JobOk(s, s.jobs[i]);
  }

  lemma LostStep(s: State, s': State, r: Ref)
    requires Inv(s) && Next(s, s') && r in s.flows && r in s'.flows
    ensures s'.flows[r].lost == s.flows[r].lost + One(DiesHalfway(s, s', r))
  {
    if DiesHalfway(s, s', r) {
      var i :| 0 <= i < |s.jobs| && s.jobs[i].member == In(r, Added) && Step(s, s', i, PutCounter);
      LostBy(s, s', i, PutCounter, r);
    } else {
      var i, kind :| Step(s, s', i, kind);
      LostBy(s, s', i, kind, r);
    }
  }

  lemma BornBy(s: State, s': State, i: nat, kind: Kind, r: Ref)
    requires Inv(s) && Step(s, s', i, kind) && r !in s.flows && r in s'.flows
    ensures s'.flows[r].lost == 0
  {
    assert JobOk(s, s.jobs[i]);
  }

  lemma LostInStep(run: seq<State>, r: Ref, c: nat, k: nat, m: nat)
    requires Run(run) && Lives(run, r, c, k) && c <= m < k
    ensures run[m + 1].flows[r].lost == run[m].flows[r].lost + One(DiesHalfway(run[m], run[m + 1], r))
  {
    RunInv(run, m);
    LostStep(run[m], run[m + 1], r);
  }

  lemma LostAtBirth(run: seq<State>, r: Ref, c: nat, k: nat)
    requires Run(run) && Lives(run, r, c, k)
    ensures run[c].flows[r].lost == 0
  {
    RunInv(run, c - 1);
    assert Next(run[c - 1], run[c - 1 + 1]);
    var i, kind :| Step(run[c - 1], run[c], i, kind);
    BornBy(run[c - 1], run[c], i, kind, r);
  }

  lemma LostInSteps(run: seq<State>, r: Ref, c: nat, k: nat)
    requires Run(run) && Lives(run, r, c, k)
    ensures forall m :: c <= m < k ==>
      run[m + 1].flows[r].lost == run[m].flows[r].lost + One(DiesHalfway(run[m], run[m + 1], r))
  {
    forall m | c <= m < k
      ensures run[m + 1].flows[r].lost == run[m].flows[r].lost + One(DiesHalfway(run[m], run[m + 1], r))
    {
      LostInStep(run, r, c, k, m);
    }
  }

  lemma {:induction false} LostCounts(run: seq<State>, r: Ref, c: nat, k: nat)
    requires Lives(run, r, c, k) && run[c].flows[r].lost == 0
    requires forall m :: c <= m < k ==>
      run[m + 1].flows[r].lost == run[m].flows[r].lost + One(DiesHalfway(run[m], run[m + 1], r))
    ensures run[k].flows[r].lost == 0 <==> forall m :: c <= m < k ==> !DiesHalfway(run[m], run[m + 1], r)
  {
    if c != k {
      LostCounts(run, r, c, k - 1);
      assert run[k - 1 + 1].flows[r].lost ==
             run[k - 1].flows[r].lost + One(DiesHalfway(run[k - 1], run[k - 1 + 1], r));
    }
  }

  // So the assertion holds exactly when, in the life of the object, no member
  // died half-way.
  lemma LastPutAssertInRun(run: seq<State>, k: nat, i: nat, c: nat)
    requires Run(run) && k + 1 < |run| && Step(run[k], run[k + 1], i, PutRef)
    requires run[k].flows[run[k].jobs[i].member.flow].refs == 1
    requires Lives(run, run[k].jobs[i].member.flow, c, k)
    ensures var r := run[k].jobs[i].member.flow;
            run[k].flows[r].counter == 1 <==> forall m :: c <= m < k ==> !DiesHalfway(run[m], run[m + 1], r)
  {
    LastPutAssert(run, k, i);
    LostAtBirth(run, run[k].jobs[i].member.flow, c, k);
    LostInSteps(run, run[k].jobs[i].member.flow, c, k);
    LostCounts(run, run[k].jobs[i].member.flow, c, k);
  }

  // One job, killed right after its atomic add.
  function Killed(k: nat): State {
    var f := if k < 2 then FlowObject(7, 1, 1, 0, 0)
             else if k < 5 then FlowObject(7, 1, 1, 1, 0)
             else if k == 5 then FlowObject(7, 1, 2, 1, 0)
             else FlowObject(7, 1, 2, if k == 6 then 1 else 0, 1);
    var m := if k == 0 || k > 7 then Out
             else if k == 1 then Joining(0)
             else if k == 2 then In(0, Running)
             else if k == 3 then In(0, Sampled(1))
             else if k == 4 then In(0, Passed)
             else if k == 5 then In(0, Added)
             else Leaving(0, k - 5);
    State(if k == 0 || k > 7 then map[] else map[0 := f], [Job(1, 7, 0, m)])
  }

  lemma KilledStep(k: nat)
    requires k < 8
    ensures Next(Killed(k), Killed(k + 1))
  {
    var s, s' := Killed(k), Killed(k + 1);
    if k == 0 { assert Step(s, s', 0, Get); }
    else if k == 1 { assert Step(s, s', 0, AddWeight); }
    else if k == 2 { assert Step(s, s', 0, Sample); }
    else if k == 3 { assert Step(s, s', 0, Test); }
    else if k == 4 { assert Step(s, s', 0, Add); }
    else if k == 5 { assert Step(s, s', 0, PutCounter); }
    else if k == 6 { assert Step(s, s', 0, PutWeight); }
    else { assert Step(s, s', 0, PutRef); }
  }

  // Then the last put finds the counter at 2.
  lemma KilledMember() returns (run: seq<State>)
    ensures Run(run) && |run| == 9 && Step(run[7], run[8], 0, PutRef)
    ensures 0 in run[7].flows && run[7].flows[0].refs == 1 && run[7].flows[0].counter == 2
  {
    run := seq(9, (k: nat) => Killed(k));
    forall k | 0 <= k < 8 ensures Next(run[k], run[k + 1]) { KilledStep(k); }
  }

  lemma {:induction false} SumScale(x: seq<nat>, a: nat, y: seq<nat>, b: nat)
    requires |x| == |y| && forall i :: 0 <= i < |x| ==> x[i] * a >= y[i] * b
    ensures Sum(x) * a >= Sum(y) * b
  {
    if x != [] {
      assert forall i :: 0 <= i < |x| - 1 ==> x[1..][i] == x[i + 1] && y[1..][i] == y[i + 1];
      SumScale(x[1..], a, y[1..], b);
      Distribute(x[0], Sum(x[1..]), a);
      Distribute(y[0], Sum(y[1..]), b);
    }
  }

  lemma Distribute(p: int, q: int, a: int)
    ensures (p + q) * a == p * a + q * a
  {
  }

  lemma MulMono(p: int, q: int, a: int)
    requires p <= q && a >= 0
    ensures p * a <= q * a
  {
  }

  // The weight of the members alone, without that of leavers in the window
  // between their two subtractions.
  function Weighing(j: Job, r: Ref): nat { if Takes(j, r) then j.weight else 0 }

  function MemberWeights(jobs: seq<Job>, r: Ref): (s: seq<nat>) {
    seq(|jobs|, i requires 0 <= i < |jobs| => Weighing(jobs[i], r))
  }

  predicate Passes(j: Job, f: FlowObject) { !Exceeds(j.count, f.counter, j.weight, f.totalWeight) }

  // Leavers still weigh on the members by `totalWeight` less the members' own
  // weight.  As long as the members' admissions times that weight are within
  // their own weight, some member passes the test on the current values.
  lemma SomeMemberPassesIf(run: seq<State>, k: nat, r: Ref, m: nat)
    requires Run(run) && k < |run| && r in run[k].flows
    requires m < |run[k].jobs| && Takes(run[k].jobs[m], r)
    requires var own := Sum(MemberWeights(run[k].jobs, r));
             Sum(Admissions(run[k].jobs, r)) * (run[k].flows[r].totalWeight - own) <= own * (1 + run[k].flows[r].lost)
    ensures exists i :: 0 <= i < |run[k].jobs| && Takes(run[k].jobs[i], r) && Passes(run[k].jobs[i], run[k].flows[r])
  {
    RunInv(run, k);
    var s := run[k];
    assert Conserved(s, r) && JobOk(s, s.jobs[m]);
    var f, own := s.flows[r], Sum(MemberWeights(s.jobs, r));
    SumZero(MemberWeights(s.jobs, r));
    assert MemberWeights(s.jobs, r)[m] > 0;
    if forall i :: 0 <= i < |s.jobs| && Takes(s.jobs[i], r) ==> !Passes(s.jobs[i], f) {
      AllHeldBack(s, r, m);
      TooManyAdmissions(Sum(Admissions(s.jobs, r)), f.lost, own, f.totalWeight);
      assert false;
    }
  }

  // So the group never stalls outside the leavers' window.
  lemma SomeMemberPasses(run: seq<State>, k: nat, r: Ref, m: nat)
    requires Run(run) && k < |run| && r in run[k].flows
    requires m < |run[k].jobs| && Takes(run[k].jobs[m], r)
    requires forall i :: 0 <= i < |run[k].jobs| ==> run[k].jobs[i].member != Leaving(r, 1)
    ensures exists i :: 0 <= i < |run[k].jobs| && Takes(run[k].jobs[i], r) && Passes(run[k].jobs[i], run[k].flows[r])
  {
    RunInv(run, k);
    var s := run[k];
    assert Conserved(s, r);
    assert MemberWeights(s.jobs, r) == Weights(s.jobs, r);
    SomeMemberPassesIf(run, k, r, m);
  }

  // With one member left, between its admissions, the bound is exact.
  lemma OnlyMemberPassesIff(run: seq<State>, k: nat, r: Ref, m: nat)
    requires Run(run) && k < |run| && r in run[k].flows
    requires m < |run[k].jobs| && Takes(run[k].jobs[m], r) && !run[k].jobs[m].member.phase.Added?
    requires forall i :: 0 <= i < |run[k].jobs| && i != m ==> !Takes(run[k].jobs[i], r)
    ensures var j, f := run[k].jobs[m], run[k].flows[r];
            Passes(j, f) <==> j.count * (f.totalWeight - j.weight) <= j.weight * (1 + f.lost)
  {
    RunInv(run, k);
    var s := run[k];
    assert Conserved(s, r);
    var x := Admissions(s.jobs, r);
    SumUpdate(x, m, 0);
    SumZero(x[m := 0]);
    OnlyMember(s.jobs[m].count, s.jobs[m].weight, s.flows[r].totalWeight, s.flows[r].lost);
  }

  lemma OnlyMember(count: nat, weight: nat, totalWeight: int, lost: nat)
    ensures count * totalWeight <= weight * (1 + count + lost) <==>
            count * (totalWeight - weight) <= weight * (1 + lost)
  {
    assert count * (totalWeight - weight) == count * totalWeight - count * weight;
    assert weight * (1 + count + lost) == weight * (1 + lost) + count * weight;
  }

  // Comparing two fractions by cross-multiplication.
  lemma RatioAtMost(a: int, b: int, c: int, d: int)
    requires b > 0 && d > 0
    ensures a as real / b as real <= c as real / d as real <==> a * d <= c * b
  {
    var x, y := a as real / b as real, c as real / d as real;
    assert x * b as real == a as real && y * d as real == c as real;
    var p := b as real * d as real;
    assert p > 0.0;
    Scaled(x, y, p);
    assert x * p == (a * d) as real && y * p == (c * b) as real;
  }

  lemma Scaled(x: real, y: real, p: real)
    requires p > 0.0
    ensures x <= y <==> x * p <= y * p
  {
  }

  // What the test decides, in the terms of the option's description: a job goes
  // on exactly when its part of the admissions it has seen is at most its part
  // of the weight.
  lemma TestDecides(run: seq<State>, k: nat, i: nat)
    requires Run(run) && k + 1 < |run| && Step(run[k], run[k + 1], i, Test)
    ensures var j := run[k].jobs[i];
            var seen, total := j.member.phase.counter, run[k].flows[j.member.flow].totalWeight;
            && seen > 0 && total > 0
            && run[k + 1].jobs[i] == j.(member := In(j.member.flow, run[k + 1].jobs[i].member.phase))
            && (if j.count as real / seen as real <= j.weight as real / total as real
                then run[k + 1].jobs[i].member.phase == Passed else run[k + 1].jobs[i].member.phase == Running)
  {
    RunInv(run, k);
    var s := run[k];
    var j := s.jobs[i];
    assert JobOk(s, j);
    var r := j.member.flow;
    assert Conserved(s, r);
    SumZero(Weights(s.jobs, r));
    assert Weights(s.jobs, r)[i] > 0;
    RatioAtMost(j.count, j.member.phase.counter, j.weight, s.flows[r].totalWeight);
  }

  // Job i looks, is let through and is counted.
  ghost predicate LetThrough(s: State, s1: State, s2: State, s3: State, i: nat) {
    Step(s, s1, i, Sample) && Step(s1, s2, i, Test) && Step(s2, s3, i, Add)
  }

  lemma PassingJobAdvances(s: State, r: Ref, i: nat)
    requires r in s.flows && i < |s.jobs| && s.jobs[i].member == In(r, Running) && Passes(s.jobs[i], s.flows[r])
    ensures exists s1, s2, s3 ::
      LetThrough(s, s1, s2, s3, i) && r in s3.flows && s3.flows[r].counter == s.flows[r].counter + 1
  {
    var j, f := s.jobs[i], s.flows[r];
    var s1 := SetJob(s, i, j.(member := In(r, Sampled(f.counter))));
    var s2 := SetJob(s1, i, s1.jobs[i].(member := In(r, Passed)));
    var s3 := SetFlow(SetJob(s2, i, s2.jobs[i].(member := In(r, Added))), r, f.(counter := f.counter + 1));
    assert LetThrough(s, s1, s2, s3, i);
  }

  // The group goes on: whenever its members are all about to look, and no
  // leaver is in its window, one of them can look, be let through and raise the
  // shared counter.
  lemma GroupAdvances(run: seq<State>, k: nat, r: Ref, m: nat)
    requires Run(run) && k < |run| && r in run[k].flows && m < |run[k].jobs| && Takes(run[k].jobs[m], r)
    requires forall i :: 0 <= i < |run[k].jobs| ==> run[k].jobs[i].member != Leaving(r, 1)
    requires forall i :: 0 <= i < |run[k].jobs| && Takes(run[k].jobs[i], r) ==> run[k].jobs[i].member.phase == Running
    ensures exists i, s1, s2, s3 ::
      LetThrough(run[k], s1, s2, s3, i) && r in s3.flows && s3.flows[r].counter == run[k].flows[r].counter + 1
  {
    SomeMemberPasses(run, k, r, m);
    var i :| 0 <= i < |run[k].jobs| && Takes(run[k].jobs[i], r) && Passes(run[k].jobs[i], run[k].flows[r]);
    PassingJobAdvances(run[k], r, i);
  }

  // Two jobs of weight 1; job 0 is admitted twice, then job 1 begins to leave.
  function Stalling(k: nat): State {
    var m0 := if k == 0 then Out
              else if k == 1 then Joining(0)
              else if k <= 4 || k == 8 || k >= 12 then In(0, Running)
              else if k == 5 || k == 9 then In(0, Sampled(if k == 5 then 1 else 2))
              else if k == 6 || k == 10 then In(0, Passed)
              else In(0, Added);
    var m1 := if k <= 2 then Out else if k == 3 then Joining(0) else if k <= 12 then In(0, Running) else Leaving(0, 1);
    var count := if k < 8 then 0 else if k < 12 then 1 else 2;
    var counter := if k < 7 then 1 else if k < 11 then 2 else 3;
    State(if k == 0 then map[]
          else map[0 := FlowObject(7, if k < 3 then 1 else 2, counter, if k < 2 then 0 else if k < 4 then 1 else 2, 0)],
          [Job(1, 7, count, m0), Job(1, 7, 0, m1)])
  }

  lemma StallingStep(k: nat)
    requires k < 13
    ensures Next(Stalling(k), Stalling(k + 1))
  {
    var s, s' := Stalling(k), Stalling(k + 1);
    if k == 0 { assert Step(s, s', 0, Get); }
    else if k == 1 { assert Step(s, s', 0, AddWeight); }
    else if k == 2 { assert Step(s, s', 1, Get); }
    else if k == 3 { assert Step(s, s', 1, AddWeight); }
    else if k == 4 || k == 8 { assert Step(s, s', 0, Sample); }
    else if k == 5 || k == 9 { assert Step(s, s', 0, Test); }
    else if k == 6 || k == 10 { assert Step(s, s', 0, Add); }
    else if k == 7 || k == 11 { assert Step(s, s', 0, Increment); }
    else { assert Step(s, s', 1, PutCounter); }
  }

  // In that window the only member left is held back.
  lemma StalledByLeaver() returns (run: seq<State>)
    ensures Run(run) && |run| == 14 && 0 in run[13].flows && |run[13].jobs| == 2
    ensures run[13].jobs[1].member == Leaving(0, 1) && Takes(run[13].jobs[0], 0)
    ensures !Passes(run[13].jobs[0], run[13].flows[0])
  {
    run := seq(14, (k: nat) => Stalling(k));
    forall k | 0 <= k < 13 ensures Next(run[k], run[k + 1]) { StallingStep(k); }
  }

  // Everybody held back, added up.
  lemma AllHeldBack(s: State, r: Ref, m: nat)
    requires r in s.flows && s.flows[r].counter >= 0 && s.flows[r].totalWeight >= 0
    requires m < |s.jobs| && Takes(s.jobs[m], r)
    requires forall i :: 0 <= i < |s.jobs| && Takes(s.jobs[i], r) ==> !Passes(s.jobs[i], s.flows[r])
    ensures Sum(Admissions(s.jobs, r)) * s.flows[r].totalWeight > Sum(MemberWeights(s.jobs, r)) * s.flows[r].counter
  {
    var W, C := s.flows[r].totalWeight, s.flows[r].counter;
    var x, y := Admissions(s.jobs, r), MemberWeights(s.jobs, r);
    forall i | 0 <= i < |x| ensures x[i] * W >= y[i] * C && (i == m ==> x[i] * W > y[i] * C) {
      HeldBack(s.jobs[i], s.flows[r], r);
    }
    SumUpdate(x, m, 0);
    SumUpdate(y, m, 0);
    SumScale(x[m := 0], W, y[m := 0], C);
    Distribute(Sum(x[m := 0]), x[m], W);
    Distribute(Sum(y[m := 0]), y[m], C);
  }

  lemma HeldBack(j: Job, f: FlowObject, r: Ref)
    requires f.totalWeight >= 0 && (Takes(j, r) ==> !Passes(j, f))
    ensures Admitted(j, r) * f.totalWeight >= Weighing(j, r) * f.counter
    ensures Takes(j, r) ==> Admitted(j, r) * f.totalWeight > Weighing(j, r) * f.counter
  {
    if Takes(j, r) {
      MulMono(j.count, Admitted(j, r), f.totalWeight);
    }
  }

  lemma TooManyAdmissions(admitted: nat, lost: nat, own: nat, totalWeight: int)
    requires admitted * totalWeight > own * (1 + admitted + lost)
    ensures admitted * (totalWeight - own) > own * (1 + lost)
  {
    assert admitted * (totalWeight - own) == admitted * totalWeight - admitted * own;
    assert own * (1 + admitted + lost) == own * (1 + lost) + admitted * own;
  }

  // -------------------------------------------------------------- fairness

  // All members of r have joined and none has been admitted yet.
  ghost predicate Start(s: State, r: Ref) {
    && Inv(s) && r in s.flows && s.flows[r].counter == 1
    && forall i :: 0 <= i < |s.jobs| && Refers(s.jobs[i], r) ==>
         s.jobs[i].member.In? && s.jobs[i].member.phase.Running?
  }

  // Job i tests or is admitted, or neither leaves nor joins r: other flows are
  // free to change.
  ghost predicate KeepsMembers(s: State, s': State, i: nat, kind: Kind, r: Ref) {
    && Step(s, s', i, kind)
    && (Admission(kind) || (!Refers(s.jobs[i], r) && i < |s'.jobs| && !Refers(s'.jobs[i], r)))
  }

  ghost predicate FairNext(s: State, s': State, r: Ref) {
    exists i, kind :: KeepsMembers(s, s', i, kind, r)
  }

  // A run in which the membership of r is fixed.
  ghost predicate FairRun(run: seq<State>, r: Ref) {
    && |run| > 0 && Start(run[0], r)
    && forall k :: 0 <= k < |run| - 1 ==> FairNext(run[k], run[k + 1], r)
  }

  ghost predicate FairJob(j: Job, r: Ref, counter: int, totalWeight: int) {
    Takes(j, r) ==>
      && (Admitted(j, r) - 1) * totalWeight <= j.weight * (counter - 1)
      && (j.member.phase.Sampled? ==> j.member.phase.counter <= counter)
      && (j.member.phase.Passed? ==> j.count * totalWeight <= j.weight * counter)
  }

  ghost predicate Fair(s: State, r: Ref) {
    && Inv(s) && r in s.flows && s.flows[r].lost == 0
    && (forall i :: 0 <= i < |s.jobs| && Refers(s.jobs[i], r) ==> Takes(s.jobs[i], r))
    && (forall i :: 0 <= i < |s.jobs| ==> FairJob(s.jobs[i], r, s.flows[r].counter, s.flows[r].totalWeight))
  }

  lemma StartFair(s: State, r: Ref)
    requires Start(s, r)
    ensures Fair(s, r)
  {
    assert Conserved(s, r);
    SumZero(Admissions(s.jobs, r));
    forall i | 0 <= i < |s.jobs| && Takes(s.jobs[i], r)
      ensures FairJob(s.jobs[i], r, s.flows[r].counter, s.flows[r].totalWeight)
    {
      assert Admissions(s.jobs, r)[i] == 0;
    }
  }

  // A rising counter keeps a bystander fair.
  lemma FairLater(j: Job, r: Ref, counter: int, counter': int, totalWeight: int)
    requires FairJob(j, r, counter, totalWeight) && counter <= counter'
    ensures FairJob(j, r, counter', totalWeight)
  {
    MulMono(counter - 1, counter' - 1, j.weight);
    MulMono(counter, counter', j.weight);
  }

  // What the step does to the member that takes it.
  lemma FairMover(s: State, s': State, i: nat, kind: Kind, r: Ref)
    requires Fair(s, r) && Admission(kind) && Step(s, s', i, kind) && Takes(s.jobs[i], r)
    ensures r in s'.flows && FairJob(s'.jobs[i], r, s'.flows[r].counter, s'.flows[r].totalWeight)
  {
    var j, f := s.jobs[i], s.flows[r];
    assert FairJob(j, r, f.counter, f.totalWeight);
    match kind
    case Test => MulMono(j.member.phase.counter, f.counter, j.weight);
    case _ =>
  }

  // What the step does to everything else.
  lemma FairFrame(s: State, s': State, i: nat, kind: Kind, r: Ref)
    requires Inv(s) && r in s.flows && KeepsMembers(s, s', i, kind, r)
    ensures |s'.jobs| == |s.jobs| && forall k :: 0 <= k < |s.jobs| && k != i ==> s'.jobs[k] == s.jobs[k]
    ensures Refers(s'.jobs[i], r) == Refers(s.jobs[i], r) && Takes(s'.jobs[i], r) == Takes(s.jobs[i], r)
    ensures r in s'.flows && s'.flows[r].counter >= s.flows[r].counter
    ensures s'.flows[r] == s.flows[r].(counter := s'.flows[r].counter)
  {
    assert JobOk(s, s.jobs[i]);
  }

  lemma FairStep(s: State, s': State, i: nat, kind: Kind, r: Ref)
    requires Fair(s, r) && KeepsMembers(s, s', i, kind, r)
    ensures Fair(s', r)
    ensures s'.flows[r].refs == s.flows[r].refs && s'.flows[r].totalWeight == s.flows[r].totalWeight
  {
    StepInv(s, s', i, kind);
    FairFrame(s, s', i, kind, r);
    var f, f' := s.flows[r], s'.flows[r];
    forall k | 0 <= k < |s.jobs| ensures FairJob(s'.jobs[k], r, f'.counter, f'.totalWeight) {
      if k != i {
        FairLater(s.jobs[k], r, f.counter, f'.counter, f.totalWeight);
      } else if Takes(s.jobs[i], r) {
        FairMover(s, s', i, kind, r);
      }
    }
  }

  lemma {:induction false} FairRunFair(run: seq<State>, r: Ref, k: nat)
    requires FairRun(run, r) && k < |run|
    ensures Fair(run[k], r)
    ensures run[k].flows[r].refs == run[0].flows[r].refs
    ensures run[k].flows[r].totalWeight == run[0].flows[r].totalWeight
  {
    if k == 0 {
      StartFair(run[0], r);
    } else {
      FairRunFair(run, r, k - 1);
      assert FairNext(run[k - 1], run[k - 1 + 1], r);
      var i, kind :| KeepsMembers(run[k - 1], run[k], i, kind, r);
      FairStep(run[k - 1], run[k], i, kind, r);
    }
  }

  lemma {:induction false} SumBound(x: seq<nat>, w: nat, y: seq<nat>, total: nat, z: seq<nat>)
    requires |x| == |y| == |z|
    requires forall i :: 0 <= i < |x| ==> x[i] * w <= y[i] * total + z[i] * w
    ensures Sum(x) * w <= Sum(y) * total + Sum(z) * w
  {
    if x != [] {
      assert forall i :: 0 <= i < |x| - 1 ==> x[1..][i] == x[i + 1] && y[1..][i] == y[i + 1] && z[1..][i] == z[i + 1];
      SumBound(x[1..], w, y[1..], total, z[1..]);
      Distribute(x[0], Sum(x[1..]), w);
      Distribute(y[0], Sum(y[1..]), total);
      Distribute(z[0], Sum(z[1..]), w);
    }
  }

  // Proportional share.  While r keeps its n members, of total weight W,
  // after S admissions a job of weight w has had at most w*S/W + 1 and at
  // least w*S/W - (n - 1) of them, in every interleaving.
  lemma ProportionalShare(run: seq<State>, r: Ref, k: nat, i: nat)
    requires FairRun(run, r) && k < |run|
    requires i < |run[k].jobs| && Takes(run[k].jobs[i], r)
    ensures var W := run[0].flows[r].totalWeight;
            var n := run[0].flows[r].refs;
            var S := Sum(Admissions(run[k].jobs, r));
            var mine, w := Admitted(run[k].jobs[i], r), run[k].jobs[i].weight;
            && r in run[k].flows && S == run[k].flows[r].counter - 1
            && (mine - 1) * W <= w * S
            && w * S <= (mine + n - 1) * W
  {
    FairRunFair(run, r, k);
    var s := run[k];
    assert Conserved(s, r);
    assert FairJob(s.jobs[i], r, s.flows[r].counter, s.flows[r].totalWeight);
    OthersBounded(s, r, i);
    var W, n := s.flows[r].totalWeight, s.flows[r].refs;
    var S := Sum(Admissions(s.jobs, r));
    var mine, w := Admitted(s.jobs[i], r), s.jobs[i].weight;
    Rearranged(S, mine, W, w, n);
  }

  lemma OneShare(a: nat, W: int, w: nat, S: nat)
    requires (a - 1) * W <= w * S
    ensures a * W <= w * S + 1 * W
  {
    assert (a - 1) * W == a * W - W;
  }

  // Everybody but i, added up.
  lemma OthersBounded(s: State, r: Ref, i: nat)
    requires Fair(s, r) && i < |s.jobs| && Takes(s.jobs[i], r)
    ensures var S := Sum(Admissions(s.jobs, r));
            (S - Admitted(s.jobs[i], r)) * s.flows[r].totalWeight <=
            (s.flows[r].totalWeight - s.jobs[i].weight) * S + (s.flows[r].refs - 1) * s.flows[r].totalWeight
  {
    assert Conserved(s, r);
    var x, y, z := Admissions(s.jobs, r), Weights(s.jobs, r), References(s.jobs, r);
    var W, S := s.flows[r].totalWeight, Sum(x);
    SumUpdate(x, i, 0);
    SumUpdate(y, i, 0);
    SumUpdate(z, i, 0);
    var x', y', z' := x[i := 0], y[i := 0], z[i := 0];
    forall k | 0 <= k < |x'| ensures x'[k] * W <= y'[k] * S + z'[k] * W {
      assert FairJob(s.jobs[k], r, s.flows[r].counter, W);
      if k != i && Takes(s.jobs[k], r) {
        OneShare(x[k], W, y[k], S);
      }
    }
    SumBound(x', W, y', S, z');
  }

  lemma Rearranged(S: int, mine: int, W: int, w: int, n: int)
    requires (S - mine) * W <= (W - w) * S + (n - 1) * W
    ensures w * S <= (mine + n - 1) * W
  {
    assert (S - mine) * W == S * W - mine * W;
    assert (W - w) * S == S * W - w * S;
    assert (mine + n - 1) * W == mine * W + (n - 1) * W;
  }
}
