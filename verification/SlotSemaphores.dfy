/**
 The file locks with real semaphores: the table of fio/filelock.c, where the
 semaphore of a slot is one counter, composed with the semaphore of
 fio/fio_sem.c, where a thread may sleep, be woken, be woken for no reason and
 find the semaphore taken again.
 */
module SlotSemaphores {
  import L = FileLock
  import S = Semaphore

  type Tid = nat

  datatype State = State(table: L.State, sems: seq<S.Sem>)

  // Waits for the semaphore of slot i: in fio_sem_down after a plain lock, or
  // after the last-reference test of a trylock.
  predicate WaitsFor(p: L.Pc, i: nat) {
    (p.HasRef? && !p.try && p.slot == i) || (p.Committed? && p.slot == i)
  }

  predicate SameValues(s: L.State, s': L.State) {
    |s'.slots| == |s.slots| && forall i :: 0 <= i < |s.slots| ==> s'.slots[i].value == s.slots[i].value
  }

  // A step of thread t that touches no semaphore, or finds one closed.
  ghost predicate TableStep(c: State, c': State, t: Tid) {
    && L.Shape(c.table) && L.Step(c.table, c'.table, t) && SameValues(c.table, c'.table) && c'.sems == c.sems
  }

  // The thread by which the table changes together with its semaphore.
  ghost predicate Together(c: State, c': State, i: nat, t: Tid, a: S.Action)
    requires i < |c.sems| == |c'.sems|
  {
    && L.Shape(c.table) && i < L.MAX_FILELOCKS && t in c.table.pcs && L.Step(c.table, c'.table, t)
    && var p := c.table.pcs[t];
       if a.Up? then p.Dropped? && p.slot == i
       else
         && c'.sems[i].value < c.sems[i].value
         && ((a == S.TryDown(t) && p.HasRef? && p.try && p.slot == i)
             || (a in {S.Down(t, false), S.Resume(t)} && WaitsFor(p, i)))
  }

  // A thread goes to sleep, is woken for no reason, or finds nothing.
  ghost predicate Asleep(c: State, c': State, i: nat, t: Tid, a: S.Action)
    requires i < |c.sems| == |c'.sems|
  {
    && c'.table == c.table && c'.sems[i].value == c.sems[i].value && t in c.table.pcs && WaitsFor(c.table.pcs[t], i)
    && a in {S.Down(t, false), S.Resume(t), S.Stray(t)}
  }

  ghost predicate SemStep(c: State, c': State, i: nat, t: Tid, a: S.Action) {
    && i < |c.sems| == |c'.sems| && c'.sems == c.sems[i := c'.sems[i]] && S.Step(c.sems[i], a, c'.sems[i])
    && (Together(c, c', i, t, a) || Asleep(c, c', i, t, a))
  }

  ghost predicate Next(c: State, c': State) {
    (exists t :: TableStep(c, c', t)) || (exists i, t, a :: SemStep(c, c', i, t, a))
  }

  ghost predicate Init(c: State) {
    && L.Init(c.table) && |c.sems| == L.MAX_FILELOCKS
    && forall i :: 0 <= i < |c.sems| ==> S.Init(c.sems[i], 1)
  }

  ghost predicate Run(run: seq<State>) {
    |run| > 0 && Init(run[0]) && forall k :: 0 <= k < |run| - 1 ==> Next(run[k], run[k + 1])
  }

  // --------------------------------------------------------------- coupling

  // The counter of the table is the semaphore's value; no wait is timed; who is
  // inside the semaphore waits for this slot.
  ghost predicate SlotOk(sem: S.Sem, value: nat, pcs: map<Tid, L.Pc>, i: nat) {
    && S.Accounted(sem, 1) && sem.value == value && sem.timed == {} && sem.expired == {}
    && forall t :: t in sem.sleeping || t in sem.woken ==> t in pcs && WaitsFor(pcs[t], i)
  }

  ghost predicate Inv(c: State) {
    && L.Inv(c.table) && |c.sems| == L.MAX_FILELOCKS
    && forall i :: 0 <= i < L.MAX_FILELOCKS ==> SlotOk(c.sems[i], c.table.slots[i].value, c.table.pcs, i)
  }

  // Thread t moves; it is not inside this semaphore before or after.
  lemma SlotOkMove(sem: S.Sem, value: nat, pcs: map<Tid, L.Pc>, i: nat, t: Tid, p: L.Pc)
    requires SlotOk(sem, value, pcs, i) && t !in sem.sleeping && t !in sem.woken
    ensures SlotOk(sem, value, pcs[t := p], i)
  {
  }

  // Only the thread's own slot can change its value.
  lemma StepFrame(s: L.State, s': L.State, t: Tid)
    requires L.Shape(s) && L.Step(s, s', t)
    ensures |s'.slots| == |s.slots| && t in s'.pcs && s'.pcs == s.pcs[t := s'.pcs[t]]
  {
    if !s.pcs[t].Idle? {
      L.SuccessorFrame(s, t);
    }
  }

  // A thread inside a semaphore can only take it.
  lemma Outsider(c: State, c': State, t: Tid, i: nat)
    requires Inv(c) && TableStep(c, c', t) && i < L.MAX_FILELOCKS
    ensures t !in c.sems[i].sleeping && t !in c.sems[i].woken
  {
    assert SlotOk(c.sems[i], c.table.slots[i].value, c.table.pcs, i);
  }

  lemma TableStepInv(c: State, c': State, t: Tid)
    requires Inv(c) && TableStep(c, c', t)
    ensures Inv(c')
  {
    L.StepInv(c.table, c'.table, t);
    StepFrame(c.table, c'.table, t);
    forall i | 0 <= i < L.MAX_FILELOCKS ensures SlotOk(c'.sems[i], c'.table.slots[i].value, c'.table.pcs, i) {
      Outsider(c, c', t, i);
      SlotOkMove(c.sems[i], c.table.slots[i].value, c.table.pcs, i, t, c'.table.pcs[t]);
    }
  }

  lemma SlotOkAsleep(sem: S.Sem, sem': S.Sem, value: nat, pcs: map<Tid, L.Pc>, i: nat, t: Tid, a: S.Action)
    requires SlotOk(sem, value, pcs, i) && S.Step(sem, a, sem') && sem'.value == sem.value
    requires t in pcs && WaitsFor(pcs[t], i) && a in {S.Down(t, false), S.Resume(t), S.Stray(t)}
    ensures SlotOk(sem', value, pcs, i)
  {
    S.StepAccounted(sem, a, sem', 1);
  }

  lemma AsleepInv(c: State, c': State, i: nat, t: Tid, a: S.Action)
    requires Inv(c) && SemStep(c, c', i, t, a) && Asleep(c, c', i, t, a)
    ensures Inv(c')
  {
    SlotOkAsleep(c.sems[i], c'.sems[i], c.table.slots[i].value, c.table.pcs, i, t, a);
  }

  // Taking and raising, on the side of the table …
  lemma TableValue(s: L.State, s': L.State, t: Tid, i: nat)
    requires L.Shape(s) && L.Step(s, s', t) && i < L.MAX_FILELOCKS
    requires var p := s.pcs[t];
             (p.Dropped? && p.slot == i) || (s.slots[i].value > 0 && (p.HasRef? || p.Committed?) && p.slot == i)
    ensures |s'.slots| == |s.slots|
    ensures s'.slots[i].value == s.slots[i].value + if s.pcs[t].Dropped? then 1 else -1
    ensures forall j :: 0 <= j < |s.slots| && j != i ==> s'.slots[j] == s.slots[j]
  {
  }

  // … and of the semaphore.
  lemma SemValue(sem: S.Sem, sem': S.Sem, a: S.Action)
    requires S.Step(sem, a, sem') && (a.Up? || sem'.value < sem.value)
    ensures sem'.value == sem.value + if a.Up? then 1 else -1
  {
  }

  // The two stay equal.
  lemma ValuesAgree(s: L.State, s': L.State, t: Tid, i: nat, sem: S.Sem, sem': S.Sem, a: S.Action)
    requires L.Shape(s) && L.Step(s, s', t) && i < L.MAX_FILELOCKS && S.Step(sem, a, sem')
    requires s.slots[i].value == sem.value && PointsAt(s.pcs[t], i)
    requires if a.Up? then s.pcs[t].Dropped? else !s.pcs[t].Dropped? && sem'.value < sem.value
    ensures |s'.slots| == |s.slots| && s'.slots[i].value == sem'.value
  {
    SemValue(sem, sem', a);
    TableValue(s, s', t, i);
  }

  // Takes or raises the semaphore of slot i.
  predicate PointsAt(p: L.Pc, i: nat) { (p.Dropped? || p.HasRef? || p.Committed?) && p.slot == i }

  lemma TogetherPoints(c: State, c': State, i: nat, t: Tid, a: S.Action)
    requires Inv(c) && SemStep(c, c', i, t, a) && Together(c, c', i, t, a)
    ensures i < L.MAX_FILELOCKS && t in c.table.pcs && PointsAt(c.table.pcs[t], i)
    ensures if a.Up? then c.table.pcs[t].Dropped? else !c.table.pcs[t].Dropped? && c'.sems[i].value < c.sems[i].value
    ensures a.Up? || a in {S.TryDown(t), S.Down(t, false), S.Resume(t)}
    ensures !a.Up? ==> c.table.slots[i].value > 0
  {
    assert SlotOk(c.sems[i], c.table.slots[i].value, c.table.pcs, i);
  }

  // The semaphore that was taken or raised.
  lemma SlotOkTogether(sem: S.Sem, sem': S.Sem, a: S.Action, value: nat, pcs: map<Tid, L.Pc>, i: nat, t: Tid, p: L.Pc)
    requires SlotOk(sem, value, pcs, i) && S.Step(sem, a, sem') && t in pcs
    requires if a.Up? then !WaitsFor(pcs[t], i)
             else a in {S.TryDown(t), S.Down(t, false), S.Resume(t)} && sem'.value < sem.value
    ensures SlotOk(sem', sem'.value, pcs[t := p], i)
  {
    S.StepAccounted(sem, a, sem', 1);
    Insiders(sem, sem', a, t);
    SlotOkFewer(sem, sem', value, pcs, i, t, p);
  }

  lemma SlotOkFewer(sem: S.Sem, sem': S.Sem, value: nat, pcs: map<Tid, L.Pc>, i: nat, t: Tid, p: L.Pc)
    requires SlotOk(sem, value, pcs, i) && S.Accounted(sem', 1) && sem'.timed == sem'.expired == {}
    requires forall u :: u in sem'.sleeping || u in sem'.woken ==> (u in sem.sleeping || u in sem.woken) && u != t
    ensures SlotOk(sem', sem'.value, pcs[t := p], i)
  {
  }

  // Nobody new is inside, and the thread is out.
  lemma Insiders(sem: S.Sem, sem': S.Sem, a: S.Action, t: Tid)
    requires S.Accounted(sem, 1) && S.Step(sem, a, sem') && sem.timed == sem.expired == {}
    requires if a.Up? then t !in sem.sleeping + sem.woken
             else a in {S.TryDown(t), S.Down(t, false), S.Resume(t)} && sem'.value < sem.value
    ensures sem'.timed == sem'.expired == {}
    ensures forall u :: u in sem'.sleeping || u in sem'.woken ==> (u in sem.sleeping || u in sem.woken) && u != t
  {
  }

  lemma TogetherInv(c: State, c': State, i: nat, t: Tid, a: S.Action)
    requires Inv(c) && SemStep(c, c', i, t, a) && Together(c, c', i, t, a)
    ensures Inv(c')
  {
    L.StepInv(c.table, c'.table, t);
    TogetherPoints(c, c', i, t, a);
    assert SlotOk(c.sems[i], c.table.slots[i].value, c.table.pcs, i);
    TogetherSlots(c.table, c'.table, c.sems, c'.sems[i], i, t, a);
  }

  lemma TogetherSlots(s: L.State, s': L.State, sems: seq<S.Sem>, sem': S.Sem, i: nat, t: Tid, a: S.Action)
    requires L.Shape(s) && L.Step(s, s', t) && i < L.MAX_FILELOCKS == |sems| && S.Step(sems[i], a, sem')
    requires forall j :: 0 <= j < L.MAX_FILELOCKS ==> SlotOk(sems[j], s.slots[j].value, s.pcs, j)
    requires PointsAt(s.pcs[t], i) && (a.Up? || a in {S.TryDown(t), S.Down(t, false), S.Resume(t)})
    requires if a.Up? then s.pcs[t].Dropped? else !s.pcs[t].Dropped? && sem'.value < sems[i].value
    ensures |s'.slots| == |s.slots|
    ensures forall j :: 0 <= j < L.MAX_FILELOCKS ==> SlotOk(sems[i := sem'][j], s'.slots[j].value, s'.pcs, j)
  {
    assert SlotOk(sems[i], s.slots[i].value, s.pcs, i);
    TableValue(s, s', t, i);
    StepFrame(s, s', t);
    ValuesAgree(s, s', t, i, sems[i], sem', a);
    forall j | 0 <= j < L.MAX_FILELOCKS ensures SlotOk(sems[i := sem'][j], s'.slots[j].value, s'.pcs, j) {
      assert SlotOk(sems[j], s.slots[j].value, s.pcs, j);
      if j == i {
        SlotOkTogether(sems[i], sem', a, s.slots[i].value, s.pcs, i, t, s'.pcs[t]);
      } else {
        SlotOkMove(sems[j], s.slots[j].value, s.pcs, j, t, s'.pcs[t]);
      }
    }
  }

  lemma InitInv(c: State)
    requires Init(c)
    ensures Inv(c)
  {
    L.InitInv(c.table);
  }

  lemma NextInv(c: State, c': State)
    requires Inv(c) && Next(c, c')
    ensures Inv(c')
  {
    if t :| TableStep(c, c', t) {
      TableStepInv(c, c', t);
    } else {
      var i, t, a :| SemStep(c, c', i, t, a);
      if Together(c, c', i, t, a) {
        TogetherInv(c, c', i, t, a);
      } else {
        AsleepInv(c, c', i, t, a);
      }
    }
  }

  lemma RunNext(run: seq<State>, k: nat)
    requires Run(run) && k + 1 < |run|
    ensures Next(run[k], run[k + 1])
  {
  }

  lemma {:induction false} RunInv(run: seq<State>, k: nat)
    requires Run(run) && k < |run|
    ensures Inv(run[k])
  {
    if k == 0 {
      InitInv(run[0]);
    } else {
      RunInv(run, k - 1);
      RunNext(run, k - 1);
      NextInv(run[k - 1], run[k]);
    }
  }

  // --------------------------------------------------------------- theorems

  // A semaphore stays as it is, or makes a step that keeps to binary use.
  ghost predicate BinaryStep(sem: S.Sem, a: S.Action, sem': S.Sem) {
    S.Step(sem, a, sem') && (a.Up? ==> sem.value == 0)
  }

  lemma SlotStep(c: State, c': State, i: nat)
    requires Inv(c) && Next(c, c') && i < L.MAX_FILELOCKS
    ensures |c'.sems| == |c.sems| && (c'.sems[i] == c.sems[i] || exists a :: BinaryStep(c.sems[i], a, c'.sems[i]))
  {
    if t :| TableStep(c, c', t) {
    } else {
      var j, t, a :| SemStep(c, c', j, t, a);
      if j == i {
        assert SlotOk(c.sems[i], c.table.slots[i].value, c.table.pcs, i);
        if a.Up? {
          L.RaiseInv(c.table, c'.table, t);
        }
        assert BinaryStep(c.sems[i], a, c'.sems[i]);
      }
    }
  }

  lemma NotCrowded(c: State, i: nat)
    requires Inv(c) && i < L.MAX_FILELOCKS
    ensures !S.Crowded(c.sems[i])
  {
    assert SlotOk(c.sems[i], c.table.slots[i].value, c.table.pcs, i);
  }

  lemma Extend(states: seq<S.Sem>, actions: seq<S.Action>, a: S.Action, sem: S.Sem)
    requires S.Run(states, actions, 1, 0, false) && BinaryStep(states[|actions|], a, sem) && !S.Crowded(sem)
    ensures S.Run(states + [sem], actions + [a], 1, 0, false)
  {
  }

  lemma ProjectionStart(c: State, i: nat)
    requires Init(c) && i < L.MAX_FILELOCKS
    ensures S.Run([c.sems[i]], [], 1, 0, false)
  {
  }

  lemma ProjectionStep(c: State, c': State, i: nat, states: seq<S.Sem>, actions: seq<S.Action>)
    returns (states': seq<S.Sem>, actions': seq<S.Action>)
    requires Inv(c) && Inv(c') && Next(c, c') && i < L.MAX_FILELOCKS
    requires S.Run(states, actions, 1, 0, false) && states[|actions|] == c.sems[i]
    ensures S.Run(states', actions', 1, 0, false) && states'[|actions'|] == c'.sems[i]
  {
    states', actions' := states, actions;
    SlotStep(c, c', i);
    NotCrowded(c', i);
    if c'.sems[i] != c.sems[i] {
      var a :| BinaryStep(c.sems[i], a, c'.sems[i]);
      Extend(states, actions, a, c'.sems[i]);
      states', actions' := states + [c'.sems[i]], actions + [a];
    }
  }

  /** What the threads do to the semaphore of slot i, in any run of the file
      locks, is a run of the semaphore in binary use. */
  lemma {:induction false} Projection(run: seq<State>, k: nat, i: nat)
    returns (states: seq<S.Sem>, actions: seq<S.Action>)
    requires Run(run) && k < |run| && i < L.MAX_FILELOCKS
    ensures |run[k].sems| == L.MAX_FILELOCKS
    ensures S.Run(states, actions, 1, 0, false) && states[|actions|] == run[k].sems[i]
  {
    RunInv(run, k);
    if k == 0 {
      states, actions := [run[0].sems[i]], [];
      ProjectionStart(run[0], i);
    } else {
      states, actions := Projection(run, k - 1, i);
      RunInv(run, k - 1);
      RunNext(run, k - 1);
      states, actions := ProjectionStep(run[k - 1], run[k], i, states, actions);
    }
  }

  /** No locker is forgotten: whenever a thread sleeps on a slot whose semaphore
      is open, another has been woken and can take the lock. */
  lemma NoLockerForgotten(run: seq<State>, k: nat, i: nat)
    requires Run(run) && k < |run| && i < L.MAX_FILELOCKS
    ensures |run[k].sems| == L.MAX_FILELOCKS
    ensures var sem := run[k].sems[i];
            sem.value > 0 && sem.sleeping != {} ==>
              exists t, sem' :: S.Step(sem, S.Resume(t), sem') && sem'.downs == sem.downs + 1
  {
    var states, actions := Projection(run, k, i);
    if run[k].sems[i].value > 0 && run[k].sems[i].sleeping != {} {
      S.BinaryUseProgress(states, actions, 1, |actions|);
    }
  }

  predicate BothHold(s: L.State, t: Tid, u: Tid, hash: nat) {
    t in s.pcs && u in s.pcs && L.Locked(s.pcs[t], hash) && L.Locked(s.pcs[u], hash)
  }

  /** Two threads never hold the lock of one hash, and a slot that is given back
      to the free list has nobody asleep on it. */
  lemma LocksStaySafe(run: seq<State>, k: nat)
    requires Run(run) && k < |run|
    ensures |run[k].sems| == L.MAX_FILELOCKS
    ensures forall t, u, hash :: BothHold(run[k].table, t, u, hash) ==> t == u
    ensures forall i :: i in run[k].table.free && i < L.MAX_FILELOCKS ==>
              run[k].sems[i].sleeping == {} && run[k].sems[i].woken == {} && run[k].sems[i].value == 1
  {
    RunInv(run, k);
    var c := run[k];
    forall t, u, hash | BothHold(c.table, t, u, hash) ensures t == u {
      L.OneHolder(c.table, hash, t, u);
    }
    forall i | i in c.table.free && i < L.MAX_FILELOCKS
      ensures c.sems[i].sleeping == {} && c.sems[i].woken == {} && c.sems[i].value == 1
    {
      L.FreeIsUntouched(c.table, i);
      assert SlotOk(c.sems[i], c.table.slots[i].value, c.table.pcs, i);
    }
  }

  // ------------------------------------------------- nothing is made impossible

  // What thread t can do to an open semaphore.
  lemma CanTake(sem: S.Sem, t: Tid, try: bool) returns (a: S.Action, sem': S.Sem)
    requires S.Accounted(sem, 1) && sem.value > 0 && sem.expired == {}
    requires t !in sem.sleeping && (try ==> t !in sem.woken)
    ensures S.Step(sem, a, sem') && sem'.value < sem.value
    ensures if try then a == S.TryDown(t) else a in {S.Down(t, false), S.Resume(t)}
  {
    if t in sem.woken {
      assert |sem.woken| > 0;
      a, sem' := S.Resume(t), S.Retry(sem, t);
    } else if try {
      a, sem' := S.TryDown(t), sem.(value := sem.value - 1, downs := sem.downs + 1);
    } else {
      a, sem' := S.Down(t, false), S.Enter(sem, t, false);
    }
  }

  lemma CanRaise(sem: S.Sem) returns (wake: set<Tid>, sem': S.Sem)
    ensures S.Step(sem, S.Up(wake), sem')
  {
    wake := if sem.value == 0 && sem.waiters > 0 then sem.sleeping else {};
    sem' := sem.(value := sem.value + 1, ups := sem.ups + 1,
                 sleeping := sem.sleeping - wake, woken := sem.woken + wake);
  }

  /** Every step a thread can take on the table with abstract semaphores it can
      take with real ones, unless it is asleep. */
  lemma StepsAreRealised(c: State, s': L.State, t: Tid)
    requires Inv(c) && L.Step(c.table, s', t)
    requires forall i :: 0 <= i < L.MAX_FILELOCKS ==> t !in c.sems[i].sleeping
    ensures exists c' :: Next(c, c') && c'.table == s'
  {
    var p := c.table.pcs[t];
    StepFrame(c.table, s', t);
    if p.Dropped? {
      var i := p.slot;
      var wake, sem' := CanRaise(c.sems[i]);
      var c' := State(s', c.sems[i := sem']);
      assert Together(c, c', i, t, S.Up(wake));
      assert SemStep(c, c', i, t, S.Up(wake));
    } else if (p.HasRef? || p.Committed?) && c.table.slots[p.slot].value > 0 {
      TakeRealised(c, s', t, p.slot);
    } else {
      Unraised(c.table, s', t);
      assert TableStep(c, State(s', c.sems), t);
    }
  }

  lemma Unraised(s: L.State, s': L.State, t: Tid)
    requires L.Shape(s) && L.Step(s, s', t) && !s.pcs[t].Dropped?
    requires (s.pcs[t].HasRef? || s.pcs[t].Committed?) ==> s.slots[s.pcs[t].slot].value == 0
    ensures SameValues(s, s')
  {
  }

  lemma TakeRealised(c: State, s': L.State, t: Tid, i: nat)
    requires Inv(c) && L.Step(c.table, s', t) && i < L.MAX_FILELOCKS && t !in c.sems[i].sleeping
    requires (c.table.pcs[t].HasRef? || c.table.pcs[t].Committed?) && c.table.pcs[t].slot == i
    requires c.table.slots[i].value > 0
    ensures exists c' :: Next(c, c') && c'.table == s'
  {
    assert SlotOk(c.sems[i], c.table.slots[i].value, c.table.pcs, i);
    var p := c.table.pcs[t];
    var a, sem' := CanTake(c.sems[i], t, p.HasRef? && p.try);
    var c' := State(s', c.sems[i := sem']);
    assert Together(c, c', i, t, a);
    assert SemStep(c, c', i, t, a);
  }

  /** And a thread that finds the semaphore of its slot taken goes to sleep. */
  lemma BlockedSleeps(c: State, t: Tid, i: nat)
    requires Inv(c) && i < L.MAX_FILELOCKS && t in c.table.pcs && WaitsFor(c.table.pcs[t], i)
    requires c.table.slots[i].value == 0 && S.Outside(c.sems[i], t)
    ensures exists c' :: Next(c, c') && c'.table == c.table && |c'.sems| == |c.sems| && t in c'.sems[i].sleeping
  {
    assert SlotOk(c.sems[i], c.table.slots[i].value, c.table.pcs, i);
    var sem' := S.Enter(c.sems[i], t, false);
    var c' := State(c.table, c.sems[i := sem']);
    assert S.Step(c.sems[i], S.Down(t, false), sem');
    assert Asleep(c, c', i, t, S.Down(t, false));
    assert SemStep(c, c', i, t, S.Down(t, false));
    assert Next(c, c');
  }
}
