/**
 The file locks with a real semaphore around their table: fld->lock of
 fio/filelock.c, taken by abstract ownership in module FileLock, composed with
 the semaphore of fio/fio_sem.c.
 */
module TableSemaphore {
  import opened Common
  import L = FileLock
  import S = Semaphore
  import P = SlotSemaphores

  type Tid = nat

  datatype State = State(table: L.State, lock: S.Sem)

  // About to take the table lock.
  predicate WantsTable(p: L.Pc) { p.Enter? || p.Starved? || p.Raced? || p.Leaving? }

  // fio_sem_down returns for thread t.
  ghost predicate Takes(sem: S.Sem, sem': S.Sem, t: Tid, a: S.Action) {
    S.Step(sem, a, sem') && a in {S.Down(t, false), S.Resume(t)} && sem'.value < sem.value
  }

  // A thread takes the table and keeps it.
  ghost predicate Acquire(c: State, c': State, t: Tid, a: S.Action) {
    && L.Shape(c.table) && L.Step(c.table, c'.table, t) && WantsTable(c.table.pcs[t])
    && c.table.owner == None && c'.table.owner != None && Takes(c.lock, c'.lock, t, a)
  }

  // It gives it back.
  ghost predicate Release(c: State, c': State, t: Tid, wake: set<Tid>) {
    && L.Shape(c.table) && L.Step(c.table, c'.table, t)
    && c.table.owner != None && c'.table.owner == None && S.Step(c.lock, S.Up(wake), c'.lock)
  }

  // It takes the table, looks, and gives it back at once.
  ghost predicate Visit(c: State, c': State, t: Tid, a: S.Action, mid: S.Sem, wake: set<Tid>) {
    && L.Shape(c.table) && L.Step(c.table, c'.table, t) && WantsTable(c.table.pcs[t])
    && c.table.owner == None && c'.table.owner == None
    && Takes(c.lock, mid, t, a) && S.Step(mid, S.Up(wake), c'.lock)
  }

  // A step that does not touch the table lock.
  ghost predicate Elsewhere(c: State, c': State, t: Tid) {
    && L.Shape(c.table) && L.Step(c.table, c'.table, t) && !WantsTable(c.table.pcs[t])
    && c'.table.owner == c.table.owner && c'.lock == c.lock
  }

  // A thread goes to sleep, is woken for no reason, or finds the table taken.
  ghost predicate Sleeps(c: State, c': State, t: Tid, a: S.Action) {
    && c'.table == c.table && t in c.table.pcs && WantsTable(c.table.pcs[t])
    && S.Step(c.lock, a, c'.lock) && c'.lock.value == c.lock.value
    && a in {S.Down(t, false), S.Resume(t), S.Stray(t)}
  }

  ghost predicate NextWith(c: State, c': State, t: Tid) {
    || (exists a :: Acquire(c, c', t, a))
    || (exists wake :: Release(c, c', t, wake))
    || (exists a, mid, wake :: Visit(c, c', t, a, mid, wake))
    || Elsewhere(c, c', t)
    || (exists a :: Sleeps(c, c', t, a))
  }

  ghost predicate Next(c: State, c': State) { exists t :: NextWith(c, c', t) }

  ghost predicate Init(c: State) { L.Init(c.table) && S.Init(c.lock, 1) }

  ghost predicate Run(run: seq<State>) {
    && |run| > 0 && Init(run[0])
    && forall k :: 0 <= k < |run| - 1 ==> Next(run[k], run[k + 1])
  }

  // --------------------------------------------------------------- coupling

  // The semaphore is open exactly while nobody owns the table; who is inside
  // wants the table.
  ghost predicate LockOk(lock: S.Sem, owner: Option<Tid>, pcs: map<Tid, L.Pc>) {
    && S.Accounted(lock, 1) && lock.value == One(owner == None) && lock.timed == lock.expired == {}
    && forall t :: t in lock.sleeping || t in lock.woken ==> t in pcs && WantsTable(pcs[t])
  }

  ghost predicate Coupled(c: State) {
    L.Inv(c.table) && LockOk(c.lock, c.table.owner, c.table.pcs)
  }

  // Thread t moves and is outside; nobody new is inside.
  lemma LockOkFewer(lock: S.Sem, lock': S.Sem, owner: Option<Tid>, owner': Option<Tid>,
                    pcs: map<Tid, L.Pc>, t: Tid, p: L.Pc)
    requires LockOk(lock, owner, pcs) && S.Accounted(lock', 1) && lock'.timed == lock'.expired == {}
    requires lock'.value == One(owner' == None)
    requires forall u :: u in lock'.sleeping || u in lock'.woken ==> (u in lock.sleeping || u in lock.woken) && u != t
    ensures LockOk(lock', owner', pcs[t := p])
  {
  }

  // What taking and raising do to the semaphore.
  lemma TakesValue(sem: S.Sem, sem': S.Sem, t: Tid, a: S.Action)
    requires S.Accounted(sem, 1) && sem.timed == sem.expired == {} && Takes(sem, sem', t, a)
    ensures S.Accounted(sem', 1) && sem'.value == sem.value - 1 && sem'.timed == sem'.expired == {}
    ensures forall u :: u in sem'.sleeping || u in sem'.woken ==> (u in sem.sleeping || u in sem.woken) && u != t
  {
    S.StepAccounted(sem, a, sem', 1);
    P.SemValue(sem, sem', a);
    P.Insiders(sem, sem', a, t);
  }

  lemma RaisesValue(sem: S.Sem, sem': S.Sem, wake: set<Tid>)
    requires S.Accounted(sem, 1) && sem.timed == sem.expired == {} && S.Step(sem, S.Up(wake), sem')
    ensures S.Accounted(sem', 1) && sem'.value == sem.value + 1 && sem'.timed == sem'.expired == {}
    ensures forall u :: u in sem'.sleeping || u in sem'.woken ==> u in sem.sleeping || u in sem.woken
  {
    S.StepAccounted(sem, S.Up(wake), sem', 1);
  }

  lemma AcquireCoupled(c: State, c': State, t: Tid, a: S.Action)
    requires Coupled(c) && Acquire(c, c', t, a)
    ensures Coupled(c')
  {
    L.StepInv(c.table, c'.table, t);
    P.StepFrame(c.table, c'.table, t);
    TakesValue(c.lock, c'.lock, t, a);
    LockOkFewer(c.lock, c'.lock, c.table.owner, c'.table.owner, c.table.pcs, t, c'.table.pcs[t]);
  }

  // The owner of the table is outside its semaphore.
  lemma OwnerOutside(c: State, c': State, t: Tid)
    requires Coupled(c) && L.Step(c.table, c'.table, t) && c.table.owner != None && c'.table.owner == None
    ensures t !in c.lock.sleeping && t !in c.lock.woken
  {
  }

  lemma ReleaseCoupled(c: State, c': State, t: Tid, wake: set<Tid>)
    requires Coupled(c) && Release(c, c', t, wake)
    ensures Coupled(c')
  {
    L.StepInv(c.table, c'.table, t);
    P.StepFrame(c.table, c'.table, t);
    RaisesValue(c.lock, c'.lock, wake);
    OwnerOutside(c, c', t);
    LockOkFewer(c.lock, c'.lock, c.table.owner, c'.table.owner, c.table.pcs, t, c'.table.pcs[t]);
  }

  lemma VisitCoupled(c: State, c': State, t: Tid, a: S.Action, mid: S.Sem, wake: set<Tid>)
    requires Coupled(c) && Visit(c, c', t, a, mid, wake)
    ensures Coupled(c') && mid.value == 0 && mid.timed == {}
  {
    L.StepInv(c.table, c'.table, t);
    P.StepFrame(c.table, c'.table, t);
    TakesValue(c.lock, mid, t, a);
    RaisesValue(mid, c'.lock, wake);
    LockOkFewer(c.lock, c'.lock, c.table.owner, c'.table.owner, c.table.pcs, t, c'.table.pcs[t]);
  }

  lemma ElsewhereCoupled(c: State, c': State, t: Tid)
    requires Coupled(c) && Elsewhere(c, c', t)
    ensures Coupled(c')
  {
    L.StepInv(c.table, c'.table, t);
    P.StepFrame(c.table, c'.table, t);
    LockOkFewer(c.lock, c'.lock, c.table.owner, c'.table.owner, c.table.pcs, t, c'.table.pcs[t]);
  }

  lemma SleepsCoupled(c: State, c': State, t: Tid, a: S.Action)
    requires Coupled(c) && Sleeps(c, c', t, a)
    ensures Coupled(c')
  {
    S.StepAccounted(c.lock, a, c'.lock, 1);
  }

  // ------------------------------------------------------------- projection

  // Nothing, one step, or two steps in binary use.
  ghost predicate Path(sem: S.Sem, sem': S.Sem) {
    || sem' == sem
    || (exists a :: P.BinaryStep(sem, a, sem'))
    || (exists a, mid, b :: TwoSteps(sem, a, mid, b, sem'))
  }

  ghost predicate TwoSteps(sem: S.Sem, a: S.Action, mid: S.Sem, b: S.Action, sem': S.Sem) {
    P.BinaryStep(sem, a, mid) && P.BinaryStep(mid, b, sem') && !S.Crowded(mid)
  }

  lemma NextCoupled(c: State, c': State, t: Tid)
    requires Coupled(c) && NextWith(c, c', t)
    ensures Coupled(c') && Path(c.lock, c'.lock)
  {
    if a :| Acquire(c, c', t, a) {
      AcquireCoupled(c, c', t, a);
      assert P.BinaryStep(c.lock, a, c'.lock);
    } else if wake :| Release(c, c', t, wake) {
      ReleaseCoupled(c, c', t, wake);
      assert P.BinaryStep(c.lock, S.Up(wake), c'.lock);
    } else if a, mid, wake :| Visit(c, c', t, a, mid, wake) {
      VisitCoupled(c, c', t, a, mid, wake);
      assert TwoSteps(c.lock, a, mid, S.Up(wake), c'.lock);
    } else if Elsewhere(c, c', t) {
      ElsewhereCoupled(c, c', t);
    } else {
      var a :| Sleeps(c, c', t, a);
      SleepsCoupled(c, c', t, a);
      assert P.BinaryStep(c.lock, a, c'.lock);
    }
  }

  lemma InitCoupled(c: State)
    requires Init(c)
    ensures Coupled(c)
  {
    L.InitInv(c.table);
  }

  // A run of the semaphore goes on along a path.
  lemma ExtendPath(states: seq<S.Sem>, actions: seq<S.Action>, sem: S.Sem)
    returns (states': seq<S.Sem>, actions': seq<S.Action>)
    requires S.Run(states, actions, 1, 0, false) && Path(states[|actions|], sem) && !S.Crowded(sem)
    ensures S.Run(states', actions', 1, 0, false) && states'[|actions'|] == sem
  {
    var last := states[|actions|];
    if sem == last {
      states', actions' := states, actions;
    } else if a :| P.BinaryStep(last, a, sem) {
      P.Extend(states, actions, a, sem);
      states', actions' := states + [sem], actions + [a];
    } else {
      var a, mid, b :| TwoSteps(last, a, mid, b, sem);
      P.Extend(states, actions, a, mid);
      P.Extend(states + [mid], actions + [a], b, sem);
      states', actions' := states + [mid] + [sem], actions + [a] + [b];
    }
  }

  lemma RunNext(run: seq<State>, k: nat)
    requires Run(run) && k + 1 < |run|
    ensures Next(run[k], run[k + 1])
  {
  }

  lemma NotCrowded(c: State)
    requires Coupled(c)
    ensures !S.Crowded(c.lock)
  {
  }

  /** What the threads do to the table lock, in any run of the file locks, is a
      run of the semaphore in binary use; and the table's invariant holds. */
  lemma {:induction false} Projection(run: seq<State>, k: nat) returns (states: seq<S.Sem>, actions: seq<S.Action>)
    requires Run(run) && k < |run|
    ensures L.Inv(run[k].table) && Coupled(run[k])
    ensures S.Run(states, actions, 1, 0, false) && states[|actions|] == run[k].lock
  {
    if k == 0 {
      InitCoupled(run[0]);
      NotCrowded(run[0]);
      states, actions := [run[0].lock], [];
    } else {
      states, actions := Projection(run, k - 1);
      RunNext(run, k - 1);
      var t :| NextWith(run[k - 1], run[k], t);
      NextCoupled(run[k - 1], run[k], t);
      NotCrowded(run[k]);
      states, actions := ExtendPath(states, actions, run[k].lock);
    }
  }

  /** No caller is forgotten: whenever a thread sleeps on the table lock and the
      lock is open, which is exactly when nobody owns the table, a woken thread
      can take it. */
  lemma NoCallerForgotten(run: seq<State>, k: nat)
    requires Run(run) && k < |run|
    ensures run[k].lock.value > 0 <==> run[k].table.owner == None
    ensures run[k].lock.value > 0 && run[k].lock.sleeping != {} ==>
              exists t, lock' :: S.Step(run[k].lock, S.Resume(t), lock') && lock'.downs == run[k].lock.downs + 1
  {
    var states, actions := Projection(run, k);
    if run[k].lock.value > 0 && run[k].lock.sleeping != {} {
      S.BinaryUseProgress(states, actions, 1, |actions|);
    }
  }

  /** Every step a thread can take with abstract ownership of the table it can
      take with the semaphore, unless it is asleep on it. */
  lemma StepsAreRealised(c: State, s': L.State, t: Tid)
    requires Coupled(c) && L.Step(c.table, s', t) && t !in c.lock.sleeping
    ensures exists c' :: Next(c, c') && c'.table == s'
  {
    var p := c.table.pcs[t];
    if WantsTable(p) {
      var a, mid := P.CanTake(c.lock, t, false);
      if s'.owner == None {
        var wake, lock' := P.CanRaise(mid);
        assert Visit(c, State(s', lock'), t, a, mid, wake);
        assert NextWith(c, State(s', lock'), t);
      } else {
        assert Acquire(c, State(s', mid), t, a);
        assert NextWith(c, State(s', mid), t);
      }
    } else if c.table.owner != None && s'.owner == None {
      var wake, lock' := P.CanRaise(c.lock);
      assert Release(c, State(s', lock'), t, wake);
      assert NextWith(c, State(s', lock'), t);
    } else {
      OwnerKept(c.table, s', t);
      assert Elsewhere(c, State(s', c.lock), t);
      assert NextWith(c, State(s', c.lock), t);
    }
  }

  lemma OwnerKept(s: L.State, s': L.State, t: Tid)
    requires L.Inv(s) && L.Step(s, s', t) && !WantsTable(s.pcs[t]) && (s.owner == None || s'.owner != None)
    ensures s'.owner == s.owner
  {
  }

  /** And a thread that finds the table owned goes to sleep. */
  lemma BlockedSleeps(c: State, t: Tid)
    requires Coupled(c) && t in c.table.pcs && WantsTable(c.table.pcs[t]) && c.table.owner != None
    requires S.Outside(c.lock, t)
    ensures exists c' :: Next(c, c') && c'.table == c.table && t in c'.lock.sleeping
  {
    var c' := State(c.table, S.Enter(c.lock, t, false));
    assert Sleeps(c, c', t, S.Down(t, false));
    assert NextWith(c, c', t);
  }
}
