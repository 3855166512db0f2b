/**
 File locks keyed by the hash of a name (fio/filelock.c), as an interleaving
 of thread steps.

 A table of 1024 slots is split into a free list and an active list, both
 guarded by the table lock `fld->lock`.  A slot carries a hash, a reference
 count and a binary semaphore.  A locker takes a reference under the table
 lock and then sleeps on the slot's semaphore outside it.  A thread that finds
 no free slot drops the table lock, sleeps and looks again.
 */
module FileLock {
  import opened Common

  const MAX_FILELOCKS: nat := 1024

  type Tid = nat

  // `value` is the value of the slot's semaphore.
  datatype Slot = Slot(hash: nat, references: nat, value: nat)

  // Where a thread is.  `slot` is the slot it has a pointer to.
  datatype Pc =
    | Idle
    | Enter(hash: nat, try: bool)                // before fio_sem_down(&fld->lock)
    | Find(hash: nat, try: bool)                 // table lock held, before fio_hash_find
    | Alloc(hash: nat, try: bool, retry: bool)   // table lock held, in get_filelock
    | Starved(hash: nat)                         // table lock dropped, in usleep
    | HasRef(slot: nat, hash: nat, try: bool)    // reference taken, table lock released
    | Raced(slot: nat, hash: nat)                // fio_sem_down_trylock failed
    | Committed(slot: nat, hash: nat)            // the only reference is ours: will sleep
    | Holds(slot: nat, hash: nat)                // the caller has the file lock
    | Leaving(slot: nat, hash: nat)              // fio_unlock_file called
    | Dropped(slot: nat, hash: nat, refs: nat)   // table lock held, before fio_sem_up
    | Removing(slot: nat, hash: nat)             // table lock held, last reference gone

  datatype State = State(
    slots: seq<Slot>,
    free: seq<nat>,
    active: seq<nat>,
    owner: Option<Tid>,        // who holds the table lock
    pcs: map<Tid, Pc>)

  // ---------------------------------------------------------------- steps

  predicate InRange(s: seq<nat>, n: nat) {
    forall k :: 0 <= k < |s| ==> s[k] < n
  }

  // fio_hash_find: the first active slot with this hash.
  function Lookup(active: seq<nat>, slots: seq<Slot>, hash: nat): (r: Option<nat>)
    requires InRange(active, |slots|)
    ensures r.Some? ==> r.value in active && r.value < |slots| && slots[r.value].hash == hash
    ensures r.None? ==> forall k :: 0 <= k < |active| ==> slots[active[k]].hash != hash
  {
    if active == [] then None
    else if slots[active[0]].hash == hash then Some(active[0])
    else Lookup(active[1..], slots, hash)
  }

  // flist_del_init of slot j.
  function Without(s: seq<nat>, j: nat): seq<nat> {
    if s == [] then []
    else if s[0] == j then s[1..]
    else [s[0]] + Without(s[1..], j)
  }

  ghost predicate Shape(s: State) {
    && |s.slots| == MAX_FILELOCKS
    && InRange(s.active, MAX_FILELOCKS) && InRange(s.free, MAX_FILELOCKS)
    && (forall t :: t in s.pcs && PointsAt(s.pcs[t]) ==> s.pcs[t].slot < MAX_FILELOCKS)
  }

  predicate PointsAt(p: Pc) {
    p.HasRef? || p.Raced? || p.Committed? || p.Holds? || p.Leaving? || p.Dropped? || p.Removing?
  }

  function Goto(s: State, t: Tid, p: Pc): State {
    s.(pcs := s.pcs[t := p])
  }

  // ff->references++ on slot i, then release of the table lock.
  function TakeRef(s: State, t: Tid, i: nat, hash: nat, try: bool): State
    requires i < |s.slots|
  {
    Goto(s.(slots := s.slots[i := s.slots[i].(references := s.slots[i].references + 1)],
            owner := None), t, HasRef(i, hash, try))
  }

  // A thread is blocked only on the table lock or on its slot's semaphore.
  predicate Ready(s: State, t: Tid)
    requires Shape(s) && t in s.pcs
  {
    match s.pcs[t]
    case Enter(_, _) => s.owner == None
    case Starved(_) => s.owner == None
    case HasRef(i, _, try) => try || s.slots[i].value > 0
    case Raced(_, _) => s.owner == None
    case Committed(i, _) => s.slots[i].value > 0
    case Leaving(_, _) => s.owner == None
    case _ => true
  }

  // What the thread does next.
  function Successor(s: State, t: Tid): State
    requires Shape(s) && t in s.pcs && s.pcs[t] != Idle && Ready(s, t)
  {
    match s.pcs[t]
    case Enter(hash, try) => Goto(s.(owner := Some(t)), t, Find(hash, try))
    case Find(hash, try) =>
      (match Lookup(s.active, s.slots, hash)
       case Some(i) => TakeRef(s, t, i, hash, try)
       case None => Goto(s, t, Alloc(hash, try, false)))
    case Alloc(hash, try, retry) => AfterAlloc(s, t, hash, try, retry)
    case Starved(hash) => Goto(s.(owner := Some(t)), t, Alloc(hash, false, true))
    case HasRef(i, hash, try) =>
      if s.slots[i].value > 0 then SemDown(s, t, i, hash) else Goto(s, t, Raced(i, hash))
    case Raced(i, hash) =>
      if s.slots[i].references != 1 then Goto(DropRef(s, i), t, Idle) else Goto(s, t, Committed(i, hash))
    case Committed(i, hash) => SemDown(s, t, i, hash)
    case Holds(i, hash) => Goto(s, t, Leaving(i, hash))
    case Leaving(_, hash) =>
      (match Lookup(s.active, s.slots, hash)
       case Some(j) =>
         Goto(DropRef(s, j).(owner := Some(t)), t, Dropped(j, hash, DropRef(s, j).slots[j].references))
       case None => Goto(s, t, Idle))
    case Dropped(j, hash, refs) =>
      var up := s.(slots := s.slots[j := s.slots[j].(value := s.slots[j].value + 1)]);
      if refs == 0 then Goto(up, t, Removing(j, hash)) else Goto(up.(owner := None), t, Idle)
    case Removing(j, _) =>
      Goto(s.(active := Without(s.active, j), free := [j] + s.free, owner := None), t, Idle)
  }

  lemma SuccessorFrame(s: State, t: Tid)
    requires Shape(s) && t in s.pcs && s.pcs[t] != Idle && Ready(s, t)
    ensures var r := Successor(s, t); |r.slots| == |s.slots| && t in r.pcs && r.pcs == s.pcs[t := r.pcs[t]]
  {
  }

  ghost predicate Step(s: State, s': State, t: Tid)
    requires Shape(s)
  {
    && t in s.pcs
    && if s.pcs[t].Idle? then exists hash, try :: s' == Goto(s, t, Enter(hash, try))
       else Ready(s, t) && s' == Successor(s, t)
  }

  // The rest of get_filelock and fio_hash_get once the hash was not found.
  function AfterAlloc(s: State, t: Tid, hash: nat, try: bool, retry: bool): State
    requires Shape(s)
  {
    if s.free == [] then
      Goto(s.(owner := None), t, if try then Idle else Starved(hash))
    else
      var found := Lookup(s.active, s.slots, hash);
      if retry && found.Some? then
        TakeRef(s, t, found.value, hash, try)   // the fresh slot goes back to the head of the free list
      else
        var i := s.free[0];
        Goto(s.(slots := s.slots[i := Slot(hash, 1, s.slots[i].value)],
                free := s.free[1..], active := [i] + s.active, owner := None),
             t, HasRef(i, hash, try))
  }

  function SemDown(s: State, t: Tid, i: nat, hash: nat): State
    requires i < |s.slots| && s.slots[i].value > 0
  {
    Goto(s.(slots := s.slots[i := s.slots[i].(value := s.slots[i].value - 1)]), t, Holds(i, hash))
  }

  // --ff->references, on an unsigned int.
  function DropRef(s: State, i: nat): State
    requires i < |s.slots|
  {
    s.(slots := s.slots[i := s.slots[i].(references :=
      if s.slots[i].references == 0 then 0xFFFF_FFFF else s.slots[i].references - 1)])
  }

  ghost predicate Init(s: State) {
    && s.slots == seq(MAX_FILELOCKS, _ => Slot(0, 0, 1))
    && s.free == seq(MAX_FILELOCKS, i => i)
    && s.active == [] && s.owner == None
    && forall t :: t in s.pcs ==> s.pcs[t] == Idle
  }

  ghost predicate Next(s: State, s': State) {
    Shape(s) && exists t :: Step(s, s', t)
  }

  ghost predicate Run(run: seq<State>) {
    |run| > 0 && Init(run[0]) && forall k :: 0 <= k < |run| - 1 ==> Next(run[k], run[k + 1])
  }

  // ------------------------------------------------------------ invariant

  // Threads that own one of the slot's references.
  predicate HasReference(p: Pc, i: nat) {
    (p.HasRef? || p.Raced? || p.Committed? || p.Holds? || p.Leaving?) && p.slot == i
  }

  // Threads that have lowered the slot's semaphore and not raised it yet.
  predicate HasSem(p: Pc, i: nat) {
    (p.Holds? || p.Leaving? || p.Dropped?) && p.slot == i
  }

  predicate InTable(p: Pc) {
    p.Find? || p.Alloc? || p.Dropped? || p.Removing?
  }

  ghost function RefSet(pcs: map<Tid, Pc>, i: nat): set<Tid> {
    set t | t in pcs && HasReference(pcs[t], i)
  }

  ghost function SemSet(pcs: map<Tid, Pc>, i: nat): set<Tid> {
    set t | t in pcs && HasSem(pcs[t], i)
  }

  // Every slot is in exactly one of the two lists, once.
  ghost predicate Lists(s: State) {
    && NoDup(s.free) && NoDup(s.active)
    && forall i :: 0 <= i < MAX_FILELOCKS ==> (i in s.free <==> i !in s.active)
  }

  // At most one active slot per hash.
  ghost predicate UniqueHash(s: State)
    requires Shape(s)
  {
    forall i, j :: i in s.active && j in s.active && s.slots[i].hash == s.slots[j].hash ==> i == j
  }

  ghost predicate OwnerAgrees(s: State) {
    && (s.owner.Some? ==> s.owner.value in s.pcs)
    && forall t :: t in s.pcs ==> (InTable(s.pcs[t]) <==> s.owner == Some(t))
  }

  ghost predicate PcOk(s: State, p: Pc)
    requires Shape(s)
  {
    && (PointsAt(p) ==> p.slot in s.active && s.slots[p.slot].hash == p.hash)
    && (p.Dropped? ==> p.refs == s.slots[p.slot].references)
    && (p.Removing? ==> s.slots[p.slot].references == 0)
    && (p.Alloc? && !p.retry ==> forall i :: i in s.active ==> s.slots[i].hash != p.hash)
  }

  // References count the referencing threads; semaphore and holder add up to one.
  ghost predicate Counts(s: State)
    requires Shape(s)
  {
    forall i :: 0 <= i < MAX_FILELOCKS ==>
      && s.slots[i].references == |RefSet(s.pcs, i)|
      && s.slots[i].value + |SemSet(s.pcs, i)| == 1
  }

  // An active slot without references is being taken out of the table.
  ghost predicate Alive(s: State)
    requires Shape(s)
  {
    forall i :: i in s.active && s.slots[i].references == 0 ==>
      s.owner.Some? && s.owner.value in s.pcs && Retiring(s.pcs[s.owner.value], i)
  }

  predicate Retiring(p: Pc, i: nat) {
    (p.Dropped? || p.Removing?) && p.slot == i
  }

  ghost predicate Inv(s: State) {
    && Shape(s) && Lists(s) && UniqueHash(s) && OwnerAgrees(s)
    && (forall t :: t in s.pcs ==> PcOk(s, s.pcs[t]))
    && Counts(s) && Alive(s)
  }

  // Moving one thread changes each count by that thread alone.
  lemma CountsMove(pcs: map<Tid, Pc>, t: Tid, p: Pc, i: nat)
    requires t in pcs
    ensures |RefSet(pcs[t := p], i)| ==
            |RefSet(pcs, i)| - One(HasReference(pcs[t], i)) + One(HasReference(p, i))
    ensures |SemSet(pcs[t := p], i)| ==
            |SemSet(pcs, i)| - One(HasSem(pcs[t], i)) + One(HasSem(p, i))
  {
    assert RefSet(pcs[t := p], i) - {t} == RefSet(pcs, i) - {t};
    assert SemSet(pcs[t := p], i) - {t} == SemSet(pcs, i) - {t};
    SizeSplit(RefSet(pcs[t := p], i), t);
    SizeSplit(RefSet(pcs, i), t);
    SizeSplit(SemSet(pcs[t := p], i), t);
    SizeSplit(SemSet(pcs, i), t);
  }

  // What the reference count and the semaphore of every slot must become for
  // the counts to stay right when thread t moves to p.
  lemma CountsKept(s: State, s': State, t: Tid, p: Pc)
    requires Shape(s) && Counts(s) && t in s.pcs && Shape(s') && s'.pcs == s.pcs[t := p]
    requires forall i :: 0 <= i < MAX_FILELOCKS ==>
      && s'.slots[i].references + One(HasReference(s.pcs[t], i))
         == s.slots[i].references + One(HasReference(p, i))
      && s'.slots[i].value + One(HasSem(p, i)) == s.slots[i].value + One(HasSem(s.pcs[t], i))
    ensures Counts(s')
  {
    forall i | 0 <= i < MAX_FILELOCKS
      ensures s'.slots[i].references == |RefSet(s'.pcs, i)|
      ensures s'.slots[i].value + |SemSet(s'.pcs, i)| == 1
    {
      CountsMove(s.pcs, t, p, i);
    }
  }

  lemma InitInv(s: State)
    requires Init(s)
    ensures Inv(s)
  {
    forall i | 0 <= i < MAX_FILELOCKS
      ensures s.slots[i].references == |RefSet(s.pcs, i)|
      ensures s.slots[i].value + |SemSet(s.pcs, i)| == 1
      ensures i in s.free
    {
      assert RefSet(s.pcs, i) == {} && SemSet(s.pcs, i) == {};
      assert s.free[i] == i;
    }
  }

  lemma {:induction false} WithoutMembers(s: seq<nat>, j: nat)
    requires NoDup(s)
    ensures forall x :: x in Without(s, j) <==> x in s && x != j
    ensures NoDup(Without(s, j))
  {
    if s != [] {
      assert s == [s[0]] + s[1..];
      WithoutMembers(s[1..], j);
      assert s[0] !in s[1..];
    }
  }

  lemma StepInv(s: State, s': State, t: Tid)
    requires Inv(s) && Step(s, s', t)
    ensures Inv(s')
  {
    match s.pcs[t]
    case Idle => MoveInv(s, s', t);
    case Enter(_, _) => EnterInv(s, s', t);
    case Find(hash, try) =>
      var found := Lookup(s.active, s.slots, hash);
      if found.Some? { TakeRefInv(s, s', t, found.value, hash, try); } else { MoveInv(s, s', t); }
    case Alloc(_, _, _) => AllocInv(s, s', t);
    case Starved(_) => EnterInv(s, s', t);
    case HasRef(i, hash, try) =>
      if s.slots[i].value > 0 { SemDownInv(s, s', t, i); } else { MoveInv(s, s', t); }
    case Raced(i, hash) =>
      if s.slots[i].references != 1 { GiveUpInv(s, s', t, i); } else { MoveInv(s, s', t); }
    case Committed(i, _) => SemDownInv(s, s', t, i);
    case Holds(_, _) => MoveInv(s, s', t);
    case Leaving(i, hash) => UnlockFindInv(s, s', t, i);
    case Dropped(_, _, _) => RaiseInv(s, s', t);
    case Removing(_, _) => RemoveInv(s, s', t);
  }

  // A thread moves between two places that count the same; nothing else changes.
  lemma MoveInv(s: State, s': State, t: Tid)
    requires Inv(s) && t in s.pcs && t in s'.pcs && s' == Goto(s, t, s'.pcs[t])
    requires PcOk(s, s'.pcs[t])
    requires InTable(s'.pcs[t]) == InTable(s.pcs[t]) && !IsRetiring(s.pcs[t])
    requires forall i :: HasReference(s'.pcs[t], i) == HasReference(s.pcs[t], i)
    requires forall i :: HasSem(s'.pcs[t], i) == HasSem(s.pcs[t], i)
    ensures Inv(s')
  {
    CountsKept(s, s', t, s'.pcs[t]);
  }

  predicate IsRetiring(p: Pc) {
    p.Dropped? || p.Removing?
  }

  // The table lock is taken.
  lemma EnterInv(s: State, s': State, t: Tid)
    requires Inv(s) && t in s.pcs && s.owner == None && (s.pcs[t].Enter? || s.pcs[t].Starved?)
    requires t in s'.pcs && s' == Goto(s.(owner := Some(t)), t, s'.pcs[t])
    requires s'.pcs[t].Find? || (s'.pcs[t].Alloc? && s'.pcs[t].retry)
    ensures Inv(s')
  {
    CountsKept(s, s', t, s'.pcs[t]);
  }

  lemma TakeRefInv(s: State, s': State, t: Tid, i: nat, hash: nat, try: bool)
    requires Inv(s) && t in s.pcs && (s.pcs[t].Find? || s.pcs[t].Alloc?)
    requires i in s.active && i < MAX_FILELOCKS && s.slots[i].hash == hash
    requires s' == TakeRef(s, t, i, hash, try)
    ensures Inv(s')
  {
    CountsKept(s, s', t, s'.pcs[t]);
  }

  lemma SemDownInv(s: State, s': State, t: Tid, i: nat)
    requires Inv(s) && t in s.pcs && (s.pcs[t].HasRef? || s.pcs[t].Committed?) && s.pcs[t].slot == i
    requires s.slots[i].value > 0 && s' == SemDown(s, t, i, s.pcs[t].hash)
    ensures Inv(s')
  {
    CountsKept(s, s', t, s'.pcs[t]);
  }

  lemma GiveUpInv(s: State, s': State, t: Tid, i: nat)
    requires Inv(s) && t in s.pcs && s.pcs[t].Raced? && s.pcs[t].slot == i && s.owner == None
    requires s.slots[i].references != 1 && s' == Goto(DropRef(s, i), t, Idle)
    ensures Inv(s')
  {
    assert t in RefSet(s.pcs, i);
    CountsKept(s, s', t, Idle);
  }

  // The holder finds its own slot again.
  lemma UnlockFindInv(s: State, s': State, t: Tid, i: nat)
    requires Inv(s) && Step(s, s', t) && s.pcs[t].Leaving? && s.pcs[t].slot == i
    ensures Inv(s') && s'.pcs[t].Dropped? && s'.pcs[t].slot == i
  {
    var found := Lookup(s.active, s.slots, s.pcs[t].hash);
    assert found == Some(i);
    assert t in RefSet(s.pcs, i);
    CountsKept(s, s', t, s'.pcs[t]);
  }

  lemma RaiseInv(s: State, s': State, t: Tid)
    requires Inv(s) && Step(s, s', t) && s.pcs[t].Dropped?
    ensures Inv(s') && s.slots[s.pcs[t].slot].value == 0
  {
    assert t in SemSet(s.pcs, s.pcs[t].slot);
    CountsKept(s, s', t, s'.pcs[t]);
  }

  lemma RemoveInv(s: State, s': State, t: Tid)
    requires Inv(s) && Step(s, s', t) && s.pcs[t].Removing?
    ensures Inv(s')
  {
    var j := s.pcs[t].slot;
    WithoutMembers(s.active, j);
    assert InRange(s'.active, MAX_FILELOCKS) by {
      forall k | 0 <= k < |s'.active| ensures s'.active[k] < MAX_FILELOCKS {
        assert s'.active[k] in s.active;
      }
    }
    CountsKept(s, s', t, Idle);
    assert RefSet(s.pcs, j) == {};
    forall u | u in s.pcs && u != t ensures PcOk(s', s.pcs[u]) {
      assert u !in RefSet(s.pcs, j);
      assert PcOk(s, s.pcs[u]);
    }
  }

  lemma AllocInv(s: State, s': State, t: Tid)
    requires Inv(s) && Step(s, s', t) && s.pcs[t].Alloc?
    ensures Inv(s')
  {
    var p := s.pcs[t];
    if s.free == [] {
      CountsKept(s, s', t, s'.pcs[t]);
    } else {
      var found := Lookup(s.active, s.slots, p.hash);
      if p.retry && found.Some? {
        TakeRefInv(s, s', t, found.value, p.hash, p.try);
      } else {
        ActivateInv(s, s', t);
      }
    }
  }

  // A free slot, which nobody points at, becomes active.
  lemma ActivateInv(s: State, s': State, t: Tid)
    requires Inv(s) && Step(s, s', t) && s.pcs[t].Alloc? && s.free != []
    requires !s.pcs[t].retry || Lookup(s.active, s.slots, s.pcs[t].hash).None?
    ensures Inv(s')
  {
    var i := s.free[0];
    FreeIsUntouched(s, i);
    ActivateLists(s, s', s.pcs[t].hash);
    CountsKept(s, s', t, s'.pcs[t]);
    forall u | u in s.pcs && u != t ensures PcOk(s', s.pcs[u]) {
      assert PcOk(s, s.pcs[u]);
      assert !InTable(s.pcs[u]);
    }
  }

  lemma FreeIsUntouched(s: State, i: nat)
    requires Inv(s) && i in s.free
    ensures i < MAX_FILELOCKS && i !in s.active
    ensures s.slots[i].references == 0 && s.slots[i].value == 1
    ensures forall u :: u in s.pcs && PointsAt(s.pcs[u]) ==> s.pcs[u].slot != i
  {
    forall u | u in s.pcs && PointsAt(s.pcs[u]) ensures s.pcs[u].slot != i {
      assert PcOk(s, s.pcs[u]);
    }
    assert RefSet(s.pcs, i) == {} && SemSet(s.pcs, i) == {};
  }

  lemma ActivateLists(s: State, s': State, hash: nat)
    requires Shape(s) && Lists(s) && UniqueHash(s) && s.free != [] && s.free[0] !in s.active
    requires forall k :: 0 <= k < |s.active| ==> s.slots[s.active[k]].hash != hash
    requires s'.active == [s.free[0]] + s.active && s'.free == s.free[1..]
    requires s'.slots == s.slots[s.free[0] := Slot(hash, 1, s.slots[s.free[0]].value)]
    requires Shape(s')
    ensures Lists(s') && UniqueHash(s')
  {
    var i := s.free[0];
    assert s.free == [i] + s.free[1..];
    forall j | 0 <= j < MAX_FILELOCKS ensures j in s'.free <==> j !in s'.active {
      assert j in s'.active <==> j == i || j in s.active;
      assert j in s.free <==> j == i || j in s'.free;
    }
    forall j | j in s.active ensures s'.slots[j] == s.slots[j] && s'.slots[j].hash != hash {
    }
  }

  // ------------------------------------------------------------- theorems

  lemma {:induction false} RunInv(run: seq<State>, k: nat)
    requires Run(run) && k < |run|
    ensures Inv(run[k])
  {
    if k == 0 {
      InitInv(run[0]);
    } else {
      RunInv(run, k - 1);
      assert Next(run[k - 1], run[k - 1 + 1]);
      var t :| Step(run[k - 1], run[k], t);
      StepInv(run[k - 1], run[k], t);
    }
  }

  // The caller-visible claim to a file lock: from the return of
  // fio_lock_file until fio_unlock_file raises the semaphore.
  predicate Locked(p: Pc, hash: nat) {
    (p.Holds? || p.Leaving? || p.Dropped?) && p.hash == hash
  }

  // No hash, hence no name, has two holders.
  lemma MutualExclusion(run: seq<State>, k: nat, hash: nat, t: Tid, u: Tid)
    requires Run(run) && k < |run| && t in run[k].pcs && u in run[k].pcs
    requires Locked(run[k].pcs[t], hash) && Locked(run[k].pcs[u], hash)
    ensures t == u
  {
    RunInv(run, k);
    OneHolder(run[k], hash, t, u);
  }

  lemma OneHolder(s: State, hash: nat, t: Tid, u: Tid)
    requires Inv(s) && t in s.pcs && u in s.pcs && Locked(s.pcs[t], hash) && Locked(s.pcs[u], hash)
    ensures t == u
  {
    assert PcOk(s, s.pcs[t]) && PcOk(s, s.pcs[u]);
    var i := s.pcs[t].slot;
    SizeSplit(SemSet(s.pcs, i), t);
    SizeSplit(SemSet(s.pcs, i) - {t}, u);
  }

  // A slot is free exactly when it is unreferenced and not being retired, and
  // then its semaphore is open; no two active slots share a hash.
  lemma SlotsAccounted(run: seq<State>, k: nat, i: nat)
    requires Run(run) && k < |run| && i < MAX_FILELOCKS
    ensures Shape(run[k]) && (i in run[k].free <==> i !in run[k].active)
    ensures i in run[k].free ==> run[k].slots[i].references == 0 && run[k].slots[i].value == 1
    ensures run[k].owner == None && i in run[k].active ==> run[k].slots[i].references > 0
    ensures forall j :: i in run[k].active && j in run[k].active && i != j ==>
              j < MAX_FILELOCKS && run[k].slots[i].hash != run[k].slots[j].hash
  {
    RunInv(run, k);
    if i in run[k].free { FreeIsUntouched(run[k], i); }
  }

  // fio_unlock_file by a holder always finds the slot it locked, and raises a
  // semaphore whose value is zero.
  lemma UnlockFindsOwnSlot(run: seq<State>, k: nat, t: Tid)
    requires Run(run) && k + 1 < |run| && t in run[k].pcs && Step(run[k], run[k + 1], t)
    ensures run[k].pcs[t].Leaving? ==>
              && run[k + 1].pcs[t].Dropped?
              && run[k + 1].pcs[t].slot == run[k].pcs[t].slot
    ensures run[k].pcs[t].Dropped? ==> run[k].slots[run[k].pcs[t].slot].value == 0
  {
    RunInv(run, k);
    if run[k].pcs[t].Leaving? {
      UnlockFindInv(run[k], run[k + 1], t, run[k].pcs[t].slot);
    } else if run[k].pcs[t].Dropped? {
      RaiseInv(run[k], run[k + 1], t);
    }
  }

  // When every caller is done the active list is empty: the assert in
  // fio_filelock_exit cannot fail.
  lemma ExitAssertHolds(run: seq<State>, k: nat)
    requires Run(run) && k < |run|
    requires forall t :: t in run[k].pcs ==> run[k].pcs[t] == Idle
    ensures run[k].active == []
  {
    var s := run[k];
    assert s.active == [] || s.active[0] in s.active;
    RunInv(run, k);
    assert s.owner == None;
    assert forall i :: i in s.active ==> RefSet(s.pcs, i) == {};
  }

  // -------------------------------------------------------- how calls end

  // Inside fio_lock_file for this hash.
  predicate PlainCall(p: Pc, hash: nat) {
    ((p.Enter? || p.Find? || p.Alloc? || p.HasRef?) && !p.try && p.hash == hash) || p == Starved(hash)
  }

  // Inside fio_trylock_file for this hash.
  predicate TryCall(p: Pc, hash: nat) {
    ((p.Enter? || p.Find? || p.Alloc? || p.HasRef?) && p.try && p.hash == hash)
    || ((p.Raced? || p.Committed?) && p.hash == hash)
  }

  predicate UnlockCall(p: Pc, hash: nat) {
    (p.Leaving? || p.Dropped? || p.Removing?) && p.hash == hash
  }

  predicate HoldsHash(p: Pc, hash: nat) { p.Holds? && p.hash == hash }

  // A plain call goes on until it holds the lock it asked for; a trylock until
  // it holds it or has failed; an unlock until it is done.  No other thread
  // moves.
  lemma CallsEndRight(run: seq<State>, k: nat, t: Tid, hash: nat)
    requires Run(run) && k + 1 < |run| && t in run[k].pcs && Shape(run[k]) && Step(run[k], run[k + 1], t)
    ensures t in run[k + 1].pcs && run[k + 1].pcs == run[k].pcs[t := run[k + 1].pcs[t]]
    ensures var p, q := run[k].pcs[t], run[k + 1].pcs[t];
            && (PlainCall(p, hash) ==> PlainCall(q, hash) || HoldsHash(q, hash))
            && (TryCall(p, hash) ==> TryCall(q, hash) || HoldsHash(q, hash) || q == Idle)
            && (UnlockCall(p, hash) ==> UnlockCall(q, hash) || q == Idle)
            && (HoldsHash(p, hash) ==> q.Leaving? && UnlockCall(q, hash))
  {
    RunInv(run, k);
    var s := run[k];
    assert PcOk(s, s.pcs[t]);
    if !s.pcs[t].Idle? {
      SuccessorFrame(s, t);
      NextPc(s, t, hash);
    }
  }

  lemma NextPc(s: State, t: Tid, hash: nat)
    requires Inv(s) && t in s.pcs && s.pcs[t] != Idle && Ready(s, t)
    ensures t in Successor(s, t).pcs
    ensures var p, q := s.pcs[t], Successor(s, t).pcs[t];
            && (PlainCall(p, hash) ==> PlainCall(q, hash) || HoldsHash(q, hash))
            && (TryCall(p, hash) ==> TryCall(q, hash) || HoldsHash(q, hash) || q == Idle)
            && (UnlockCall(p, hash) ==> UnlockCall(q, hash) || q == Idle)
            && (HoldsHash(p, hash) ==> q.Leaving? && UnlockCall(q, hash))
  {
  }

  // With a reference in hand, a thread takes the lock exactly when nobody has
  // it; a trylock that cannot goes on to see whether it is alone.
  lemma TakesIffUnlocked(run: seq<State>, k: nat, t: Tid)
    requires Run(run) && k + 1 < |run| && t in run[k].pcs && Shape(run[k]) && Step(run[k], run[k + 1], t)
    requires run[k].pcs[t].HasRef?
    ensures var p, q := run[k].pcs[t], run[k + 1].pcs[t];
            if exists u :: u in run[k].pcs && Locked(run[k].pcs[u], p.hash) then p.try && q == Raced(p.slot, p.hash)
            else q == Holds(p.slot, p.hash)
  {
    RunInv(run, k);
    var s := run[k];
    var p := s.pcs[t];
    assert PcOk(s, p);
    if u :| u in s.pcs && Locked(s.pcs[u], p.hash) {
      assert PcOk(s, s.pcs[u]);
      assert u in SemSet(s.pcs, p.slot);
      SizeSplit(SemSet(s.pcs, p.slot), u);
    } else {
      forall u | u in s.pcs ensures u !in SemSet(s.pcs, p.slot) {
        assert PcOk(s, s.pcs[u]);
      }
      assert SemSet(s.pcs, p.slot) == {};
    }
  }

  // A trylock that lost the race fails exactly when some other thread has a
  // reference to the slot; so it never waits for a holder.
  lemma TryFailsIff(run: seq<State>, k: nat, t: Tid)
    requires Run(run) && k + 1 < |run| && t in run[k].pcs && Shape(run[k]) && Step(run[k], run[k + 1], t)
    requires run[k].pcs[t].Raced?
    ensures var p, q := run[k].pcs[t], run[k + 1].pcs[t];
            if exists u :: u in run[k].pcs && u != t && HasReference(run[k].pcs[u], p.slot) then q == Idle
            else q == Committed(p.slot, p.hash)
    ensures forall u :: u in run[k].pcs && run[k].pcs[u].Holds? && run[k].pcs[u].hash == run[k].pcs[t].hash ==>
              run[k + 1].pcs[t] == Idle
  {
    RunInv(run, k);
    var s := run[k];
    var p := s.pcs[t];
    assert PcOk(s, p);
    var others := RefSet(s.pcs, p.slot) - {t};
    SizeSplit(RefSet(s.pcs, p.slot), t);
    if u :| u in s.pcs && u != t && HasReference(s.pcs[u], p.slot) {
      SizeSplit(others, u);
    } else {
      assert others == {};
    }
    forall u | u in s.pcs && s.pcs[u].Holds? && s.pcs[u].hash == p.hash ensures HasReference(s.pcs[u], p.slot) {
      assert PcOk(s, s.pcs[u]);
    }
  }

  // Looking for a slot ends a trylock exactly when no slot is free; a plain
  // call then waits.  Otherwise the call gets a slot of its hash.
  lemma SlotFoundIff(run: seq<State>, k: nat, t: Tid)
    requires Run(run) && k + 1 < |run| && t in run[k].pcs && Shape(run[k]) && Step(run[k], run[k + 1], t)
    requires run[k].pcs[t].Alloc?
    ensures var p, q := run[k].pcs[t], run[k + 1].pcs[t];
            if run[k].free == [] then q == (if p.try then Idle else Starved(p.hash))
            else q.HasRef? && q.hash == p.hash && q.try == p.try
                 && q.slot < |run[k + 1].slots| && run[k + 1].slots[q.slot].hash == p.hash
  {
    RunInv(run, k);
  }

  // The thread is inside fio_lock_file, fio_trylock_file or fio_unlock_file.
  // A holder is not: when it unlocks is its own affair.
  predicate InCall(p: Pc) { !p.Idle? && !p.Holds? }

  // No deadlock: while a call is under way some call can make a step, unless
  // the caller waits for a slot that somebody holds.
  lemma SomebodyCanStep(run: seq<State>, k: nat, t: Tid)
    requires Run(run) && k < |run| && t in run[k].pcs && InCall(run[k].pcs[t])
    ensures Shape(run[k])
    ensures || (exists u, s' :: u in run[k].pcs && InCall(run[k].pcs[u]) && Step(run[k], s', u))
            || (&& PointsAt(run[k].pcs[t]) && !Ready(run[k], t)
                && exists u :: u in run[k].pcs && run[k].pcs[u].Holds? && run[k].pcs[u].slot == run[k].pcs[t].slot)
  {
    RunInv(run, k);
    var s := run[k];
    if s.owner.Some? {
      assert Step(s, Successor(s, s.owner.value), s.owner.value);
    } else if !Ready(s, t) {
      var i := s.pcs[t].slot;
      SizeSplit(SemSet(s.pcs, i), t);
      var u :| u in SemSet(s.pcs, i);
      if !s.pcs[u].Holds? {
        assert Step(s, Successor(s, u), u);
      }
    } else {
      assert Step(s, Successor(s, t), t);
    }
  }
}
