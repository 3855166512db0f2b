/**
 The process-shared semaphore (fio/fio_sem.c) built from a mutex, a condition
 variable, a value and a waiter count.

 Everything between locking and unlocking the mutex is one step.  A thread
 blocked in a condition wait is `sleeping`; once unblocked it is on its way
 back to the mutex, either `woken` (the wait returns 0) or `expired` (the wait
 returns ETIMEDOUT).  The condition variable behaves as POSIX says: a signal
 unblocks at least one sleeper if there is one, a sleeper may be unblocked for
 no reason, and a timed wait may return ETIMEDOUT although it consumed a signal.
 */
module Semaphore {
  import opened Common

  type Tid = nat

  datatype Sem = Sem(
    value: nat,
    waiters: nat,
    sleeping: set<Tid>,
    woken: set<Tid>,
    expired: set<Tid>,
    timed: set<Tid>,      // threads that went to sleep in fio_sem_down_timeout
    ups: nat,             // calls of fio_sem_up so far
    downs: nat)           // successful downs so far

  datatype Action =
    | Down(t: Tid, timed: bool)        // fio_sem_down, fio_sem_down_timeout: lock, test, maybe sleep
    | TryDown(t: Tid)                  // fio_sem_down_trylock
    | Up(wake: set<Tid>)               // fio_sem_up; wake: the sleepers the signal unblocks
    | Stray(t: Tid)                    // a spurious wakeup
    | Resume(t: Tid)                   // a woken thread has the mutex again
    | Expire(t: Tid)                   // a timed wait runs out, perhaps just as it was signalled
    | GiveUp(t: Tid, late: bool)       // an expired thread has the mutex again; late: sem_timed_out

  predicate Outside(s: Sem, t: Tid) {
    t !in s.sleeping && t !in s.woken && t !in s.expired
  }

  // Entering the wait loop from outside.
  function Enter(s: Sem, t: Tid, timed: bool): Sem {
    if s.value > 0 then s.(value := s.value - 1, downs := s.downs + 1)
    else s.(waiters := s.waiters + 1, sleeping := s.sleeping + {t},
            timed := if timed then s.timed + {t} else s.timed - {t})
  }

  // Back at the top of the wait loop with ret == 0.
  function Retry(s: Sem, t: Tid): Sem
    requires s.waiters > 0
  {
    var gone := s.(woken := s.woken - {t}, expired := s.expired - {t});
    if s.value > 0 then gone.(value := s.value - 1, waiters := s.waiters - 1, downs := s.downs + 1)
    else gone.(sleeping := s.sleeping + {t})
  }

  ghost predicate Step(s: Sem, a: Action, s': Sem) {
    match a
    case Down(t, timed) => Outside(s, t) && s' == Enter(s, t, timed)
    case TryDown(t) =>
      Outside(s, t) && s' == (if s.value > 0 then s.(value := s.value - 1, downs := s.downs + 1) else s)
    case Up(wake) =>
      && wake <= s.sleeping
      && (if s.value == 0 && s.waiters > 0 then s.sleeping != {} ==> wake != {} else wake == {})
      && s' == s.(value := s.value + 1, ups := s.ups + 1,
                  sleeping := s.sleeping - wake, woken := s.woken + wake)
    case Stray(t) =>
      t in s.sleeping && s' == s.(sleeping := s.sleeping - {t}, woken := s.woken + {t})
    case Resume(t) => t in s.woken && s.waiters > 0 && s' == Retry(s, t)
    case Expire(t) =>
      && t in (s.sleeping + s.woken) * s.timed
      && s' == s.(sleeping := s.sleeping - {t}, woken := s.woken - {t}, expired := s.expired + {t})
    case GiveUp(t, late) =>
      && t in s.expired && s.waiters > 0
      && s' == if late then s.(expired := s.expired - {t}, waiters := s.waiters - 1) else Retry(s, t)
  }

  ghost predicate Init(s: Sem, value: nat) {
    s == Sem(value, 0, {}, {}, {}, {}, 0, 0)
  }

  // A timed waiter waits together with somebody else.
  predicate Crowded(s: Sem) {
    (s.sleeping + s.woken + s.expired) * s.timed != {} && s.waiters > 1
  }

  // A run from initial value v whose ups happen only at values up to `limit`,
  // and whose timed waiters wait alone unless `crowds` are allowed.
  ghost predicate Run(states: seq<Sem>, actions: seq<Action>, v: nat, limit: nat, crowds: bool) {
    && |states| == |actions| + 1 && Init(states[0], v)
    && (forall k {:trigger Crowded(states[k])} :: 0 <= k < |states| && Crowded(states[k]) ==> crowds)
    && forall k {:trigger actions[k]} :: 0 <= k < |actions| ==>
         && Step(states[k], actions[k], states[k + 1])
         && (actions[k].Up? ==> states[k].value <= limit)
  }

  lemma RunStep(states: seq<Sem>, actions: seq<Action>, v: nat, limit: nat, crowds: bool, k: nat)
    requires Run(states, actions, v, limit, crowds) && k < |actions|
    ensures Step(states[k], actions[k], states[k + 1])
    ensures actions[k].Up? ==> states[k].value <= limit
    ensures Crowded(states[k]) ==> crowds
  {
  }

  // The waiter count is exact, and no up or down is lost.
  ghost predicate Accounted(s: Sem, v: nat) {
    && s.sleeping !! s.woken && s.sleeping !! s.expired && s.woken !! s.expired
    && s.waiters == |s.sleeping| + |s.woken| + |s.expired|
    && s.value + s.downs == v + s.ups
  }

  // The semaphore is never left open over a sleeper with nobody on the way.
  ghost predicate NoLostWakeup(s: Sem) {
    s.value > 0 && s.sleeping != {} ==> s.woken != {}
  }

  lemma MovedAll(from: set<Tid>, to: set<Tid>, w: set<Tid>)
    requires w <= from && from !! to
    ensures |from - w| + |to + w| == |from| + |to|
  {
    assert |from - w| + |w| == |from| by { assert (from - w) + w == from; }
    assert |to + w| == |to| + |w|;
  }

  lemma StepAccounted(s: Sem, a: Action, s': Sem, v: nat)
    requires Accounted(s, v) && Step(s, a, s')
    ensures Accounted(s', v)
  {
    match a
    case Up(wake) => MovedAll(s.sleeping, s.woken, wake);
    case _ =>
  }

  lemma {:induction false} RunAccounted(states: seq<Sem>, actions: seq<Action>, v: nat, limit: nat,
                                        crowds: bool, k: nat)
    requires Run(states, actions, v, limit, crowds) && k < |states|
    ensures Accounted(states[k], v)
  {
    if k > 0 {
      RunAccounted(states, actions, v, limit, crowds, k - 1);
      RunStep(states, actions, v, limit, crowds, k - 1);
      StepAccounted(states[k - 1], actions[k - 1], states[k], v);
    }
  }

  // ------------------------------------------------------ what a call does

  // A thread at the top of the wait loop, or in a trylock.
  predicate Tries(a: Action) { a.Down? || a.TryDown? || a.Resume? || (a.GiveUp? && !a.late) }

  // It counts: an up adds one, and whoever tries while the value is above zero
  // takes one; nothing else changes it.
  lemma StepValue(s: Sem, a: Action, s': Sem)
    requires Step(s, a, s')
    ensures s'.value == s.value + One(a.Up?) - One(Tries(a) && s.value > 0)
  {
  }

  // Where the thread is afterwards: a down returns at once exactly when the
  // semaphore is open, and sleeps otherwise; a trylock always returns; a thread
  // that gives up leaves.
  lemma StepThread(s: Sem, a: Action, s': Sem, v: nat)
    requires Accounted(s, v) && Step(s, a, s')
    ensures a.Down? || a.Resume? || (a.GiveUp? && !a.late) ==>
              if s.value > 0 then Outside(s', a.t) else a.t in s'.sleeping
    ensures a.TryDown? || (a.GiveUp? && a.late) ==> Outside(s', a.t)
    ensures a.Stray? ==> a.t in s'.woken
    ensures a.Expire? ==> a.t in s'.expired
    ensures a.Up? && s.value == 0 && s.sleeping != {} ==> exists t :: t in s.sleeping && t in s'.woken
  {
    if a.Up? && s.value == 0 && s.sleeping != {} {
      assert |s.sleeping| > 0;
      var t :| t in a.wake;
      assert t in s.sleeping && t in s'.woken;
    }
  }

  function UpsIn(actions: seq<Action>, k: nat): nat
    requires k <= |actions|
  {
    if k == 0 then 0 else UpsIn(actions, k - 1) + One(actions[k - 1].Up?)
  }

  // Tries that found the semaphore open.
  function TakenIn(states: seq<Sem>, actions: seq<Action>, k: nat): nat
    requires k <= |actions| <= |states|
  {
    if k == 0 then 0
    else TakenIn(states, actions, k - 1) + One(Tries(actions[k - 1]) && states[k - 1].value > 0)
  }

  // Over a run the value is the initial one, plus the calls of fio_sem_up, less
  // the tries that found it open.
  lemma {:induction false} ValueFromActions(states: seq<Sem>, actions: seq<Action>, v: nat, limit: nat,
                                            crowds: bool, k: nat)
    requires Run(states, actions, v, limit, crowds) && k < |states|
    ensures states[k].value == v + UpsIn(actions, k) - TakenIn(states, actions, k)
  {
    if k > 0 {
      ValueFromActions(states, actions, v, limit, crowds, k - 1);
      RunStep(states, actions, v, limit, crowds, k - 1);
      StepValue(states[k - 1], actions[k - 1], states[k]);
    }
  }

  // What binary use keeps: over a sleeper the value is at most one, and is
  // one only while a woken thread is on its way.
  ghost predicate Wakeable(s: Sem) {
    s.sleeping != {} ==> s.value == 0 || (s.value == 1 && s.woken != {})
  }

  // A timed waiter that is not in a crowd leaves no sleeper behind.
  lemma ExpiresAlone(s: Sem, t: Tid, v: nat)
    requires Accounted(s, v) && !Crowded(s) && t in s.timed && (t in s.woken || t in s.expired)
    ensures s.sleeping == {}
  {
    assert t in (s.sleeping + s.woken + s.expired) * s.timed;
    assert |s.woken| + |s.expired| >= 1;
    assert |s.sleeping| == 0;
  }

  lemma StepKeepsWakeup(s: Sem, a: Action, s': Sem, v: nat)
    requires Accounted(s, v) && Wakeable(s) && !Crowded(s) && Step(s, a, s')
    requires a.Up? ==> s.value == 0
    ensures Wakeable(s')
  {
    if a.Expire? && a.t in s.woken {
      ExpiresAlone(s, a.t, v);
    } else {
      StepKeepsOtherwise(s, a, s', v);
    }
  }

  // In binary use no wakeup is lost, whatever trylocks, barging threads,
  // spurious wakeups and timeouts do in between.
  lemma {:induction false} BinaryUseLosesNothing(states: seq<Sem>, actions: seq<Action>, v: nat, k: nat)
    requires Run(states, actions, v, 0, false) && k < |states|
    ensures Wakeable(states[k]) && NoLostWakeup(states[k])
  {
    if k > 0 {
      BinaryUseLosesNothing(states, actions, v, k - 1);
      RunAccounted(states, actions, v, 0, false, k - 1);
      RunStep(states, actions, v, 0, false, k - 1);
      StepKeepsWakeup(states[k - 1], actions[k - 1], states[k], v);
    }
  }

  // ------------------------------------------- timed waiters in company

  // The only woken thread times out while another sleeps under an open
  // semaphore.
  predicate Loses(s: Sem, a: Action) {
    a.Expire? && s.woken == {a.t} && a.t !in s.sleeping && s.value > 0 && s.sleeping != {}
  }

  lemma StepLosesIff(s: Sem, a: Action, s': Sem, v: nat)
    requires Accounted(s, v) && Wakeable(s) && Step(s, a, s') && (a.Up? ==> s.value == 0)
    ensures Wakeable(s') <==> !Loses(s, a)
  {
    if a.Expire? && a.t in s.woken {
      assert a.t !in s.sleeping;
      assert s.woken == {a.t} <==> s.woken - {a.t} == {};
    } else {
      StepKeepsOtherwise(s, a, s', v);
    }
  }

  lemma StepKeepsOtherwise(s: Sem, a: Action, s': Sem, v: nat)
    requires Accounted(s, v) && Wakeable(s) && Step(s, a, s')
    requires (a.Up? ==> s.value == 0) && (a.Expire? ==> a.t !in s.woken)
    ensures Wakeable(s')
  {
    if a.Up? && s.sleeping != {} {
      assert |s.sleeping| > 0;
    }
  }

  lemma {:induction false} WakeableUpTo(states: seq<Sem>, actions: seq<Action>, v: nat, crowds: bool, k: nat)
    requires Run(states, actions, v, 0, crowds) && k < |states|
    requires forall m :: 0 <= m < k ==> !Loses(states[m], actions[m])
    ensures Wakeable(states[k])
  {
    if k > 0 {
      WakeableUpTo(states, actions, v, crowds, k - 1);
      RunAccounted(states, actions, v, 0, crowds, k - 1);
      RunStep(states, actions, v, 0, crowds, k - 1);
      StepLosesIff(states[k - 1], actions[k - 1], states[k], v);
    }
  }

  // A run with ups at zero, timed waiters in any company: no wakeup is lost in
  // it if and only if it has no such step.
  lemma LosesNothingIff(states: seq<Sem>, actions: seq<Action>, v: nat, crowds: bool)
    requires Run(states, actions, v, 0, crowds)
    ensures (forall k :: 0 <= k < |states| ==> NoLostWakeup(states[k])) <==>
            (forall k :: 0 <= k < |actions| ==> !Loses(states[k], actions[k]))
  {
    if k :| 0 <= k < |actions| && Loses(states[k], actions[k]) {
      RunStep(states, actions, v, 0, crowds, k);
      assert !NoLostWakeup(states[k + 1]);
    } else {
      forall k | 0 <= k < |states| ensures NoLostWakeup(states[k]) {
        WakeableUpTo(states, actions, v, crowds, k);
      }
    }
  }

  // While the semaphore is open over a sleeper, a woken thread can take it.
  lemma BinaryUseProgress(states: seq<Sem>, actions: seq<Action>, v: nat, k: nat)
    requires Run(states, actions, v, 0, false) && k < |states|
    requires states[k].value > 0 && states[k].sleeping != {}
    ensures exists t, s' :: Step(states[k], Resume(t), s') && s'.downs == states[k].downs + 1
  {
    BinaryUseLosesNothing(states, actions, v, k);
    RunAccounted(states, actions, v, 0, false, k);
    CanResume(states[k], v);
  }

  lemma CanResume(s: Sem, v: nat)
    requires Accounted(s, v) && s.value > 0 && s.woken != {}
    ensures exists t, s' :: Step(s, Resume(t), s') && s'.downs == s.downs + 1
  {
    var t :| t in s.woken;
    assert |s.woken| > 0;
    assert Step(s, Resume(t), Retry(s, t));
  }

  // The discipline that keeps every run free of lost wakeups.
  ghost predicate Discipline(limit: nat, crowds: bool) {
    forall states, actions, v, k: nat ::
      Run(states, actions, v, limit, crowds) && k < |states| ==> NoLostWakeup(states[k])
  }

  // fio_sem_up signals only when the value was zero, and a signal may go to a
  // timed waiter that gives up.  So the rule "up only at values up to `limit`,
  // timed waiters in company or not" is safe exactly when limit is zero and
  // timed waiters wait alone.
  lemma SafeExactlyInBinaryUse(limit: nat, crowds: bool)
    ensures Discipline(limit, crowds) <==> limit == 0 && !crowds
  {
    if limit != 0 {
      var states, actions := LostWakeup();
      assert Run(states, actions, 0, limit, crowds);
      assert !NoLostWakeup(states[5]);
    } else if crowds {
      var states, actions := LostToTimeout();
      assert Run(states, actions, 0, limit, crowds);
      assert !NoLostWakeup(states[5]);
    } else {
      forall states, actions, v, k: nat | Run(states, actions, v, limit, crowds) && k < |states|
        ensures NoLostWakeup(states[k])
      {
        BinaryUseLosesNothing(states, actions, v, k);
      }
    }
  }

  // Two sleepers and two ups: the second up finds the value at one and does
  // not signal, so the second sleeper stays asleep over an open semaphore.
  lemma LostWakeup() returns (states: seq<Sem>, actions: seq<Action>)
    ensures Run(states, actions, 0, 1, false) && |states| == 6
    ensures states[5].value == 1 && states[5].sleeping == {2}
    ensures states[5].woken == {} && states[5].expired == {}
  {
    actions := [Down(1, false), Down(2, false), Up({1}), Up({}), Resume(1)];
    states := [
      Sem(0, 0, {}, {}, {}, {}, 0, 0),
      Sem(0, 1, {1}, {}, {}, {}, 0, 0),
      Sem(0, 2, {1, 2}, {}, {}, {}, 0, 0),
      Sem(1, 2, {2}, {1}, {}, {}, 1, 0),
      Sem(2, 2, {2}, {1}, {}, {}, 2, 0),
      Sem(1, 1, {2}, {}, {}, {}, 2, 1)];
    assert Step(states[0], actions[0], states[1]);
    assert Step(states[1], actions[1], states[2]);
    assert Step(states[2], actions[2], states[3]);
    assert Step(states[3], actions[3], states[4]);
    assert Step(states[4], actions[4], states[5]);
  }

  // The one signal goes to a timed waiter that times out nevertheless.
  lemma LostToTimeout() returns (states: seq<Sem>, actions: seq<Action>)
    ensures Run(states, actions, 0, 0, true) && |states| == 6
    ensures states[5].value == 1 && states[5].sleeping == {2}
    ensures states[5].woken == {} && states[5].expired == {}
  {
    actions := [Down(1, true), Down(2, false), Up({1}), Expire(1), GiveUp(1, true)];
    states := [
      Sem(0, 0, {}, {}, {}, {}, 0, 0),
      Sem(0, 1, {1}, {}, {}, {1}, 0, 0),
      Sem(0, 2, {1, 2}, {}, {}, {1}, 0, 0),
      Sem(1, 2, {2}, {1}, {}, {1}, 1, 0),
      Sem(1, 2, {2}, {}, {1}, {1}, 1, 0),
      Sem(1, 1, {2}, {}, {}, {1}, 1, 0)];
    assert Step(states[0], actions[0], states[1]);
    assert Step(states[1], actions[1], states[2]);
    assert Step(states[2], actions[2], states[3]);
    assert Step(states[3], actions[3], states[4]);
    assert Step(states[4], actions[4], states[5]);
  }
}
