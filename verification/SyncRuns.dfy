/** Laws of whole runs for the reentrant mutex and the counting semaphore. */
module SyncRuns {
  import opened Sched
  import opened SchedInvariant

  // ---- the mutex ledger ----

  /** Lock calls issued minus unlock calls made by `t` on mutex `m` along a run. */
  ghost function NetLocks(s: State, es: seq<Event>, m: nat, t: Tid): int
    requires Legal(s, es)
    decreases |es|
  {
    if es == [] then 0
    else (if s.curr != t then 0
          else if es[0] == Lock(m) then 1
          else if es[0] == Unlock(m) then -1
          else 0)
         + NetLocks(Step(s, es[0]), es[1..], m, t)
  }

  /** 1 while `t` is inside a lock call that has not returned yet. */
  function Pending(x: Mutex, t: Tid): int {
    if t in x.wait then 1 else 0
  }

  function Held(x: Mutex, t: Tid): int {
    if x.owner == t then x.depth else 0
  }

  /** Touching another mutex, any semaphore or the scheduler leaves mutex `m` alone. */
  lemma OtherStepsKeepMutex(s: State, e: Event, m: nat)
    requires Enabled(s, e) && m < |s.mutexes| && e != Lock(m) && e != Unlock(m)
    ensures m < |Step(s, e).mutexes| && Step(s, e).mutexes[m] == s.mutexes[m]
  {
  }

  lemma OtherStepsKeepSem(s: State, e: Event, i: nat)
    requires Enabled(s, e) && i < |s.sems| && e != Wait(i) && e != Notify(i)
    ensures i < |Step(s, e).sems| && Step(s, e).sems[i] == s.sems[i]
  {
  }

  lemma WaitersOnce(s: State, m: nat)
    requires Inv(s) && m < |s.mutexes| && s.mutexes[m].wait != []
    ensures s.mutexes[m].wait[0] !in s.mutexes[m].wait[1..]
  {
    var w := s.mutexes[m].wait;
    WaiterOnly(s, m, w[0]);
    assert w == [w[0]] + w[1..];
    assert multiset(w[1..])[w[0]] == 0;
  }

  lemma LockLedger(s: State, m: nat, t: Tid)
    requires m < |s.mutexes| && t != NULL && s.curr !in s.mutexes[m].wait
    requires s.mutexes[m].depth == 0 ==> s.mutexes[m].owner == NULL
    ensures var x, x' := s.mutexes[m], DoLock(s, m).mutexes[m];
            Held(x', t) + Pending(x', t) == Held(x, t) + Pending(x, t) + if t == s.curr then 1 else 0
  {
    var w := s.mutexes[m].wait;
    assert forall u :: u in w + [s.curr] <==> u in w || u == s.curr;
  }

  lemma UnlockLedger(s: State, m: nat, t: Tid)
    requires m < |s.mutexes| && t != NULL && s.mutexes[m].owner == s.curr && s.curr !in s.mutexes[m].wait
    requires s.mutexes[m].wait != [] ==> s.mutexes[m].wait[0] !in s.mutexes[m].wait[1..]
    ensures var x, x' := s.mutexes[m], DoUnlock(s, m).mutexes[m];
            Held(x', t) + Pending(x', t) == Held(x, t) + Pending(x, t) - if t == s.curr then 1 else 0
  {
    var w := s.mutexes[m].wait;
    if w != [] {
      assert forall u :: u in w <==> u == w[0] || u in w[1..];
    }
  }

  lemma LedgerStep(s: State, e: Event, m: nat, t: Tid)
    requires Inv(s) && Enabled(s, e) && m < |s.mutexes| && t != NULL
    ensures m < |Step(s, e).mutexes|
    ensures var x, x' := s.mutexes[m], Step(s, e).mutexes[m];
            Held(x', t) + Pending(x', t) == Held(x, t) + Pending(x, t) + NetLocks(s, [e], m, t)
  {
    assert [e][1..] == [];
    if e == Lock(m) {
      CurrentNotWaiting(s, m);
      LockLedger(s, m, t);
    } else if e == Unlock(m) {
      CurrentNotWaiting(s, m);
      if s.mutexes[m].wait != [] { WaitersOnce(s, m); }
      UnlockLedger(s, m, t);
    } else {
      OtherStepsKeepMutex(s, e, m);
    }
  }

  lemma {:induction false} LedgerRun(s: State, es: seq<Event>, m: nat, t: Tid)
    requires Inv(s) && Legal(s, es) && m < |s.mutexes| && t != NULL
    ensures m < |Run(s, es).mutexes|
    ensures var x, x' := s.mutexes[m], Run(s, es).mutexes[m];
            Held(x', t) + Pending(x', t) == Held(x, t) + Pending(x, t) + NetLocks(s, es, m, t)
    decreases |es|
  {
    if es != [] {
      StepKeeps(s, es[0]);
      LedgerStep(s, es[0], m, t);
      assert [es[0]][1..] == [];
      LedgerRun(Step(s, es[0]), es[1..], m, t);
    }
  }

  /** Mutual exclusion in counts: on every run from the start, a task's completed lock calls exceed its unlock
      calls by the depth of the mutex when it is the owner, and by nothing when it is not. */
  lemma MutualExclusion(s0: State, es: seq<Event>, m: nat, t: Tid)
    requires Initial(s0) && Legal(s0, es) && m < |s0.mutexes| && t != NULL
    ensures m < |Run(s0, es).mutexes|
    ensures var x := Run(s0, es).mutexes[m];
            NetLocks(s0, es, m, t) - Pending(x, t) == if x.owner == t then x.depth else 0
    ensures var x := Run(s0, es).mutexes[m];
            (x.owner == t ==> x.depth >= 1 && t !in x.wait) && (x.wait != [] ==> x.depth >= 1 && x.owner != NULL)
  {
    InitialInv(s0);
    LedgerRun(s0, es, m, t);
    RunKeeps(s0, es);
  }

  /** The same for a mutex made in the course of the run. */
  lemma FreshMutualExclusion(s: State, es: seq<Event>, t: Tid)
    requires Inv(s) && Enabled(s, NewMutex) && Legal(Step(s, NewMutex), es) && t != NULL
    ensures var s1, m := Step(s, NewMutex), |s.mutexes|;
            && m < |Run(s1, es).mutexes|
            && var x := Run(s1, es).mutexes[m];
               && NetLocks(s1, es, m, t) - Pending(x, t) == (if x.owner == t then x.depth else 0)
               && (x.owner == t ==> x.depth >= 1 && t !in x.wait)
               && (x.wait != [] ==> x.depth >= 1 && x.owner != NULL)
  {
    var s1, m := Step(s, NewMutex), |s.mutexes|;
    StepKeeps(s, NewMutex);
    LedgerRun(s1, es, m, t);
    RunKeeps(s1, es);
    assert MutexOk(Run(s1, es), Run(s1, es).mutexes[m]);
  }

  /** Before the first task exists the running task is `NULL`: a lock and its unlock still leave a free mutex as it
      was. */
  lemma BootLockUnlock(s: State, m: nat)
    requires s.curr == NULL && m < |s.mutexes| && s.mutexes[m] == Mutex(NULL, 0, [])
    ensures DoLock(s, m).mutexes[m].owner == s.curr && DoLock(s, m).mutexes[m].depth != 0
    ensures DoUnlock(DoLock(s, m), m) == s
  {
    assert DoUnlock(DoLock(s, m), m).mutexes == s.mutexes;
  }

  // ---- mutex hand-off ----

  /** The unlocks along a run that give mutex `m` up: those made at depth 1. */
  ghost function FullReleases(s: State, es: seq<Event>, m: nat): nat
    requires Legal(s, es)
    decreases |es|
  {
    if es == [] then 0
    else (if es[0] == Unlock(m) && s.mutexes[m].depth == 1 then 1 else 0)
         + FullReleases(Step(s, es[0]), es[1..], m)
  }

  lemma HandOffStep(s: State, e: Event, m: nat)
    requires Enabled(s, e) && m < |s.mutexes| && s.mutexes[m].depth >= 1
    ensures m < |Step(s, e).mutexes|
    ensures var x, x' := s.mutexes[m], Step(s, e).mutexes[m];
            if e == Unlock(m) && x.depth == 1 then
              x.wait != [] ==> x' == Mutex(x.wait[0], 1, x.wait[1..])
            else
              x'.owner == x.owner && x'.depth >= 1 && x.wait <= x'.wait
  {
    if e != Lock(m) && e != Unlock(m) {
      OtherStepsKeepMutex(s, e, m);
    }
  }

  lemma PrefixDrop(w: seq<Tid>, w1: seq<Tid>, r: nat, v: seq<Tid>)
    requires w <= w1 && r <= |w| && w1[r..] <= v
    ensures w[r..] <= v
  {
    assert w[r..] <= w1[r..];
  }

  /** Ownership passes down the wait list of the moment, one waiter for each full release, whatever else happens:
      after `r` of them the `r`-th waiter owns the mutex and the others still stand in front of every later locker. */
  lemma {:induction false} HandOffOrder(s: State, es: seq<Event>, m: nat)
    requires Legal(s, es) && m < |s.mutexes| && s.mutexes[m].depth >= 1
    requires FullReleases(s, es, m) <= |s.mutexes[m].wait|
    ensures m < |Run(s, es).mutexes|
    ensures var r, w, x' := FullReleases(s, es, m), s.mutexes[m].wait, Run(s, es).mutexes[m];
            && w[r..] <= x'.wait
            && x'.owner == (if r == 0 then s.mutexes[m].owner else w[r - 1])
            && x'.depth >= 1
    decreases |es|
  {
    if es != [] {
      var w, s1 := s.mutexes[m].wait, Step(s, es[0]);
      HandOffStep(s, es[0], m);
      HandOffOrder(s1, es[1..], m);
      var r1, w1 := FullReleases(s1, es[1..], m), s1.mutexes[m].wait;
      if es[0] == Unlock(m) && s.mutexes[m].depth == 1 {
        assert w1[r1..] == w[r1 + 1..];
      } else {
        PrefixDrop(w, w1, r1, Run(s, es).mutexes[m].wait);
      }
    }
  }

  /** The waiter at position `k` is still queued, `k - r` places from the front, after `r <= k` full releases. */
  lemma WaiterKeepsPlace(s: State, es: seq<Event>, m: nat, k: nat)
    requires Legal(s, es) && m < |s.mutexes| && k < |s.mutexes[m].wait| && s.mutexes[m].depth >= 1
    requires FullReleases(s, es, m) <= k
    ensures m < |Run(s, es).mutexes| && k - FullReleases(s, es, m) < |Run(s, es).mutexes[m].wait|
    ensures Run(s, es).mutexes[m].wait[k - FullReleases(s, es, m)] == s.mutexes[m].wait[k]
  {
    HandOffOrder(s, es, m);
    var r, w := FullReleases(s, es, m), s.mutexes[m].wait;
    assert w[r..][k - r] == w[k];
  }

  lemma WaitedForIsHeld(s: State, m: nat)
    requires Inv(s) && m < |s.mutexes| && s.mutexes[m].wait != []
    ensures s.mutexes[m].depth >= 1
  {
  }

  lemma ReleaseHandsOff(s: State, m: nat)
    requires Inv(s) && Enabled(s, Unlock(m)) && s.mutexes[m].depth == 1 && s.mutexes[m].wait != []
    ensures var s', t := Step(s, Unlock(m)), s.mutexes[m].wait[0];
            s'.mutexes[m].owner == t && s'.mutexes[m].depth == 1 && t !in s'.mutexes[m].wait && t in s'.ready
  {
    WaitersOnce(s, m);
  }

  /** The waiter at position `k` owns the mutex at depth 1, ready to run and out of the queue, after exactly `k + 1`
      full releases: no earlier, and whatever else the run does in between. */
  lemma WaiterGetsLock(s: State, es: seq<Event>, m: nat, k: nat)
    requires Inv(s) && Legal(s, es) && m < |s.mutexes| && k < |s.mutexes[m].wait|
    requires FullReleases(s, es, m) == k && Enabled(Run(s, es), Unlock(m)) && Run(s, es).mutexes[m].depth == 1
    ensures var s', t := Step(Run(s, es), Unlock(m)), s.mutexes[m].wait[k];
            s'.mutexes[m].owner == t && s'.mutexes[m].depth == 1 && t !in s'.mutexes[m].wait && t in s'.ready
  {
    hide Inv;
    WaitedForIsHeld(s, m);
    WaiterKeepsPlace(s, es, m, k);
    RunKeeps(s, es);
    ReleaseHandsOff(Run(s, es), m);
  }

  // ---- semaphores ----

  ghost function Notifies(s: State, es: seq<Event>, i: nat): nat
    requires Legal(s, es)
    decreases |es|
  {
    if es == [] then 0 else (if es[0] == Notify(i) then 1 else 0) + Notifies(Step(s, es[0]), es[1..], i)
  }

  ghost function Waits(s: State, es: seq<Event>, i: nat): nat
    requires Legal(s, es)
    decreases |es|
  {
    if es == [] then 0 else (if es[0] == Wait(i) then 1 else 0) + Waits(Step(s, es[0]), es[1..], i)
  }

  lemma SemStep(s: State, e: Event, i: nat)
    requires Enabled(s, e) && i < |s.sems|
    ensures i < |Step(s, e).sems|
    ensures var x, x' := s.sems[i], Step(s, e).sems[i];
            x'.count - |x'.wait| == x.count - |x.wait| + if e == Notify(i) then 1 else if e == Wait(i) then -1 else 0
  {
    if e != Wait(i) && e != Notify(i) {
      OtherStepsKeepSem(s, e, i);
    }
  }

  /** Conservation: the count less the waiters grows by one for each notify and falls by one for each wait. */
  lemma {:induction false} SemConserved(s: State, es: seq<Event>, i: nat)
    requires Legal(s, es) && i < |s.sems|
    ensures i < |Run(s, es).sems|
    ensures var x, x' := s.sems[i], Run(s, es).sems[i];
            x'.count - |x'.wait| == x.count - |x.wait| + Notifies(s, es, i) - Waits(s, es, i)
    decreases |es|
  {
    if es != [] {
      SemStep(s, es[0], i);
      SemConserved(Step(s, es[0]), es[1..], i);
    }
  }

  /** A semaphore created with `n`: its count less its waiters is `n` plus notifies minus waits on every run. */
  lemma FreshSemConserved(s: State, n: int, es: seq<Event>)
    requires Inv(s) && Enabled(s, NewSem(n)) && Legal(Step(s, NewSem(n)), es)
    ensures var s1, i := Step(s, NewSem(n)), |s.sems|;
            && i < |Run(s1, es).sems|
            && Run(s1, es).sems[i].count - |Run(s1, es).sems[i].wait| == n + Notifies(s1, es, i) - Waits(s1, es, i)
            && (Run(s1, es).sems[i].count > 0 ==> Run(s1, es).sems[i].wait == [])
  {
    SemConserved(Step(s, NewSem(n)), es, |s.sems|);
    StepKeeps(s, NewSem(n));
    RunKeeps(Step(s, NewSem(n)), es);
  }

  /** The task that one event, a wait call on semaphore `i`, takes off the CPU. */
  ghost function BlockedBy(s: State, e: Event, i: nat): seq<Tid>
    requires Enabled(s, e)
  {
    if e == Wait(i) && s.curr !in Step(s, e).ready then [s.curr] else []
  }

  /** The tasks that one event, a notify on semaphore `i`, adds to the ready list. */
  ghost function ReleasedBy(s: State, e: Event, i: nat): seq<Tid>
    requires Enabled(s, e)
  {
    if e == Notify(i) && |Step(s, e).ready| > |s.ready| then Step(s, e).ready[|s.ready|..] else []
  }

  /** The tasks that wait calls on semaphore `i` took off the CPU, in order of time. */
  ghost function Blocked(s: State, es: seq<Event>, i: nat): seq<Tid>
    requires Legal(s, es)
    decreases |es|
  {
    if es == [] then [] else BlockedBy(s, es[0], i) + Blocked(Step(s, es[0]), es[1..], i)
  }

  /** The tasks that notifies on semaphore `i` added to the ready list, in order of time. */
  ghost function Released(s: State, es: seq<Event>, i: nat): seq<Tid>
    requires Legal(s, es)
    decreases |es|
  {
    if es == [] then [] else ReleasedBy(s, es[0], i) + Released(Step(s, es[0]), es[1..], i)
  }

  ghost predicate FindsWaiter(s: State, e: Event, i: nat) {
    e == Notify(i) && i < |s.sems| && s.sems[i].wait != []
  }

  ghost function NotifiesWithWaiter(s: State, es: seq<Event>, i: nat): nat
    requires Legal(s, es)
    decreases |es|
  {
    if es == [] then 0
    else (if FindsWaiter(s, es[0], i) then 1 else 0) + NotifiesWithWaiter(Step(s, es[0]), es[1..], i)
  }

  lemma WaitBlocks(s: State, i: nat)
    requires Inv(s) && s.curr != IDLE && i < |s.sems|
    ensures s.curr in s.ready && (s.sems[i].count <= 0 ==> s.curr !in DoWait(s, i).ready)
  {
    BlockFloats(s);
    ReadyOnly(s, s.curr);
    assert s.ready == [s.curr] + s.ready[1..];
    assert multiset(s.ready[1..])[s.curr] == 0;
  }

  lemma DispatchKeepsSems(s: State)
    ensures Dispatch(s).sems == s.sems && Dispatch(s).ready == s.ready
  {
  }

  lemma SemFifoStep(s: State, e: Event, i: nat)
    requires Inv(s) && Enabled(s, e) && i < |s.sems|
    ensures i < |Step(s, e).sems|
    ensures s.sems[i].wait + BlockedBy(s, e, i) == ReleasedBy(s, e, i) + Step(s, e).sems[i].wait
    ensures |ReleasedBy(s, e, i)| == if FindsWaiter(s, e, i) then 1 else 0
  {
    hide Inv, Dispatch;
    if e == Wait(i) {
      WaitBlocks(s, i);
      DispatchKeepsSems(SetSem(SetBlock(s, s.curr), i, s.sems[i].(wait := s.sems[i].wait + [s.curr])));
    } else if e == Notify(i) {
      NotifyReleases(s, i);
      NotifyKeepsCount(s, i);
    } else {
      OtherStepsKeepSem(s, e, i);
    }
  }

  lemma NotifyKeepsCount(s: State, i: nat)
    requires i < |s.sems|
    ensures |DoNotify(s, i).sems| == |s.sems|
  {
  }

  lemma NotifyReleases(s: State, i: nat)
    requires i < |s.sems|
    ensures var w, s' := s.sems[i].wait, DoNotify(s, i);
            if w == [] then s'.ready == s.ready && s'.sems[i].wait == []
            else |s'.ready| == |s.ready| + 1 && s'.ready[|s.ready|..] == w[..1] && w == w[..1] + s'.sems[i].wait
  {
  }

  lemma Splice(w0: seq<Tid>, b0: seq<Tid>, r0: seq<Tid>, w1: seq<Tid>, b1: seq<Tid>, r1: seq<Tid>, w2: seq<Tid>)
    requires w0 + b0 == r0 + w1 && w1 + b1 == r1 + w2
    ensures w0 + (b0 + b1) == (r0 + r1) + w2
  {
    assert w0 + (b0 + b1) == (w0 + b0) + b1 == r0 + (w1 + b1);
  }

  /** First blocked, first released: those waiting at the start and those blocked since are released in that order,
      one by each notify that finds a waiter, and the rest is the present wait list. */
  lemma {:induction false} SemFifo(s: State, es: seq<Event>, i: nat)
    requires Inv(s) && Legal(s, es) && i < |s.sems|
    ensures i < |Run(s, es).sems|
    ensures s.sems[i].wait + Blocked(s, es, i) == Released(s, es, i) + Run(s, es).sems[i].wait
    ensures |Released(s, es, i)| == NotifiesWithWaiter(s, es, i)
    decreases |es|
  {
    if es != [] {
      var e, s1, fs := es[0], Step(s, es[0]), es[1..];
      hide Inv;
      StepKeeps(s, e);
      SemFifoStep(s, e, i);
      SemFifo(s1, fs, i);
      Splice(s.sems[i].wait, BlockedBy(s, e, i), ReleasedBy(s, e, i), s1.sems[i].wait,
             Blocked(s1, fs, i), Released(s1, fs, i), Run(s1, fs).sems[i].wait);
    }
  }

  /** The `k`-th task to block on a new semaphore is the one that the `k`-th notify finding a waiter releases. */
  lemma SemOrder(s: State, n: int, es: seq<Event>, k: nat)
    requires Inv(s) && Enabled(s, NewSem(n)) && Legal(Step(s, NewSem(n)), es)
    requires k < NotifiesWithWaiter(Step(s, NewSem(n)), es, |s.sems|)
    ensures var s1, i := Step(s, NewSem(n)), |s.sems|;
            && k < |Blocked(s1, es, i)| && k < |Released(s1, es, i)|
            && Blocked(s1, es, i)[k] == Released(s1, es, i)[k]
  {
    var s1, i := Step(s, NewSem(n)), |s.sems|;
    StepKeeps(s, NewSem(n));
    SemFifo(s1, es, i);
    assert [] + Blocked(s1, es, i) == Blocked(s1, es, i);
  }
}
