/** Every operation and every tick keeps the global scheduler invariant. */
module SchedInvariant {
  import opened Seqs
  import opened Sched

  // ---- waiter sums ----

  lemma {:induction false} MutexWaitsUpdate(ms: seq<Mutex>, m: nat, x: Mutex, t: Tid)
    requires m < |ms|
    ensures MutexWaits(ms[m := x], t) == MutexWaits(ms, t) - multiset(ms[m].wait)[t] + multiset(x.wait)[t]
    ensures multiset(ms[m].wait)[t] <= MutexWaits(ms, t)
    decreases |ms|
  {
    var k := |ms| - 1;
    if m == k {
      assert ms[m := x][..k] == ms[..k];
    } else {
      assert ms[m := x][..k] == ms[..k][m := x];
      MutexWaitsUpdate(ms[..k], m, x, t);
    }
  }

  lemma {:induction false} SemWaitsUpdate(ss: seq<Sem>, i: nat, x: Sem, t: Tid)
    requires i < |ss|
    ensures SemWaits(ss[i := x], t) == SemWaits(ss, t) - multiset(ss[i].wait)[t] + multiset(x.wait)[t]
    ensures multiset(ss[i].wait)[t] <= SemWaits(ss, t)
    decreases |ss|
  {
    var k := |ss| - 1;
    if i == k {
      assert ss[i := x][..k] == ss[..k];
    } else {
      assert ss[i := x][..k] == ss[..k][i := x];
      SemWaitsUpdate(ss[..k], i, x, t);
    }
  }

  lemma {:induction false} MutexWaitsNone(ms: seq<Mutex>, t: Tid)
    requires forall m :: 0 <= m < |ms| ==> ms[m].wait == []
    ensures MutexWaits(ms, t) == 0
  {
    if ms != [] {
      MutexWaitsNone(ms[..|ms| - 1], t);
    }
  }

  lemma {:induction false} SemWaitsNone(ss: seq<Sem>, t: Tid)
    requires forall i :: 0 <= i < |ss| ==> ss[i].wait == []
    ensures SemWaits(ss, t) == 0
  {
    if ss != [] {
      SemWaitsNone(ss[..|ss| - 1], t);
    }
  }

  // ---- where a task is ----

  /** The invariant without its clause about the running task: what holds just before a dispatch. */
  ghost predicate Resting(s: State) {
    && TasksOk(s)
    && Conserved(s)
    && (forall t :: t in s.tcb ==> TcbOk(s, t))
    && LocksOk(s)
  }

  lemma ReadyOnly(s: State, t: Tid)
    requires TasksOk(s) && Conserved(s) && t in s.ready
    ensures t in s.tasks && t in s.tcb && t !in s.sleep && multiset(s.ready)[t] == 1
  {
    assert multiset(s.ready)[t] >= 1;
    assert Places(s, t) == 1;
  }

  lemma QueuesDistinct(s: State)
    requires TasksOk(s) && Conserved(s)
    ensures Distinct(s.ready) && Distinct(s.sleep)
    ensures forall t :: t in s.ready ==> t !in s.sleep
  {
    forall t: Tid
      ensures multiset(s.ready)[t] + multiset(s.sleep)[t] <= 1
    {
      assert Places(s, t) <= 1;
    }
    CountDistinct(s.ready);
    CountDistinct(s.sleep);
  }

  // ---- one task in transit ----

  /** `Resting`, except that the registered task `t` is in no queue at all. */
  ghost predicate Floating(s: State, t: Tid) {
    && TasksOk(s)
    && t in s.tasks
    && (forall u: Tid :: Places(s, u) == if u in s.tasks && u != t then 1 else 0)
    && (forall u :: u in s.tcb ==> TcbOk(s, u))
    && LocksOk(s)
  }

  lemma BlockFloats(s: State)
    requires Inv(s) && s.curr != IDLE
    ensures s.ready != [] && s.curr == s.ready[0] && Remove(s.ready, s.curr) == s.ready[1..]
    ensures Floating(SetBlock(s, s.curr), s.curr)
  {
    var s1 := SetBlock(s, s.curr);
    assert s.ready == [s.curr] + s1.ready;
    forall u: Tid
      ensures Places(s1, u) == if u in s.tasks && u != s.curr then 1 else 0
    {
      assert Places(s, u) == Places(s1, u) + if u == s.curr then 1 else 0;
    }
    ReadyOnly(s, s.curr);
  }

  lemma ReadyLands(s: State, t: Tid)
    requires Floating(s, t)
    ensures Resting(SetReady(s, t))
  {
    var s1 := SetReady(s, t);
    forall u: Tid
      ensures Places(s1, u) == if u in s.tasks then 1 else 0
    {
      assert Places(s1, u) == Places(s, u) + if u == t then 1 else 0;
    }
    assert Places(s, t) == 0;
  }

  /** A task in transit arrives: it gains its one place, and the rest is shown separately. */
  lemma Lands(s: State, s1: State, t: Tid)
    requires Floating(s, t) && s1.tasks == s.tasks && s1.tcb.Keys == s.tcb.Keys
    requires forall u: Tid :: Places(s1, u) == Places(s, u) + if u == t then 1 else 0
    requires (forall u :: u in s1.tcb ==> TcbOk(s1, u)) && LocksOk(s1)
    ensures Resting(s1)
  {
    hide Places, TcbOk, LocksOk;
    forall u: Tid
      ensures Places(s1, u) == if u in s.tasks then 1 else 0
    {
      assert Places(s, u) == if u in s.tasks && u != t then 1 else 0;
    }
  }

  lemma SleepLands(s: State, t: Tid, ticks: nat)
    requires Floating(s, t) && 1 <= ticks <= INT32_MAX
    ensures Resting(SetSleep(s, t, ticks))
  {
    hide Places;
    var s1 := SetSleep(s, t, ticks);
    assert forall u :: u in s1.sleep <==> u in s.sleep || u == t;
    forall u | u in s1.tcb
      ensures TcbOk(s1, u)
    {
      assert TcbOk(s, u);
    }
    forall u: Tid
      ensures Places(s1, u) == Places(s, u) + if u == t then 1 else 0
    {
      SleepPlaces(s, t, ticks, u);
    }
    Lands(s, s1, t);
  }

  lemma SleepPlaces(s: State, t: Tid, ticks: nat, u: Tid)
    requires t in s.tcb && ticks > 0
    ensures Places(SetSleep(s, t, ticks), u) == Places(s, u) + if u == t then 1 else 0
  {
  }

  lemma MutexLands(s: State, t: Tid, m: nat)
    requires Floating(s, t) && m < |s.mutexes|
    requires s.mutexes[m].depth != 0 && s.mutexes[m].owner != t
    ensures Resting(SetMutex(s, m, s.mutexes[m].(wait := s.mutexes[m].wait + [t])))
  {
    hide Places, TcbOk;
    var x' := s.mutexes[m].(wait := s.mutexes[m].wait + [t]);
    var s1 := SetMutex(s, m, x');
    forall u: Tid
      ensures Places(s1, u) == Places(s, u) + if u == t then 1 else 0
    {
      MutexPlaces(s, m, x', u);
    }
    TcbsAlike(s, s1);
    assert MutexOk(s, s.mutexes[m]);
    Lands(s, s1, t);
  }

  lemma MutexPlaces(s: State, m: nat, x: Mutex, u: Tid)
    requires m < |s.mutexes|
    ensures Places(SetMutex(s, m, x), u)
            == Places(s, u) - multiset(s.mutexes[m].wait)[u] + multiset(x.wait)[u]
  {
    MutexWaitsUpdate(s.mutexes, m, x, u);
  }

  lemma TcbsAlike(s: State, s1: State)
    requires s1.tcb == s.tcb && s1.sleep == s.sleep && forall u :: u in s.tcb ==> TcbOk(s, u)
    ensures forall u :: u in s1.tcb ==> TcbOk(s1, u)
  {
    forall u | u in s1.tcb
      ensures TcbOk(s1, u)
    {
      assert TcbOk(s, u);
    }
  }

  lemma SemLands(s: State, t: Tid, i: nat)
    requires Floating(s, t) && i < |s.sems| && s.sems[i].count <= 0
    ensures Resting(SetSem(s, i, s.sems[i].(wait := s.sems[i].wait + [t])))
  {
    hide Places, TcbOk, MutexOk;
    var x' := s.sems[i].(wait := s.sems[i].wait + [t]);
    var s1 := SetSem(s, i, x');
    forall u: Tid
      ensures Places(s1, u) == Places(s, u) + if u == t then 1 else 0
    {
      SemPlaces(s, i, x', u);
    }
    TcbsAlike(s, s1);
    SemOnly(s, i, x');
    Lands(s, s1, t);
  }

  lemma SemPlaces(s: State, i: nat, x: Sem, u: Tid)
    requires i < |s.sems|
    ensures Places(SetSem(s, i, x), u) == Places(s, u) - multiset(s.sems[i].wait)[u] + multiset(x.wait)[u]
  {
    SemWaitsUpdate(s.sems, i, x, u);
  }

  lemma SemOnly(s: State, i: nat, x: Sem)
    requires LocksOk(s) && i < |s.sems| && SemOk(x)
    ensures LocksOk(SetSem(s, i, x))
  {
    forall m | 0 <= m < |s.mutexes|
      ensures MutexOk(SetSem(s, i, x), s.mutexes[m])
    {
      assert MutexOk(s, s.mutexes[m]);
    }
  }

  /** A task in a wait list is registered, stands there once, and is nowhere else. */
  lemma WaiterOnly(s: State, m: nat, t: Tid)
    requires TasksOk(s) && Conserved(s)
    ensures m < |s.mutexes| && t in s.mutexes[m].wait ==>
              t in s.tasks && t !in s.ready && t !in s.sleep && multiset(s.mutexes[m].wait)[t] == 1
    ensures m < |s.sems| && t in s.sems[m].wait ==>
              t in s.tasks && t !in s.ready && t !in s.sleep && multiset(s.sems[m].wait)[t] == 1
  {
    assert Places(s, t) <= 1;
    if m < |s.mutexes| && t in s.mutexes[m].wait {
      MutexWaitsUpdate(s.mutexes, m, s.mutexes[m], t);
      assert multiset(s.mutexes[m].wait)[t] >= 1;
    }
    if m < |s.sems| && t in s.sems[m].wait {
      SemWaitsUpdate(s.sems, m, s.sems[m], t);
      assert multiset(s.sems[m].wait)[t] >= 1;
    }
  }

  /** The running task is registered and in no wait list. */
  lemma CurrentNotWaiting(s: State, m: nat)
    requires Inv(s) && s.curr != IDLE
    ensures s.curr in s.tasks && s.curr != NULL
    ensures m < |s.mutexes| ==> s.curr !in s.mutexes[m].wait
    ensures m < |s.sems| ==> s.curr !in s.sems[m].wait
  {
    ReadyOnly(s, s.curr);
    WaiterOnly(s, m, s.curr);
  }

  lemma TakenOut(s: State, s1: State, t: Tid)
    requires Resting(s) && t in s.tasks && LocksOk(s1)
    requires s1.tasks == s.tasks && s1.tcb == s.tcb && s1.sleep == s.sleep
    requires forall u: Tid :: Places(s, u) == Places(s1, u) + if u == t then 1 else 0
    ensures Floating(s1, t)
  {
    forall u: Tid
      ensures Places(s1, u) == if u in s.tasks && u != t then 1 else 0
    {
      assert Places(s, u) == if u in s.tasks then 1 else 0;
    }
    forall u | u in s1.tcb
      ensures TcbOk(s1, u)
    {
      assert TcbOk(s, u);
    }
  }

  lemma MutexPopFloats(s: State, m: nat)
    requires Resting(s) && m < |s.mutexes| && s.mutexes[m].wait != []
    ensures Floating(SetMutex(s, m, Mutex(s.mutexes[m].wait[0], 1, s.mutexes[m].wait[1..])), s.mutexes[m].wait[0])
  {
    var x := s.mutexes[m];
    var t := x.wait[0];
    var x' := Mutex(t, 1, x.wait[1..]);
    var s1 := SetMutex(s, m, x');
    assert x.wait == [t] + x'.wait;
    WaiterOnly(s, m, t);
    forall u: Tid
      ensures Places(s, u) == Places(s1, u) + if u == t then 1 else 0
    {
      MutexWaitsUpdate(s.mutexes, m, x', u);
    }
    assert multiset(x'.wait)[t] == 0;
    assert MutexOk(s1, x');
    TakenOut(s, s1, t);
  }

  lemma SemPopFloats(s: State, i: nat)
    requires Resting(s) && i < |s.sems| && s.sems[i].wait != []
    ensures Floating(SetSem(s, i, s.sems[i].(wait := s.sems[i].wait[1..])), s.sems[i].wait[0])
  {
    var x := s.sems[i];
    var t := x.wait[0];
    var x' := x.(wait := x.wait[1..]);
    var s1 := SetSem(s, i, x');
    assert x.wait == [t] + x'.wait;
    WaiterOnly(s, i, t);
    forall u: Tid
      ensures Places(s, u) == Places(s1, u) + if u == t then 1 else 0
    {
      SemWaitsUpdate(s.sems, i, x', u);
    }
    TakenOut(s, s1, t);
  }

  lemma DispatchPlaces(s: State, u: Tid)
    ensures Places(Dispatch(s), u) == Places(s, u)
  {
  }

  lemma DispatchKeeps(s: State)
    requires Resting(s)
    ensures Inv(Dispatch(s))
  {
    hide Places, MutexOk;
    var s1 := Dispatch(s);
    if s.ready != [] {
      ReadyOnly(s, s.ready[0]);
    }
    forall u: Tid
      ensures Places(s1, u) == if u in s.tasks then 1 else 0
    {
      DispatchPlaces(s, u);
    }
    SameLocks(s, s1);
  }

  // ---- preservation, operation by operation ----

  lemma YieldKeeps(s: State)
    requires Inv(s) && s.curr != IDLE
    ensures Inv(DoYield(s))
  {
    if |s.ready| > 1 {
      BlockFloats(s);
      ReadyLands(SetBlock(s, s.curr), s.curr);
      DispatchKeeps(SetReady(SetBlock(s, s.curr), s.curr));
    }
  }

  lemma SleepTicksRange(ms: nat)
    ensures 1 <= SleepTicks(ms) <= INT32_MAX
  {
  }

  lemma SleepKeeps(s: State, ms: nat)
    requires Inv(s) && s.curr != IDLE
    ensures Inv(DoSleep(s, ms))
  {
    BlockFloats(s);
    SleepTicksRange(ms);
    SleepLands(SetBlock(s, s.curr), s.curr, SleepTicks(ms));
    DispatchKeeps(SetSleep(SetBlock(s, s.curr), s.curr, SleepTicks(ms)));
  }

  lemma MutexCountKeeps(s: State, m: nat, x: Mutex)
    requires Inv(s) && m < |s.mutexes| && x.wait == s.mutexes[m].wait && MutexOk(s, x)
    ensures Inv(SetMutex(s, m, x))
  {
    forall u: Tid
      ensures Places(SetMutex(s, m, x), u) == Places(s, u)
    {
      MutexWaitsUpdate(s.mutexes, m, x, u);
    }
  }

  lemma SemCountKeeps(s: State, i: nat, x: Sem)
    requires Inv(s) && i < |s.sems| && x.wait == s.sems[i].wait && SemOk(x)
    ensures Inv(SetSem(s, i, x))
  {
    forall u: Tid
      ensures Places(SetSem(s, i, x), u) == Places(s, u)
    {
      SemWaitsUpdate(s.sems, i, x, u);
    }
  }

  lemma LockBlocksKeeps(s: State, m: nat)
    requires Inv(s) && s.curr != IDLE && m < |s.mutexes|
    requires s.mutexes[m].depth != 0 && s.mutexes[m].owner != s.curr
    ensures Inv(DoLock(s, m))
  {
    BlockFloats(s);
    MutexLands(SetBlock(s, s.curr), s.curr, m);
    var x := s.mutexes[m];
    DispatchKeeps(SetMutex(SetBlock(s, s.curr), m, x.(wait := x.wait + [s.curr])));
  }

  lemma LockKeeps(s: State, m: nat)
    requires Inv(s) && s.curr != IDLE && m < |s.mutexes|
    ensures Inv(DoLock(s, m))
  {
    hide Conserved, TcbOk;
    var x := s.mutexes[m];
    if x.depth == 0 {
      ReadyOnly(s, s.curr);
      MutexCountKeeps(s, m, x.(depth := 1, owner := s.curr));
    } else if x.owner == s.curr {
      MutexCountKeeps(s, m, x.(depth := x.depth + 1));
    } else {
      LockBlocksKeeps(s, m);
    }
  }

  lemma UnlockKeeps(s: State, m: nat)
    requires Inv(s) && Enabled(s, Unlock(m))
    ensures Inv(DoUnlock(s, m))
  {
    var x := s.mutexes[m];
    if x.depth != 1 {
      MutexCountKeeps(s, m, x.(depth := x.depth - 1));
    } else if x.wait == [] {
      MutexCountKeeps(s, m, x.(depth := 0, owner := NULL));
    } else {
      MutexPopFloats(s, m);
      ReadyLands(SetMutex(s, m, Mutex(x.wait[0], 1, x.wait[1..])), x.wait[0]);
    }
  }

  lemma WaitKeeps(s: State, i: nat)
    requires Inv(s) && s.curr != IDLE && i < |s.sems|
    ensures Inv(DoWait(s, i))
  {
    var x := s.sems[i];
    if x.count > 0 {
      SemCountKeeps(s, i, x.(count := x.count - 1));
    } else {
      BlockFloats(s);
      SemLands(SetBlock(s, s.curr), s.curr, i);
      DispatchKeeps(SetSem(SetBlock(s, s.curr), i, x.(wait := x.wait + [s.curr])));
    }
  }

  lemma NotifyKeeps(s: State, i: nat)
    requires Inv(s) && i < |s.sems|
    ensures Inv(DoNotify(s, i))
  {
    var x := s.sems[i];
    if x.wait == [] {
      SemCountKeeps(s, i, x.(count := x.count + 1));
    } else {
      SemPopFloats(s, i);
      ReadyLands(SetSem(s, i, x.(wait := x.wait[1..])), x.wait[0]);
      DispatchKeeps(SetReady(SetSem(s, i, x.(wait := x.wait[1..])), x.wait[0]));
    }
  }

  lemma SpawnPlaces(s: State, t: Tid, u: Tid)
    ensures Places(DoSpawn(s, t), u) == Places(s, u) + if u == t then 1 else 0
  {
  }

  lemma SpawnLocks(s: State, t: Tid)
    requires LocksOk(s)
    ensures LocksOk(DoSpawn(s, t))
  {
    forall m | 0 <= m < |s.mutexes|
      ensures MutexOk(DoSpawn(s, t), s.mutexes[m])
    {
      assert MutexOk(s, s.mutexes[m]);
    }
  }

  lemma SpawnKeeps(s: State, t: Tid)
    requires Inv(s) && Enabled(s, Spawn(t))
    ensures Inv(DoSpawn(s, t))
  {
    hide Places, LocksOk;
    var s1 := DoSpawn(s, t);
    forall u: Tid
      ensures Places(s1, u) == if u in s1.tasks then 1 else 0
    {
      SpawnPlaces(s, t, u);
      assert Places(s, u) == if u in s.tasks then 1 else 0;
    }
    SpawnNotAsleep(s, t);
    SpawnLocks(s, t);
    forall u | u in s1.tcb
      ensures TcbOk(s1, u)
    {
      assert u != t ==> TcbOk(s, u);
    }
  }

  lemma SpawnNotAsleep(s: State, t: Tid)
    requires Conserved(s) && t !in s.tasks
    ensures t !in s.sleep
  {
    assert Places(s, t) == 0;
  }

  lemma NewKeeps(s: State, n: int)
    requires Inv(s)
    ensures Inv(s.(mutexes := s.mutexes + [Mutex(NULL, 0, [])]))
    ensures Inv(s.(sems := s.sems + [Sem(n, [])]))
  {
    var s1 := s.(mutexes := s.mutexes + [Mutex(NULL, 0, [])]);
    assert s1.mutexes[..|s1.mutexes| - 1] == s.mutexes;
    assert forall u: Tid :: Places(s1, u) == Places(s, u);
    var s2 := s.(sems := s.sems + [Sem(n, [])]);
    assert s2.sems[..|s2.sems| - 1] == s.sems;
    assert forall u: Tid :: Places(s2, u) == Places(s, u);
  }

  lemma ChargeSliceRests(s: State)
    requires Inv(s)
    ensures Resting(ChargeSlice(s))
  {
    if s.curr != IDLE {
      ReadyOnly(s, s.curr);
      var x := s.tcb[s.curr];
      if x.slice == 1 {
        var s1 := s.(tcb := s.tcb[s.curr := x.(slice := x.quantum)]);
        BlockFloats(s1);
        ReadyLands(SetBlock(s1, s.curr), s.curr);
      }
    }
  }

  lemma {:induction false} DueLaterMembers(q: seq<Tid>, tcb: map<Tid, Tcb>, t: Tid)
    ensures t in Due(q, tcb) <==> t in q && DueNow(tcb, t)
    ensures t in Later(q, tcb) <==> t in q && !DueNow(tcb, t)
  {
    if q != [] {
      assert q == [q[0]] + q[1..];
      DueLaterMembers(q[1..], tcb, t);
    }
  }

  lemma {:induction false} DueLaterSplit(q: seq<Tid>, tcb: map<Tid, Tcb>)
    ensures multiset(Due(q, tcb)) + multiset(Later(q, tcb)) == multiset(q)
  {
    if q != [] {
      assert q == [q[0]] + q[1..];
      DueLaterSplit(q[1..], tcb);
    }
  }

  lemma WakePlaces(s: State, u: Tid)
    ensures Places(WakeSleepers(s), u) == Places(s, u)
  {
    DueLaterSplit(s.sleep, s.tcb);
    assert (multiset(Due(s.sleep, s.tcb)) + multiset(Later(s.sleep, s.tcb)))[u] == multiset(s.sleep)[u];
  }

  lemma WakeSleepersRests(s: State)
    requires Resting(s)
    ensures Resting(WakeSleepers(s))
  {
    hide Places, MutexOk;
    var s1 := WakeSleepers(s);
    forall u: Tid
      ensures Places(s1, u) == if u in s.tasks then 1 else 0
    {
      WakePlaces(s, u);
    }
    forall t | t in s1.tcb
      ensures TcbOk(s1, t)
    {
      assert TcbOk(s, t);
      DueLaterMembers(s.sleep, s.tcb, t);
    }
    SameLocks(s, s1);
  }

  lemma SameLocks(s: State, s1: State)
    requires LocksOk(s) && s1.mutexes == s.mutexes && s1.sems == s.sems && s1.tasks == s.tasks
    ensures LocksOk(s1)
  {
    forall m | 0 <= m < |s.mutexes|
      ensures MutexOk(s1, s.mutexes[m])
    {
      assert MutexOk(s, s.mutexes[m]);
    }
  }

  lemma TickKeeps(s: State)
    requires Inv(s)
    ensures Inv(DoTick(s))
  {
    ChargeSliceRests(s);
    WakeSleepersRests(ChargeSlice(s));
    DispatchKeeps(WakeSleepers(ChargeSlice(s)));
  }

  // ---- the loop that removes sleepers while walking the sleep list ----

  lemma {:induction false} DueAppend(q: seq<Tid>, t: Tid, tcb: map<Tid, Tcb>)
    ensures Due(q + [t], tcb) == Due(q, tcb) + if DueNow(tcb, t) then [t] else []
  {
    if q != [] {
      assert (q + [t])[1..] == q[1..] + [t];
      DueAppend(q[1..], t, tcb);
    }
  }

  lemma {:induction false} LaterAppend(q: seq<Tid>, t: Tid, tcb: map<Tid, Tcb>)
    ensures Later(q + [t], tcb) == Later(q, tcb) + if DueNow(tcb, t) then [] else [t]
  {
    if q != [] {
      assert (q + [t])[1..] == q[1..] + [t];
      LaterAppend(q[1..], t, tcb);
    }
  }

  /** The state after `k` turns of the loop: the due ones among the first `k` sleepers stand at the end of the ready
      list in sleep order, the others and all later sleepers are still asleep in order. */
  function AfterTurns(s: State, k: nat): State
    requires k <= |s.sleep|
  {
    var q := s.sleep[..k];
    s.(ready := s.ready + Due(q, s.tcb), sleep := Later(q, s.tcb) + s.sleep[k..], tcb := AgeAll(s.tcb, q))
  }

  lemma AgeOneMore(tcb: map<Tid, Tcb>, q: seq<Tid>, t: Tid)
    requires t in tcb && t !in q
    ensures AgeAll(tcb, q + [t]) == AgeAll(tcb, q)[t := Aged(tcb[t])]
    ensures t in AgeAll(tcb, q) && AgeAll(tcb, q)[t] == tcb[t]
  {
  }

  lemma OneTurn(s: State, k: nat)
    requires k < |s.sleep| && Distinct(s.sleep) && forall t :: t in s.sleep ==> t in s.tcb
    ensures WakeOne(AfterTurns(s, k), s.sleep[k]) == AfterTurns(s, k + 1)
  {
    hide AgeAll, Due, Later, Remove;
    var t, q, s1 := s.sleep[k], s.sleep[..k], AfterTurns(s, k);
    assert s.sleep[..k + 1] == q + [t];
    DueAppend(q, t, s.tcb);
    LaterAppend(q, t, s.tcb);
    DueLaterMembers(q, s.tcb, t);
    AgeOneMore(s.tcb, q, t);
    var kept := Later(q, s.tcb);
    assert s1.sleep == kept + [t] + s.sleep[k + 1..];
    DropMiddle(kept, t, s.sleep[k + 1..]);
  }

  lemma DropMiddle(a: seq<Tid>, t: Tid, b: seq<Tid>)
    requires t !in a
    ensures Remove(a + [t] + b, t) == a + b
  {
    var q := a + [t] + b;
    assert q[..|a|] == a && q[|a|] == t && q[|a| + 1..] == b;
    RemoveAt(q, |a|);
  }

  lemma TurnsAtStart(s: State)
    ensures AfterTurns(s, 0) == s
  {
    assert AgeAll(s.tcb, []) == s.tcb;
    assert s.ready + [] == s.ready;
  }

  lemma {:induction false} TurnsSoFar(s: State, k: nat)
    requires k <= |s.sleep| && Distinct(s.sleep) && forall t :: t in s.sleep ==> t in s.tcb
    ensures WakeEach(s, s.sleep[..k]) == AfterTurns(s, k)
  {
    if k == 0 {
      TurnsAtStart(s);
    } else {
      assert s.sleep[..k][..k - 1] == s.sleep[..k - 1];
      TurnsSoFar(s, k - 1);
      OneTurn(s, k - 1);
    }
  }

  /** The loop visits every task asleep at its start once and amounts to one simultaneous countdown: exactly the due
      sleepers leave, in sleep order, and the survivors keep their order. */
  lemma LoopWakesSleepers(s: State)
    requires Distinct(s.sleep) && forall t :: t in s.sleep ==> t in s.tcb
    ensures WakeEach(s, s.sleep) == WakeSleepers(s)
  {
    TurnsSoFar(s, |s.sleep|);
    assert s.sleep[..|s.sleep|] == s.sleep;
    assert Later(s.sleep, s.tcb) + [] == Later(s.sleep, s.tcb);
  }

  /** A survivor of the tick has one tick less to sleep, and at least one. */
  lemma SurvivorsCountDown(s: State, t: Tid)
    requires Resting(s) && t in WakeSleepers(s).sleep
    ensures t in s.sleep && t in s.tcb && WakeSleepers(s).tcb[t].sleepTicks == s.tcb[t].sleepTicks - 1 >= 1
  {
    SleepersKnown(s);
    DueLaterMembers(s.sleep, s.tcb, t);
  }

  lemma SleepersKnown(s: State)
    requires TasksOk(s) && Conserved(s)
    ensures Distinct(s.sleep) && forall t :: t in s.sleep ==> t in s.tcb
  {
    QueuesDistinct(s);
    forall t | t in s.sleep
      ensures t in s.tasks
    {
      assert multiset(s.sleep)[t] >= 1;
      assert Places(s, t) >= 1;
    }
  }

  // ---- every run ----

  /** One step: every enabled operation, and the tick, keeps the invariant. */
  lemma StepKeeps(s: State, e: Event)
    requires Inv(s) && Enabled(s, e)
    ensures Inv(Step(s, e))
  {
    match e
    case Tick => TickKeeps(s);
    case Yield => YieldKeeps(s);
    case Sleep(ms) => SleepKeeps(s, ms);
    case Lock(m) => LockKeeps(s, m);
    case Unlock(m) => UnlockKeeps(s, m);
    case Wait(i) => WaitKeeps(s, i);
    case Notify(i) => NotifyKeeps(s, i);
    case Spawn(t) => SpawnKeeps(s, t);
    case NewMutex => NewKeeps(s, 0);
    case NewSem(n) => NewKeeps(s, n);
  }

  lemma InitialInv(s: State)
    requires Initial(s)
    ensures Inv(s)
  {
    assert s.ready == [s.tasks[0]];
    forall u: Tid
      ensures Places(s, u) == if u in s.tasks then 1 else 0
    {
      MutexWaitsNone(s.mutexes, u);
      SemWaitsNone(s.sems, u);
    }
  }

  lemma {:induction false} RunKeeps(s: State, es: seq<Event>)
    requires Inv(s) && Legal(s, es)
    ensures Inv(Run(s, es))
    decreases |es|
  {
    if es != [] {
      StepKeeps(s, es[0]);
      RunKeeps(Step(s, es[0]), es[1..]);
    }
  }
}
