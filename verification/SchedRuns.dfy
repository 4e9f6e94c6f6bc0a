/** Laws of whole runs: conservation of tasks, bounded waiting, exact sleep, labels. */
module SchedRuns {
  import opened Seqs
  import opened Sched
  import opened SchedInvariant

  // ---- runs ----

  function Ticks(es: seq<Event>): nat {
    if es == [] then 0 else (if es[0].Tick? then 1 else 0) + Ticks(es[1..])
  }

  // ---- no task is lost or duplicated ----

  datatype Place = AtReady | AtSleep | AtMutex(m: nat) | AtSem(i: nat)

  ghost predicate At(s: State, t: Tid, p: Place) {
    match p
    case AtReady => t in s.ready
    case AtSleep => t in s.sleep
    case AtMutex(m) => m < |s.mutexes| && t in s.mutexes[m].wait
    case AtSem(i) => i < |s.sems| && t in s.sems[i].wait
  }

  lemma {:induction false} MutexWaitsFind(ms: seq<Mutex>, t: Tid) returns (m: nat)
    requires MutexWaits(ms, t) > 0
    ensures m < |ms| && t in ms[m].wait
  {
    var k := |ms| - 1;
    if multiset(ms[k].wait)[t] > 0 {
      m := k;
    } else {
      m := MutexWaitsFind(ms[..k], t);
    }
  }

  lemma {:induction false} SemWaitsFind(ss: seq<Sem>, t: Tid) returns (i: nat)
    requires SemWaits(ss, t) > 0
    ensures i < |ss| && t in ss[i].wait
  {
    var k := |ss| - 1;
    if multiset(ss[k].wait)[t] > 0 {
      i := k;
    } else {
      i := SemWaitsFind(ss[..k], t);
    }
  }

  /** A task standing in two different mutex queues would be counted twice. */
  lemma TwoMutexes(ms: seq<Mutex>, a: nat, b: nat, t: Tid)
    requires a < |ms| && b < |ms| && a != b && t in ms[a].wait && t in ms[b].wait
    ensures MutexWaits(ms, t) >= 2
  {
    var ms' := ms[a := ms[a].(wait := [])];
    assert multiset(ms[a].wait)[t] >= 1 && multiset(ms'[b].wait)[t] >= 1;
    MutexWaitsUpdate(ms, a, ms'[a], t);
    MutexWaitsUpdate(ms', b, ms'[b], t);
  }

  lemma TwoSems(ss: seq<Sem>, a: nat, b: nat, t: Tid)
    requires a < |ss| && b < |ss| && a != b && t in ss[a].wait && t in ss[b].wait
    ensures SemWaits(ss, t) >= 2
  {
    var ss' := ss[a := ss[a].(wait := [])];
    assert multiset(ss[a].wait)[t] >= 1 && multiset(ss'[b].wait)[t] >= 1;
    SemWaitsUpdate(ss, a, ss'[a], t);
    SemWaitsUpdate(ss', b, ss'[b], t);
  }

  lemma SomePlace(s: State, t: Tid) returns (p: Place)
    requires Places(s, t) > 0
    ensures At(s, t, p)
  {
    if t in s.ready {
      p := AtReady;
    } else if t in s.sleep {
      p := AtSleep;
    } else if MutexWaits(s.mutexes, t) > 0 {
      var m := MutexWaitsFind(s.mutexes, t);
      p := AtMutex(m);
    } else {
      var i := SemWaitsFind(s.sems, t);
      p := AtSem(i);
    }
  }

  lemma TwoPlaces(s: State, t: Tid, p: Place, q: Place)
    requires At(s, t, p) && At(s, t, q)
    ensures Places(s, t) >= if p == q then 1 else 2
  {
    assert t in s.ready ==> multiset(s.ready)[t] >= 1;
    assert t in s.sleep ==> multiset(s.sleep)[t] >= 1;
    if p.AtMutex? {
      MutexWaitsUpdate(s.mutexes, p.m, s.mutexes[p.m], t);
      assert multiset(s.mutexes[p.m].wait)[t] >= 1;
      if q.AtMutex? && p != q { TwoMutexes(s.mutexes, p.m, q.m, t); }
    }
    if q.AtMutex? {
      MutexWaitsUpdate(s.mutexes, q.m, s.mutexes[q.m], t);
      assert multiset(s.mutexes[q.m].wait)[t] >= 1;
    }
    if p.AtSem? {
      SemWaitsUpdate(s.sems, p.i, s.sems[p.i], t);
      assert multiset(s.sems[p.i].wait)[t] >= 1;
      if q.AtSem? && p != q { TwoSems(s.sems, p.i, q.i, t); }
    }
    if q.AtSem? {
      SemWaitsUpdate(s.sems, q.i, s.sems[q.i], t);
      assert multiset(s.sems[q.i].wait)[t] >= 1;
    }
  }

  /** In every reachable state each registered task is in exactly one queue, and nobody else, idle included, is in
      any. */
  lemma ExactlyOnePlace(s0: State, es: seq<Event>, t: Tid)
    requires Initial(s0) && Legal(s0, es)
    ensures t in Run(s0, es).tasks ==>
              exists p :: At(Run(s0, es), t, p) && forall q :: At(Run(s0, es), t, q) ==> q == p
    ensures t !in Run(s0, es).tasks || t == IDLE ==> forall q :: !At(Run(s0, es), t, q)
  {
    InitialInv(s0);
    RunKeeps(s0, es);
    var s := Run(s0, es);
    assert Places(s, t) == if t in s.tasks then 1 else 0;
    if t in s.tasks {
      var p := SomePlace(s, t);
      forall q | At(s, t, q) ensures q == p { TwoPlaces(s, t, p, q); }
    } else {
      forall q ensures !At(s, t, q) {
        if At(s, t, q) { TwoPlaces(s, t, q, q); }
      }
    }
  }

  function MutexTotal(ms: seq<Mutex>): nat {
    if ms == [] then 0 else MutexTotal(ms[..|ms| - 1]) + |ms[|ms| - 1].wait|
  }

  function SemTotal(ss: seq<Sem>): nat {
    if ss == [] then 0 else SemTotal(ss[..|ss| - 1]) + |ss[|ss| - 1].wait|
  }

  lemma {:induction false} MutexWaitersAsMultiset(ms: seq<Mutex>) returns (w: multiset<Tid>)
    ensures |w| == MutexTotal(ms) && forall t: Tid :: w[t] == MutexWaits(ms, t)
  {
    if ms == [] {
      w := multiset{};
    } else {
      w := MutexWaitersAsMultiset(ms[..|ms| - 1]);
      w := w + multiset(ms[|ms| - 1].wait);
    }
  }

  lemma {:induction false} SemWaitersAsMultiset(ss: seq<Sem>) returns (w: multiset<Tid>)
    ensures |w| == SemTotal(ss) && forall t: Tid :: w[t] == SemWaits(ss, t)
  {
    if ss == [] {
      w := multiset{};
    } else {
      w := SemWaitersAsMultiset(ss[..|ss| - 1]);
      w := w + multiset(ss[|ss| - 1].wait);
    }
  }

  /** The queues hold exactly as many tasks as are registered. */
  lemma QueueLengths(s0: State, es: seq<Event>)
    requires Initial(s0) && Legal(s0, es)
    ensures var s := Run(s0, es);
            |s.ready| + |s.sleep| + MutexTotal(s.mutexes) + SemTotal(s.sems) == |s.tasks|
  {
    InitialInv(s0);
    RunKeeps(s0, es);
    var s := Run(s0, es);
    var mw := MutexWaitersAsMultiset(s.mutexes);
    var sw := SemWaitersAsMultiset(s.sems);
    var all := multiset(s.ready) + multiset(s.sleep) + mw + sw;
    forall t: Tid
      ensures all[t] == multiset(s.tasks)[t]
    {
      assert all[t] == Places(s, t);
      if t in s.tasks { DistinctCount(s.tasks, t); }
    }
    assert all == multiset(s.tasks);
  }

  // ---- bounded waiting ----

  function Slice(tcb: map<Tid, Tcb>, t: Tid): int {
    if t in tcb then tcb[t].slice else 0
  }

  /** The unused slice time of the tasks queued before `t`. */
  function Ahead(q: seq<Tid>, tcb: map<Tid, Tcb>, t: Tid): int {
    if q == [] || q[0] == t then 0 else Slice(tcb, q[0]) + Ahead(q[1..], tcb, t)
  }

  lemma {:induction false} AheadAppend(q: seq<Tid>, r: seq<Tid>, tcb: map<Tid, Tcb>, tcb': map<Tid, Tcb>, t: Tid)
    requires t in q && forall u :: u in q ==> Slice(tcb', u) == Slice(tcb, u)
    ensures Ahead(q + r, tcb', t) == Ahead(q, tcb, t)
  {
    if q[0] != t {
      assert (q + r)[1..] == q[1..] + r;
      AheadAppend(q[1..], r, tcb, tcb', t);
    }
  }

  lemma {:induction false} AheadBounds(q: seq<Tid>, tcb: map<Tid, Tcb>, k: nat)
    requires k < |q| && Distinct(q)
    requires forall u :: u in q ==> 1 <= Slice(tcb, u) <= TIME_SLICE
    ensures k <= Ahead(q, tcb, q[k]) <= TIME_SLICE * k
  {
    if k > 0 {
      AheadBounds(q[1..], tcb, k - 1);
    }
  }

  /** What a step does to the ready list: the tasks behind the head keep their order and their slices, and the
      head either leaves (`left`) or stays with `paid` ticks less; newcomers go to the tail. */
  ghost predicate Advances(s: State, s': State, left: bool, paid: int)
    requires s.ready != []
  {
    && (forall u :: u in s.ready[1..] ==> Slice(s'.tcb, u) == Slice(s.tcb, u))
    && (if left then s.ready[1..] <= s'.ready
        else s.ready <= s'.ready && Slice(s'.tcb, s.ready[0]) == Slice(s.tcb, s.ready[0]) - paid)
  }

  /** The running task is the head of the ready list and stands there once. */
  ghost predicate HeadRuns(s: State) {
    && s.ready != [] && s.curr == s.ready[0] && s.curr != IDLE
    && s.curr in s.tcb && s.curr !in s.sleep
    && s.curr !in s.ready[1..] && Remove(s.ready, s.curr) == s.ready[1..]
  }

  lemma HeadRunning(s: State)
    requires Inv(s) && s.curr != IDLE
    ensures HeadRuns(s)
  {
    BlockFloats(s);
    ReadyOnly(s, s.curr);
    assert s.ready == [s.curr] + s.ready[1..];
    assert multiset(s.ready[1..])[s.curr] == 0;
  }

  lemma DispatchAdvances(s: State, s1: State, left: bool, paid: int)
    requires s.ready != [] && Advances(s, s1, left, paid)
    ensures Advances(s, Dispatch(s1), left, paid)
  {
    forall u ensures Slice(Dispatch(s1).tcb, u) == Slice(s1.tcb, u) {}
  }

  lemma TickAdvances(s: State)
    requires HeadRuns(s)
    ensures Advances(s, DoTick(s), Slice(s.tcb, s.curr) == 1, 1)
  {
    var s1 := ChargeSlice(s);
    var s2 := WakeSleepers(s1);
    var left := Slice(s.tcb, s.curr) == 1;
    assert Advances(s, s1, left, 1);
    forall u ensures Slice(s2.tcb, u) == Slice(s1.tcb, u) {}
    assert s1.ready <= s2.ready;
    DispatchAdvances(s, s2, left, 1);
  }

  lemma BlockingAdvances(s: State, s1: State)
    requires HeadRuns(s) && s1.ready == s.ready[1..]
    requires forall u :: u in s.ready[1..] ==> Slice(s1.tcb, u) == Slice(s.tcb, u)
    ensures Advances(s, Dispatch(s1), true, 0)
  {
    DispatchAdvances(s, s1, true, 0);
  }

  lemma OperationAdvances(s: State, e: Event)
    requires HeadRuns(s) && Enabled(s, e) && !e.Tick?
    requires e.Spawn? ==> e.t !in s.ready
    ensures Advances(s, Step(s, e), true, 0) || Advances(s, Step(s, e), false, 0)
  {
    match e
    case Yield =>
      if |s.ready| > 1 {
        var s1 := SetReady(SetBlock(s, s.curr), s.curr);
        assert s1.ready == s.ready[1..] + [s.curr];
        DispatchAdvances(s, s1, true, 0);
      }
    case Sleep(ms) => BlockingAdvances(s, SetSleep(SetBlock(s, s.curr), s.curr, SleepTicks(ms)));
    case Lock(m) =>
      var x := s.mutexes[m];
      if x.depth != 0 && x.owner != s.curr {
        BlockingAdvances(s, SetMutex(SetBlock(s, s.curr), m, x.(wait := x.wait + [s.curr])));
      }
    case Wait(i) =>
      var x := s.sems[i];
      if x.count <= 0 {
        BlockingAdvances(s, SetSem(SetBlock(s, s.curr), i, x.(wait := x.wait + [s.curr])));
      }
    case Notify(i) =>
      var x := s.sems[i];
      if x.wait != [] {
        DispatchAdvances(s, SetReady(SetSem(s, i, x.(wait := x.wait[1..])), x.wait[0]), false, 0);
      }
    case Unlock(m) =>
    case Spawn(t) =>
      assert Advances(s, Step(s, e), false, 0);
    case NewMutex =>
    case NewSem(n) =>
  }

  lemma AdvancesAhead(s: State, s': State, left: bool, paid: int, t: Tid)
    requires s.ready != [] && t in s.ready && t != s.ready[0]
    requires Advances(s, s', left, paid)
    ensures t in s'.ready
    ensures Ahead(s'.ready, s'.tcb, t)
            == Ahead(s.ready, s.tcb, t) - if left then Slice(s.tcb, s.ready[0]) else paid
  {
    var rest := s.ready[1..];
    assert t in rest;
    if left {
      AheadAppend(rest, s'.ready[|rest|..], s.tcb, s'.tcb, t);
      assert s'.ready == rest + s'.ready[|rest|..];
    } else {
      AheadAppend(rest, s'.ready[|s.ready|..], s.tcb, s'.tcb, t);
      assert s'.ready[1..] == rest + s'.ready[|s.ready|..];
    }
  }

  /** One step brings a ready task nearer to the CPU: a tick by exactly one, and no operation further away. */
  lemma WaitShrinks(s: State, e: Event, t: Tid)
    requires Inv(s) && Enabled(s, e) && t in s.ready && t != s.curr
    ensures t in Step(s, e).ready
    ensures var before, after := Ahead(s.ready, s.tcb, t), Ahead(Step(s, e).ready, Step(s, e).tcb, t);
            if e.Tick? then after == before - 1 else after <= before
  {
    HeadRunning(s);
    if e.Tick? {
      TickAdvances(s);
      AdvancesAhead(s, DoTick(s), Slice(s.tcb, s.curr) == 1, 1, t);
    } else {
      if e.Spawn? && e.t in s.ready { ReadyOnly(s, e.t); }
      OperationAdvances(s, e);
      if Advances(s, Step(s, e), true, 0) {
        AdvancesAhead(s, Step(s, e), true, 0, t);
      } else {
        AdvancesAhead(s, Step(s, e), false, 0, t);
      }
    }
  }

  /** Within the first `bound` ticks of `es` there is a point at which `t` is running. */
  ghost predicate RunsWithin(s: State, es: seq<Event>, t: Tid, bound: int) {
    exists i :: 0 <= i <= |es| && Legal(s, es[..i]) && Ticks(es[..i]) <= bound && Run(s, es[..i]).curr == t
  }

  lemma RunsNow(s: State, es: seq<Event>, bound: nat)
    ensures RunsWithin(s, es, s.curr, bound)
  {
    assert es[..0] == [];
  }

  lemma RunsAfterStep(s: State, es: seq<Event>, t: Tid, bound: int)
    requires Legal(s, es) && es != [] && RunsWithin(Step(s, es[0]), es[1..], t, bound)
    ensures RunsWithin(s, es, t, bound + if es[0].Tick? then 1 else 0)
  {
    var i :| 0 <= i <= |es[1..]| && Legal(Step(s, es[0]), es[1..][..i]) && Ticks(es[1..][..i]) <= bound
             && Run(Step(s, es[0]), es[1..][..i]).curr == t;
    assert es[..i + 1][1..] == es[1..][..i];
  }

  lemma RunsWithinWeaken(s: State, es: seq<Event>, t: Tid, bound: int, bound': int)
    requires RunsWithin(s, es, t, bound) && bound <= bound'
    ensures RunsWithin(s, es, t, bound')
  {
  }

  /** A ready task is on the CPU by the time the slices queued before it are used up. */
  lemma {:induction false} RunsInTurn(s: State, es: seq<Event>, t: Tid)
    requires Inv(s) && Legal(s, es) && t in s.ready && Ticks(es) >= Ahead(s.ready, s.tcb, t)
    ensures Ahead(s.ready, s.tcb, t) >= 0
    ensures RunsWithin(s, es, t, Ahead(s.ready, s.tcb, t))
    decreases |es|
  {
    var k :| 0 <= k < |s.ready| && s.ready[k] == t;
    PositionBounds(s, k);
    if t == s.curr {
      RunsNow(s, es, 0);
    } else {
      var s' := Step(s, es[0]);
      StepKeeps(s, es[0]);
      WaitShrinks(s, es[0], t);
      RunsInTurn(s', es[1..], t);
      RunsAfterStep(s, es, t, Ahead(s'.ready, s'.tcb, t));
    }
  }

  lemma PositionBounds(s: State, k: nat)
    requires Inv(s) && k < |s.ready|
    ensures k <= Ahead(s.ready, s.tcb, s.ready[k]) <= TIME_SLICE * k
  {
    QueuesDistinct(s);
    forall u | u in s.ready
      ensures 1 <= Slice(s.tcb, u) <= TIME_SLICE
    {
      ReadyOnly(s, u);
    }
    AheadBounds(s.ready, s.tcb, k);
  }

  /** Bounded waiting: the task at position `k` of the ready list runs within `10 * k` ticks of any run. */
  lemma BoundedWaiting(s0: State, past: seq<Event>, es: seq<Event>, k: nat)
    requires Initial(s0) && Legal(s0, past) && Legal(Run(s0, past), es)
    requires k < |Run(s0, past).ready| && Ticks(es) >= 10 * k
    ensures RunsWithin(Run(s0, past), es, Run(s0, past).ready[k], 10 * k)
  {
    InitialInv(s0);
    RunKeeps(s0, past);
    var s := Run(s0, past);
    PositionBounds(s, k);
    RunsInTurn(s, es, s.ready[k]);
    RunsWithinWeaken(s, es, s.ready[k], Ahead(s.ready, s.tcb, s.ready[k]), 10 * k);
  }

  // ---- exact sleep ----

  predicate Asleep(s: State, t: Tid, left: int) {
    t in s.sleep && t in s.tcb && s.tcb[t].sleepTicks == left
  }

  lemma SleeperTick(s: State, t: Tid, left: int)
    requires Asleep(s, t, left) && (s.curr != IDLE ==> HeadRuns(s))
    ensures if left == 1 then t in DoTick(s).ready && t !in DoTick(s).sleep else Asleep(DoTick(s), t, left - 1)
  {
    var s1 := ChargeSlice(s);
    assert Asleep(s1, t, left);
    var s2 := WakeSleepers(s1);
    DueLaterMembers(s1.sleep, s1.tcb, t);
    assert if left == 1 then t in s2.ready && t !in s2.sleep else Asleep(s2, t, left - 1);
  }

  lemma SleeperUntouched(s: State, e: Event, t: Tid, left: int)
    requires Asleep(s, t, left) && HeadRuns(s) && t in s.tasks && Enabled(s, e) && !e.Tick?
    ensures Asleep(Step(s, e), t, left)
  {
    forall s1: State | Asleep(s1, t, left)
      ensures Asleep(Dispatch(s1), t, left)
    {
    }
  }

  /** Only the tick touches a sleeper, and only to count it down or, at the last tick, to make it ready. */
  lemma SleeperStep(s: State, e: Event, t: Tid)
    requires Inv(s) && Enabled(s, e) && t in s.sleep
    ensures t in s.tcb
    ensures var left := s.tcb[t].sleepTicks;
            if e.Tick? && left == 1 then t in Step(s, e).ready && t !in Step(s, e).sleep
            else Asleep(Step(s, e), t, left - if e.Tick? then 1 else 0)
  {
    assert t in s.tasks by {
      assert multiset(s.sleep)[t] >= 1;
      assert Places(s, t) >= 1;
    }
    if s.curr != IDLE { HeadRunning(s); }
    if e.Tick? {
      SleeperTick(s, t, s.tcb[t].sleepTicks);
    } else {
      SleeperUntouched(s, e, t, s.tcb[t].sleepTicks);
    }
  }

  lemma {:induction false} SleeperRun(s: State, es: seq<Event>, t: Tid)
    requires Inv(s) && Legal(s, es) && t in s.sleep && t in s.tcb && Ticks(es) < s.tcb[t].sleepTicks
    ensures Asleep(Run(s, es), t, s.tcb[t].sleepTicks - Ticks(es))
    decreases |es|
  {
    if es != [] {
      StepKeeps(s, es[0]);
      SleeperStep(s, es[0], t);
      SleeperRun(Step(s, es[0]), es[1..], t);
    }
  }

  lemma FallsAsleep(s: State, ms: nat)
    requires Inv(s) && Enabled(s, Sleep(ms))
    ensures Asleep(Step(s, Sleep(ms)), s.curr, SleepTicks(ms))
  {
    HeadRunning(s);
    var s1 := SetSleep(SetBlock(s, s.curr), s.curr, SleepTicks(ms));
    assert Asleep(s1, s.curr, SleepTicks(ms));
  }

  /** `sys_sleep(ms)` keeps its caller asleep through the first `SleepTicks(ms) - 1` ticks of every run and
      makes it ready on the next one. */
  lemma SleepsExactly(s: State, ms: nat, es: seq<Event>)
    requires Inv(s) && Enabled(s, Sleep(ms))
    requires Legal(Step(s, Sleep(ms)), es)
    ensures Ticks(es) < SleepTicks(ms) ==> s.curr in Run(Step(s, Sleep(ms)), es).sleep
    ensures Ticks(es) == SleepTicks(ms) - 1 ==>
              var woken := Step(Run(Step(s, Sleep(ms)), es), Tick);
              s.curr in woken.ready && s.curr !in woken.sleep
  {
    var s1 := Step(s, Sleep(ms));
    FallsAsleep(s, ms);
    StepKeeps(s, Sleep(ms));
    if Ticks(es) < SleepTicks(ms) {
      SleeperRun(s1, es, s.curr);
      RunKeeps(s1, es);
      if Ticks(es) == SleepTicks(ms) - 1 {
        SleeperStep(Run(s1, es), Tick, s.curr);
      }
    }
  }

  /** The whole ticks that pass between the call and the waking tick cover `ms` milliseconds, with less than one
      tick to spare, exactly when `ms + 9` does not wrap. */
  lemma SleepIsLongEnough(ms: nat)
    requires ms < 0x1_0000_0000
    ensures 10 * (SleepTicks(ms) - 1) >= ms <==> ms <= 0x1_0000_0000 - 10
    ensures ms <= 0x1_0000_0000 - 10 ==> 10 * (SleepTicks(ms) - 1) < ms + 10
    ensures 1 <= SleepTicks(ms) <= INT32_MAX
  {
  }

  /** A request wakes its caller at the very next tick exactly when it is zero or within 9 ms of the largest. */
  lemma NextTickExactlyWhen(ms: nat)
    requires ms < 0x1_0000_0000
    ensures SleepTicks(ms) == 1 <==> ms == 0 || ms > 0x1_0000_0000 - 10
  {
  }

  /** Any ready task runs within `10 * (n - 1)` ticks, `n` being the registered tasks. */
  lemma ReadyRuns(s: State, es: seq<Event>, t: Tid)
    requires Inv(s) && Legal(s, es) && t in s.ready && Ticks(es) >= 10 * (|s.tasks| - 1)
    ensures RunsWithin(s, es, t, 10 * (|s.tasks| - 1))
  {
    ReadyFits(s);
    var k :| 0 <= k < |s.ready| && s.ready[k] == t;
    PositionBounds(s, k);
    RunsInTurn(s, es, t);
    RunsWithinWeaken(s, es, t, Ahead(s.ready, s.tcb, t), 10 * (|s.tasks| - 1));
  }

  /** After waking, the sleeper is back on the CPU within `10 * (n - 1)` ticks, `n` being the registered tasks. */
  lemma SleeperRunsAgain(s: State, ms: nat, es: seq<Event>, fs: seq<Event>)
    requires Inv(s) && Enabled(s, Sleep(ms))
    requires Legal(Step(s, Sleep(ms)), es) && Ticks(es) == SleepTicks(ms) - 1
    requires Legal(Step(Run(Step(s, Sleep(ms)), es), Tick), fs)
    requires Ticks(fs) >= 10 * (|Step(Run(Step(s, Sleep(ms)), es), Tick).tasks| - 1)
    ensures var woken := Step(Run(Step(s, Sleep(ms)), es), Tick);
            RunsWithin(woken, fs, s.curr, 10 * (|woken.tasks| - 1))
  {
    var s1 := Step(s, Sleep(ms));
    var s2 := Run(s1, es);
    assert Inv(s2) by {
      StepKeeps(s, Sleep(ms));
      RunKeeps(s1, es);
    }
    SleepsExactly(s, ms, es);
    StepKeeps(s2, Tick);
    ReadyRuns(Step(s2, Tick), fs, s.curr);
  }

  lemma ReadyFits(s: State)
    requires Inv(s)
    ensures |s.ready| <= |s.tasks|
  {
    forall t: Tid
      ensures multiset(s.ready)[t] <= multiset(s.tasks)[t]
    {
      assert multiset(s.ready)[t] <= Places(s, t);
      if t in s.tasks { DistinctCount(s.tasks, t); }
    }
    var rest := multiset(s.tasks) - multiset(s.ready);
    assert multiset(s.tasks) == multiset(s.ready) + rest;
  }

  // ---- what a reachable state and a single tick look like ----

  /** In every reachable state the running task is the head of the ready list, or idle exactly when that list is
      empty. */
  lemma HeadOfReadyRuns(s0: State, es: seq<Event>)
    requires Initial(s0) && Legal(s0, es)
    ensures var s := Run(s0, es);
            (s.curr == IDLE <==> s.ready == []) && (s.ready != [] ==> s.curr == s.ready[0] && s.curr in s.tasks)
  {
    InitialInv(s0);
    RunKeeps(s0, es);
    var s := Run(s0, es);
    if s.ready != [] {
      ReadyOnly(s, s.ready[0]);
    }
  }

  /** In every reachable state the SLEEP label marks exactly the tasks on the sleep list, whose counters have not run
      out, and every slice is within bounds. */
  lemma LabelsAndCounters(s0: State, es: seq<Event>, t: Tid)
    requires Initial(s0) && Legal(s0, es) && t in Run(s0, es).tasks
    ensures var s := Run(s0, es);
            && t in s.tcb
            && (s.tcb[t].state == Sleeping <==> t in s.sleep)
            && (t in s.sleep <==> s.tcb[t].sleepTicks != 0)
            && 0 <= s.tcb[t].sleepTicks <= INT32_MAX
            && 1 <= s.tcb[t].slice <= 10
  {
    InitialInv(s0);
    RunKeeps(s0, es);
    assert TcbOk(Run(s0, es), t);
  }

  /** Charging the running task does not change who is due. */
  lemma {:induction false} DueAfterCharge(q: seq<Tid>, a: map<Tid, Tcb>, b: map<Tid, Tcb>)
    requires forall u :: u in q ==> u in a && u in b && a[u].sleepTicks == b[u].sleepTicks
    ensures Due(q, a) == Due(q, b) && Later(q, a) == Later(q, b)
  {
    if q != [] {
      DueAfterCharge(q[1..], a, b);
    }
  }

  lemma ChargeOutcome(s: State)
    requires HeadRuns(s) && TcbOk(s, s.curr) && forall u :: u in s.sleep ==> u in s.tcb
    ensures var s1, used := ChargeSlice(s), Slice(s.tcb, s.curr) == 1;
            && s1.ready == (if used then s.ready[1..] + [s.curr] else s.ready)
            && s1.sleep == s.sleep && s1.curr == s.curr
            && Slice(s1.tcb, s.curr) == (if used then TIME_SLICE else Slice(s.tcb, s.curr) - 1)
            && Due(s.sleep, s1.tcb) == Due(s.sleep, s.tcb) && Later(s.sleep, s1.tcb) == Later(s.sleep, s.tcb)
  {
    DueAfterCharge(s.sleep, ChargeSlice(s).tcb, s.tcb);
  }

  /** Waking the sleepers and dispatching leaves every slice alone. */
  lemma WakingKeepsSlices(s: State, t: Tid)
    ensures Slice(Dispatch(WakeSleepers(s)).tcb, t) == Slice(s.tcb, t)
  {
    var s1 := WakeSleepers(s);
    assert Slice(s1.tcb, t) == Slice(s.tcb, t);
  }

  /** A tick in full: the running task pays one tick; if that was its last it is refilled and goes to the tail, in
      front of the sleepers that wake, which come in sleep order. */
  lemma TickRotates(s: State)
    requires Inv(s) && s.curr != IDLE
    ensures var s1, used := Step(s, Tick), Slice(s.tcb, s.curr) == 1;
            && s1.ready == (if used then s.ready[1..] + [s.curr] else s.ready) + Due(s.sleep, s.tcb)
            && s1.sleep == Later(s.sleep, s.tcb)
            && Slice(s1.tcb, s.curr) == (if used then 10 else Slice(s.tcb, s.curr) - 1)
            && s1.curr == if used && |s.ready| > 1 then s.ready[1] else s.curr
  {
    hide ChargeSlice, Slice, TasksOk, Conserved, LocksOk;
    HeadRunning(s);
    assert TcbOk(s, s.curr);
    SleepersKnown(s);
    ChargeOutcome(s);
    WakingKeepsSlices(ChargeSlice(s), s.curr);
  }

  /** While idle runs nobody is charged, and the first sleeper to wake runs at once. */
  lemma IdleTick(s: State, t: Tid)
    requires Inv(s) && s.curr == IDLE
    ensures var s1, due := Step(s, Tick), Due(s.sleep, s.tcb);
            && s1.ready == due && s1.sleep == Later(s.sleep, s.tcb)
            && s1.curr == (if due == [] then IDLE else due[0])
            && Slice(s1.tcb, t) == Slice(s.tcb, t)
  {
    hide Slice, AgeAll, LocksOk, Conserved, TasksOk;
    if s.ready != [] {
      IdleNotReady(s);
    }
    WakingKeepsSlices(s, t);
  }

  lemma IdleNotReady(s: State)
    requires Inv(s)
    ensures IDLE !in s.ready
  {
    if IDLE in s.ready {
      ReadyOnly(s, IDLE);
    }
  }

  /** A yield puts the caller last and runs the next task; nobody's slice is refilled. A lone task keeps the CPU. */
  lemma YieldRotates(s: State, t: Tid)
    requires Inv(s) && s.curr != IDLE
    ensures var s1 := Step(s, Yield);
            && s.ready != [] && s1.ready == s.ready[1..] + [s.ready[0]]
            && s1.curr == s1.ready[0] == (if |s.ready| > 1 then s.ready[1] else s.curr)
            && Slice(s1.tcb, t) == Slice(s.tcb, t)
  {
    hide Inv;
    HeadRunning(s);
    assert s.ready == [s.curr] + s.ready[1..];
  }

  /** A new task joins at the tail with a full slice, and runs after at most a full slice of each task before it. */
  lemma SpawnJoins(s: State, t: Tid)
    requires Inv(s) && Enabled(s, Spawn(t))
    ensures var s1 := Step(s, Spawn(t));
            && s1.ready == s.ready + [t] && s1.tasks == s.tasks + [t] && s1.curr == s.curr
            && Slice(s1.tcb, t) == 10
            && Ahead(s1.ready, s1.tcb, t) <= 10 * |s.ready|
  {
    var s1 := Step(s, Spawn(t));
    assert s1.ready == s.ready + [t];
    assert Slice(s1.tcb, t) == 10;
    hide Inv, Step, Ahead, Slice;
    StepKeeps(s, Spawn(t));
    PositionBounds(s1, |s.ready|);
  }

  // ---- what an operation touches ----

  /** The call takes its caller off the CPU until somebody else wakes it. */
  predicate Blocks(s: State, e: Event)
    requires Enabled(s, e)
  {
    match e
    case Sleep(_) => true
    case Lock(m) => s.mutexes[m].depth != 0 && s.mutexes[m].owner != s.curr
    case Wait(i) => s.sems[i].count <= 0
    case _ => false
  }

  /** Who joins the ready list. */
  function Arrivals(s: State, e: Event): seq<Tid>
    requires Enabled(s, e)
  {
    match e
    case Yield => [s.curr]
    case Unlock(m) =>
      var w := s.mutexes[m].wait;
      if s.mutexes[m].depth == 1 && w != [] then [w[0]] else []
    case Notify(i) => s.sems[i].wait[..if s.sems[i].wait == [] then 0 else 1]
    case Spawn(t) => [t]
    case _ => []
  }

  /** An operation in full, as far as the queues go: the caller leaves the ready list exactly when it blocks or
      yields, the arrivals go to the tail, only a sleep call adds to the sleep list, and nobody else moves. */
  lemma OperationQueues(s: State, e: Event)
    requires Inv(s) && Enabled(s, e) && !e.Tick?
    ensures var s1 := Step(s, e);
            && s.ready != []
            && s1.ready == (if Blocks(s, e) || e.Yield? then s.ready[1..] else s.ready) + Arrivals(s, e)
            && s1.sleep == s.sleep + (if e.Sleep? then [s.curr] else [])
            && s1.tasks == s.tasks + (if e.Spawn? then [e.t] else [])
            && s1.curr == if s1.ready == [] then IDLE else s1.ready[0]
  {
    HeadRunning(s);
    StepKeeps(s, e);
    QueuesMoved(s, e);
  }

  lemma QueuesMoved(s: State, e: Event)
    requires HeadRuns(s) && Enabled(s, e) && !e.Tick?
    ensures var s1 := Step(s, e);
            && s1.ready == (if Blocks(s, e) || e.Yield? then s.ready[1..] else s.ready) + Arrivals(s, e)
            && s1.sleep == s.sleep + (if e.Sleep? then [s.curr] else [])
            && s1.tasks == s.tasks + (if e.Spawn? then [e.t] else [])
  {
    hide SleepTicks;
    if e.Sleep? {
      SleepTicksRange(e.ms);
    }
    assert s.ready == [s.curr] + s.ready[1..];
    match e
    case Yield =>
    case Sleep(_) =>
    case Lock(m) =>
    case Unlock(m) =>
    case Wait(_) =>
    case Notify(i) =>
    case _ =>
  }

  /** An operation leaves every slice alone but the one it hands a new task. */
  lemma OperationKeepsSlices(s: State, e: Event, t: Tid)
    requires Enabled(s, e) && !e.Tick? && (e.Spawn? ==> e.t != t)
    ensures Slice(Step(s, e).tcb, t) == Slice(s.tcb, t)
  {
    hide SleepTicks;
  }

  /** What an operation does to the fields of a registered task: the task switched to is labelled RUNNING, one that
      joins the ready list READY, a caller that goes to sleep SLEEP with its count; all else stays. */
  lemma OperationFields(s: State, e: Event, t: Tid)
    requires Inv(s) && Enabled(s, e) && !e.Tick? && t in s.tasks
    ensures t in s.tcb && t in Step(s, e).tcb
    ensures var s1, x := Step(s, e), s.tcb[t];
            s1.tcb[t] ==
            if t == s1.curr && t != s.curr then x.(state := Running)
            else if t in Arrivals(s, e) && (e.Yield? ==> |s.ready| > 1) then x.(state := Ready)
            else if e.Sleep? && t == s.curr then x.(state := Sleeping, sleepTicks := SleepTicks(e.ms))
            else x
  {
    HeadRunning(s);
    CurrentNotWaiting(s, if e.Unlock? then e.m else if e.Notify? then e.s else 0);
    assert t in s.tcb;
    FieldsMoved(s, e, t);
  }

  lemma FieldsMoved(s: State, e: Event, t: Tid)
    requires HeadRuns(s) && Enabled(s, e) && !e.Tick? && t in s.tcb && (e.Spawn? ==> e.t != t)
    requires e.Unlock? ==> s.curr !in s.mutexes[e.m].wait
    requires e.Notify? ==> s.curr !in s.sems[e.s].wait
    requires t != IDLE
    ensures t in Step(s, e).tcb
    ensures var s1, x := Step(s, e), s.tcb[t];
            s1.tcb[t] ==
            if t == s1.curr && t != s.curr then x.(state := Running)
            else if t in Arrivals(s, e) && (e.Yield? ==> |s.ready| > 1) then x.(state := Ready)
            else if e.Sleep? && t == s.curr then x.(state := Sleeping, sleepTicks := SleepTicks(e.ms))
            else x
  {
    hide SleepTicks;
    if e.Sleep? {
      SleepTicksRange(e.ms);
    }
    assert s.ready == [s.curr] + s.ready[1..];
  }

  /** What a tick does to the fields of a task that neither runs nor sleeps nor is switched to: nothing. */
  lemma TickFields(s: State, t: Tid)
    requires t in s.tcb && t != s.curr && t !in s.sleep && t != Step(s, Tick).curr
    ensures t in Step(s, Tick).tcb && Step(s, Tick).tcb[t] == s.tcb[t]
  {
    var s1 := ChargeSlice(s);
    assert t in s1.tcb && s1.tcb[t] == s.tcb[t] && s1.sleep == s.sleep;
    assert t in WakeSleepers(s1).tcb && WakeSleepers(s1).tcb[t] == s.tcb[t];
  }

  /** A tick charges the running task only. */
  lemma TickKeepsSlices(s: State, t: Tid)
    requires t != s.curr
    ensures Slice(Step(s, Tick).tcb, t) == Slice(s.tcb, t)
  {
    hide Dispatch, WakeSleepers, Slice;
    ChargesOnlyCurrent(s, t);
    WakingKeepsSlices(ChargeSlice(s), t);
  }

  lemma ChargesOnlyCurrent(s: State, t: Tid)
    requires t != s.curr
    ensures Slice(ChargeSlice(s).tcb, t) == Slice(s.tcb, t)
  {
  }

  /** `t` is not ready at any point of the run. */
  ghost predicate Away(s: State, es: seq<Event>, t: Tid)
    requires Legal(s, es)
    decreases |es|
  {
    t !in s.ready && (es == [] || Away(Step(s, es[0]), es[1..], t))
  }

  lemma StepKeepsSliceOfAway(s: State, e: Event, t: Tid)
    requires Inv(s) && Enabled(s, e) && t in s.tasks && t !in s.ready
    ensures Slice(Step(s, e).tcb, t) == Slice(s.tcb, t) && t in Step(s, e).tasks
  {
    hide Slice, DoTick, Conserved, TcbOk, LocksOk;
    if e.Tick? {
      TickKeepsSlices(s, t);
    } else {
      OperationKeepsSlices(s, e, t);
    }
    StepKeepsTasks(s, e);
  }

  lemma StepKeepsTasks(s: State, e: Event)
    requires Enabled(s, e)
    ensures s.tasks <= Step(s, e).tasks
  {
  }

  lemma {:induction false} AwayKeepsSlice(s: State, es: seq<Event>, t: Tid)
    requires Inv(s) && Legal(s, es) && t in s.tasks && Away(s, es, t)
    ensures Slice(Run(s, es).tcb, t) == Slice(s.tcb, t) && t in Run(s, es).tasks && t !in Run(s, es).ready
    decreases |es|
  {
    hide Inv, Step, Slice, Enabled;
    if es != [] {
      StepKeeps(s, es[0]);
      StepKeepsSliceOfAway(s, es[0], t);
      AwayKeepsSlice(Step(s, es[0]), es[1..], t);
    }
  }

  /** A task that blocks, to sleep or to wait, is ready again with the slice it blocked with: `e` blocks it, it stays
      away during `es`, and `back` makes it ready. */
  lemma ReturnsWithSlice(s: State, e: Event, es: seq<Event>, back: Event)
    requires Inv(s) && Enabled(s, e) && Blocks(s, e)
    requires Legal(Step(s, e), es) && Away(Step(s, e), es, s.curr) && Enabled(Run(Step(s, e), es), back)
    requires s.curr in Step(Run(Step(s, e), es), back).ready
    ensures var s1 := Step(Run(Step(s, e), es), back); Slice(s1.tcb, s.curr) == Slice(s.tcb, s.curr)
  {
    hide Inv, Step, Slice, Away, Run, Enabled;
    StepKeeps(s, e);
    BlockingKeepsSlice(s, e);
    AwayKeepsSlice(Step(s, e), es, s.curr);
    RunKeeps(Step(s, e), es);
    StepKeepsSliceOfAway(Run(Step(s, e), es), back, s.curr);
  }

  lemma BlockingKeepsSlice(s: State, e: Event)
    requires Inv(s) && Enabled(s, e) && Blocks(s, e)
    ensures Slice(Step(s, e).tcb, s.curr) == Slice(s.tcb, s.curr) && s.curr in Step(s, e).tasks
  {
    hide Slice;
    OperationKeepsSlices(s, e, s.curr);
    HeadRunning(s);
    ReadyOnly(s, s.curr);
    StepKeepsTasks(s, e);
  }

  // ---- the RUNNING label ----

  predicate Labelled(tcb: map<Tid, Tcb>, t: Tid) {
    t in tcb && tcb[t].state == Running
  }

  /** A dispatch labels the task it switches to, and no other. */
  lemma DispatchLabels(s: State)
    requires s.ready != [] && s.ready[0] in s.tcb
    ensures var s1 := Dispatch(s);
            s1.curr == s.ready[0] && (Labelled(s1.tcb, s1.curr) <==> s1.curr != s.curr || Labelled(s.tcb, s.curr))
  {
  }

  /** Waking sleepers labels nobody RUNNING, and leaves the label of a task that is awake. */
  lemma WakingLabels(s: State, t: Tid)
    requires t !in s.sleep
    ensures Labelled(WakeSleepers(s).tcb, t) <==> Labelled(s.tcb, t)
  {
  }

  lemma ChargeLabels(s: State)
    requires s.curr != IDLE && s.curr in s.tcb
    ensures var s1 := ChargeSlice(s);
            s1.curr == s.curr && (Labelled(s1.tcb, s.curr) <==> Labelled(s.tcb, s.curr) && s.tcb[s.curr].slice != 1)
  {
  }

  lemma TickLabels(s: State)
    requires Inv(s) && s.curr != IDLE && Step(s, Tick).curr != IDLE
    ensures var s1 := Step(s, Tick);
            s.curr in s.tcb &&
            (Labelled(s1.tcb, s1.curr) <==>
             s1.curr != s.curr || (Labelled(s.tcb, s.curr) && s.tcb[s.curr].slice != 1))
  {
    hide ChargeSlice, WakeSleepers, Dispatch, Labelled;
    HeadRunning(s);
    ChargeLabels(s);
    var s1 := ChargeSlice(s);
    ChargeKeepsSleepers(s);
    WakingLabels(s1, s.curr);
    TickHead(s);
    DispatchLabels(WakeSleepers(s1));
  }

  lemma ChargeKeepsSleepers(s: State)
    ensures ChargeSlice(s).sleep == s.sleep && WakeSleepers(ChargeSlice(s)).curr == s.curr
  {
  }

  /** Before the tick's dispatch there is a known task to switch to. */
  lemma TickHead(s: State)
    requires Inv(s) && DoTick(s).curr != IDLE
    ensures var s2 := WakeSleepers(ChargeSlice(s)); s2.ready != [] && s2.ready[0] in s2.tcb
  {
    var s2 := WakeSleepers(ChargeSlice(s));
    hide ChargeSlice, WakeSleepers;
    ChargeSliceRests(s);
    WakeSleepersRests(ChargeSlice(s));
    if s2.ready != [] {
      ReadyOnly(s2, s2.ready[0]);
    }
  }

  /** From idle, whoever a tick wakes first is switched to and labelled. */
  lemma IdleTickLabels(s: State)
    requires Inv(s) && s.curr == IDLE && Step(s, Tick).curr != IDLE
    ensures Labelled(Step(s, Tick).tcb, Step(s, Tick).curr)
  {
    hide ChargeSlice, WakeSleepers, Dispatch, Labelled;
    ChargeKeepsSleepers(s);
    TickHead(s);
    DispatchLabels(WakeSleepers(ChargeSlice(s)));
  }

  /** The head of the ready list after `s1` was reached without relabelling the running task, unless it left. */
  lemma SwitchLabels(s: State, s1: State)
    requires s1.curr == s.curr && s1.ready != [] && s1.ready[0] in s1.tcb
    requires s1.ready[0] == s.curr ==> (Labelled(s1.tcb, s.curr) <==> Labelled(s.tcb, s.curr))
    ensures var s2 := Dispatch(s1); Labelled(s2.tcb, s2.curr) <==> s2.curr != s.curr || Labelled(s.tcb, s.curr)
  {
    hide Labelled, Dispatch;
    DispatchLabels(s1);
  }

  lemma YieldLabels(s: State)
    requires HeadRuns(s) && forall t :: t in s.ready ==> t in s.tcb
    ensures var s2 := DoYield(s); Labelled(s2.tcb, s2.curr) <==> s2.curr != s.curr || Labelled(s.tcb, s.curr)
  {
    if |s.ready| > 1 {
      SwitchLabels(s, SetReady(SetBlock(s, s.curr), s.curr));
    }
  }

  /** Whatever a blocking call does to its caller, the next task is another one. */
  lemma BlockLabels(s: State, s1: State)
    requires HeadRuns(s) && s1.curr == s.curr && s1.ready == s.ready[1..] && Dispatch(s1).curr != IDLE
    requires forall t :: t in s1.ready ==> t in s1.tcb
    ensures var s2 := Dispatch(s1); Labelled(s2.tcb, s2.curr) <==> s2.curr != s.curr || Labelled(s.tcb, s.curr)
  {
    SwitchLabels(s, s1);
  }

  lemma NotifyLabels(s: State, i: nat)
    requires HeadRuns(s) && i < |s.sems| && s.curr !in s.sems[i].wait
    ensures var s2 := DoNotify(s, i); Labelled(s2.tcb, s2.curr) <==> s2.curr != s.curr || Labelled(s.tcb, s.curr)
  {
    var x := s.sems[i];
    if x.wait != [] {
      SwitchLabels(s, SetReady(SetSem(s, i, x.(wait := x.wait[1..])), x.wait[0]));
    }
  }

  lemma UnlockLabels(s: State, m: nat)
    requires m < |s.mutexes| && s.curr !in s.mutexes[m].wait
    ensures DoUnlock(s, m).curr == s.curr && (Labelled(DoUnlock(s, m).tcb, s.curr) <==> Labelled(s.tcb, s.curr))
  {
  }

  lemma OperationLabels(s: State, e: Event)
    requires Inv(s) && Enabled(s, e) && !e.Tick? && Step(s, e).curr != IDLE
    ensures Labelled(Step(s, e).tcb, Step(s, e).curr) <==> Step(s, e).curr != s.curr || Labelled(s.tcb, s.curr)
  {
    hide Inv, Labelled, Dispatch, Remove, SetReady, SleepTicks, SetSleep;
    HeadRunning(s);
    ReadyHaveTcbs(s);
    match e
    case Yield => YieldLabels(s);
    case Sleep(ms) =>
      SleepKeepsReady(SetBlock(s, s.curr), s.curr, SleepTicks(ms));
      BlockLabels(s, SetSleep(SetBlock(s, s.curr), s.curr, SleepTicks(ms)));
    case Lock(m) =>
      var x := s.mutexes[m];
      if x.depth != 0 && x.owner != s.curr {
        BlockLabels(s, SetMutex(SetBlock(s, s.curr), m, x.(wait := x.wait + [s.curr])));
      }
    case Unlock(m) =>
      CurrentNotWaiting(s, m);
      UnlockLabels(s, m);
    case Wait(i) =>
      var x := s.sems[i];
      if x.count <= 0 {
        BlockLabels(s, SetSem(SetBlock(s, s.curr), i, x.(wait := x.wait + [s.curr])));
      }
    case Notify(i) =>
      CurrentNotWaiting(s, i);
      NotifyLabels(s, i);
    case Spawn(t) =>
      SpawnLabels(s, t);
    case _ =>
  }

  lemma SleepKeepsReady(s: State, t: Tid, ticks: nat)
    ensures var s1 := SetSleep(s, t, ticks); s1.ready == s.ready && s1.curr == s.curr && s.tcb.Keys <= s1.tcb.Keys
  {
  }

  lemma SpawnLabels(s: State, t: Tid)
    requires HeadRuns(s) && Inv(s) && t !in s.tasks
    ensures DoSpawn(s, t).curr == s.curr && (Labelled(DoSpawn(s, t).tcb, s.curr) <==> Labelled(s.tcb, s.curr))
  {
    assert s.curr != t;
  }

  lemma ReadyHaveTcbs(s: State)
    requires Inv(s)
    ensures forall t :: t in s.ready ==> t in s.tcb
  {
    forall t | t in s.ready
      ensures t in s.tcb
    {
      ReadyOnly(s, t);
    }
  }

  lemma StepHead(s: State, e: Event)
    requires Inv(s) && Enabled(s, e) && Step(s, e).curr != IDLE
    ensures Step(s, e).curr in Step(s, e).tcb && Step(s, e).ready != [] && Step(s, e).curr == Step(s, e).ready[0]
    ensures s.curr != IDLE ==> s.curr in s.tasks
  {
    StepKeeps(s, e);
    hide Step, Enabled;
    var s1 := Step(s, e);
    ReadyOnly(s1, s1.ready[0]);
    if s.curr != IDLE {
      ReadyOnly(s, s.ready[0]);
    }
  }

  /** Exactly when the running task carries the RUNNING label: a step leaves it labelled if and only if the step
      switched to it, or it was running and labelled already and did not use up its slice on this very tick. */
  lemma RunningLabelExactlyWhen(s: State, e: Event)
    requires Inv(s) && Enabled(s, e) && Step(s, e).curr != IDLE
    ensures var s1 := Step(s, e);
            s1.curr in s1.tcb &&
            (s1.tcb[s1.curr].state == Running <==>
             s1.curr != s.curr ||
             (s.curr in s.tcb && s.tcb[s.curr].state == Running && !(e.Tick? && s.tcb[s.curr].slice == 1)))
  {
    hide Inv, Step;
    StepHead(s, e);
    if !e.Tick? {
      OperationLabels(s, e);
    } else if s.curr == IDLE {
      IdleTickLabels(s);
    } else {
      TickLabels(s);
    }
  }

  lemma {:induction false} RunSnoc(s: State, es: seq<Event>)
    requires Legal(s, es) && es != []
    ensures var last := |es| - 1;
            Legal(s, es[..last]) && Enabled(Run(s, es[..last]), es[last]) &&
            Run(s, es) == Step(Run(s, es[..last]), es[last])
    decreases |es|
  {
    hide Step, Enabled;
    var last := |es| - 1;
    if last > 0 {
      RunSnoc(Step(s, es[0]), es[1..]);
      assert es[..last][1..] == es[1..][..last - 1];
    } else {
      assert es[1..] == [] && es[..0] == [];
    }
  }

  /** Event number `j` of the run switches to another task. */
  ghost predicate SwitchesAt(s: State, es: seq<Event>, j: nat) {
    j < |es| && Legal(s, es[..j]) && Legal(s, es[..j + 1]) && Run(s, es[..j + 1]).curr != Run(s, es[..j]).curr
  }

  /** Event number `j` of the run is a tick that uses up the running task's slice. */
  ghost predicate SliceEndsAt(s: State, es: seq<Event>, j: nat) {
    j < |es| && es[j].Tick? && Legal(s, es[..j]) &&
    Run(s, es[..j]).curr != IDLE && Slice(Run(s, es[..j]).tcb, Run(s, es[..j]).curr) == 1
  }

  /** Event number `i` switched to the task that runs now, and since then its slice has not run out. */
  ghost predicate FreshSince(s: State, es: seq<Event>, i: nat) {
    SwitchesAt(s, es, i) && forall j :: i < j < |es| ==> !SwitchesAt(s, es, j) && !SliceEndsAt(s, es, j)
  }

  ghost predicate FreshSwitch(s: State, es: seq<Event>) {
    exists i :: 0 <= i < |es| && FreshSince(s, es, i)
  }

  lemma EventsOfPrefix(s: State, es: seq<Event>, last: nat, j: nat)
    requires j < last < |es|
    ensures SwitchesAt(s, es[..last], j) <==> SwitchesAt(s, es, j)
    ensures SliceEndsAt(s, es[..last], j) <==> SliceEndsAt(s, es, j)
  {
    assert es[..last][..j] == es[..j] && es[..last][..j + 1] == es[..j + 1];
  }

  lemma FreshSinceSnoc(s: State, es: seq<Event>, i: nat)
    requires es != [] && i < |es| - 1
    ensures var last := |es| - 1;
            (FreshSince(s, es, i) <==>
             FreshSince(s, es[..last], i) && !SwitchesAt(s, es, last) && !SliceEndsAt(s, es, last))
  {
    hide SwitchesAt, SliceEndsAt;
    var last := |es| - 1;
    forall j: nat | j < last
      ensures SwitchesAt(s, es[..last], j) <==> SwitchesAt(s, es, j)
      ensures SliceEndsAt(s, es[..last], j) <==> SliceEndsAt(s, es, j)
    {
      EventsOfPrefix(s, es, last, j);
    }
  }

  lemma FreshSwitchSnoc(s: State, es: seq<Event>)
    requires es != []
    ensures var last := |es| - 1;
            (FreshSwitch(s, es) <==>
             SwitchesAt(s, es, last) || (FreshSwitch(s, es[..last]) && !SliceEndsAt(s, es, last)))
  {
    hide FreshSince, SwitchesAt, SliceEndsAt;
    var last := |es| - 1;
    FreshAtLast(s, es);
    forall i: nat | i < last
      ensures FreshSince(s, es, i) <==>
              FreshSince(s, es[..last], i) && !SwitchesAt(s, es, last) && !SliceEndsAt(s, es, last)
    {
      FreshSinceSnoc(s, es, i);
    }
  }

  lemma FreshAtLast(s: State, es: seq<Event>)
    requires es != []
    ensures FreshSince(s, es, |es| - 1) <==> SwitchesAt(s, es, |es| - 1)
  {
  }

  /** Over whole runs from boot: the running task is labelled RUNNING if and only if some step switched to it and since
      then no tick has used up its slice. */
  lemma {:induction false} RunningLabelHistory(s: State, es: seq<Event>)
    requires Initial(s) && Legal(s, es) && Run(s, es).curr != IDLE
    ensures Labelled(Run(s, es).tcb, Run(s, es).curr) <==> FreshSwitch(s, es)
    decreases |es|
  {
    if es != [] {
      LabelHistoryStep(s, es);
      if Run(s, es[..|es| - 1]).curr == Run(s, es).curr {
        RunningLabelHistory(s, es[..|es| - 1]);
      }
      FreshSwitchSnoc(s, es);
    }
  }

  lemma LabelHistoryStep(s: State, es: seq<Event>)
    requires Initial(s) && Legal(s, es) && es != [] && Run(s, es).curr != IDLE
    ensures var last := |es| - 1;
            Legal(s, es[..last]) &&
            var before, after := Run(s, es[..last]), Run(s, es);
            (Labelled(after.tcb, after.curr) <==>
             SwitchesAt(s, es, last) || (Labelled(before.tcb, before.curr) && !SliceEndsAt(s, es, last)))
    ensures SwitchesAt(s, es, |es| - 1) <==> Run(s, es[..|es| - 1]).curr != Run(s, es).curr
  {
    hide Inv, Step, Enabled, Initial, Run, Legal;
    var last := |es| - 1;
    RunSnoc(s, es);
    InitialInv(s);
    RunKeeps(s, es[..last]);
    RunningLabelExactlyWhen(Run(s, es[..last]), es[last]);
    assert es[..last + 1] == es;
  }

  /** Main runs labelled READY from the start. */
  lemma MainStartsReady(s: State)
    requires Initial(s)
    ensures s.curr != IDLE && s.curr in s.tcb && s.tcb[s.curr].state == Ready
  {
  }

  function TickRun(n: nat): seq<Event> {
    if n == 0 then [] else [Tick] + TickRun(n - 1)
  }

  /** One task runs, and nobody sleeps. */
  ghost predicate Lone(s: State) {
    Inv(s) && s.curr != IDLE && s.ready == [s.curr] && s.sleep == [] && s.curr in s.tcb
  }

  lemma LoneTickState(s: State)
    requires s.curr != IDLE && s.ready == [s.curr] && s.sleep == [] && s.curr in s.tcb
    ensures var s1, x := Step(s, Tick), s.tcb[s.curr];
            s1.curr == s.curr && s1.ready == [s.curr] && s1.sleep == [] && s.curr in s1.tcb &&
            s1.tcb[s.curr].state == (if x.slice == 1 then Ready else x.state) &&
            (x.slice != 1 ==> s1.tcb[s.curr].slice == x.slice - 1)
  {
    assert Remove(s.ready, s.curr) == [];
    var s1 := ChargeSlice(s);
    assert s1.ready == [s.curr] && s1.sleep == [];
    assert WakeSleepers(s1).ready == [s.curr];
  }

  /** A lone task keeps the CPU through its last tick too, but comes out of it labelled READY. */
  lemma LoneTick(s: State)
    requires Lone(s)
    ensures var s1, x := Step(s, Tick), s.tcb[s.curr];
            Lone(s1) && s1.curr == s.curr &&
            s1.tcb[s.curr].state == (if x.slice == 1 then Ready else x.state) &&
            (x.slice != 1 ==> s1.tcb[s.curr].slice == x.slice - 1)
  {
    hide Inv, Step;
    StepKeeps(s, Tick);
    LoneTickState(s);
  }

  lemma {:induction false} LoneTicks(s: State, n: nat)
    requires Lone(s) && n <= s.tcb[s.curr].slice
    ensures Legal(s, TickRun(n))
    ensures var s1 := Run(s, TickRun(n));
            s1.curr == s.curr && s.curr in s1.tcb &&
            s1.tcb[s.curr].state == if n == s.tcb[s.curr].slice then Ready else s.tcb[s.curr].state
    decreases n
  {
    assert TcbOk(s, s.curr);
    if n > 0 {
      hide Inv, Step;
      LoneTick(s);
      assert TickRun(n)[1..] == TickRun(n - 1);
      if n > 1 {
        LoneTicks(Step(s, Tick), n - 1);
      }
    }
  }

  /** Main sleeps and wakes as the only task: it is labelled for the rest of its slice, and not after its last tick. */
  lemma LoneTaskLosesLabel(s: State)
    requires Initial(s)
    ensures var es := [Sleep(0), Tick] + TickRun(TIME_SLICE - 1);
            Legal(s, es) && Run(s, es).curr == s.curr && Labelled(Run(s, es).tcb, s.curr)
    ensures var es := [Sleep(0), Tick] + TickRun(TIME_SLICE);
            Legal(s, es) && Run(s, es).curr == s.curr && !Labelled(Run(s, es).tcb, s.curr)
  {
    InitialInv(s);
    StepKeeps(s, Sleep(0));
    MainSleeps(s);
    var s1 := Step(s, Sleep(0));
    StepKeeps(s1, Tick);
    MainWakes(s1, s.curr);
    var s2 := Step(s1, Tick);
    LoneTicks(s2, TIME_SLICE - 1);
    LoneTicks(s2, TIME_SLICE);
    TwoSteps(s, Sleep(0), Tick, TickRun(TIME_SLICE - 1));
    TwoSteps(s, Sleep(0), Tick, TickRun(TIME_SLICE));
  }

  lemma MainSleeps(s: State)
    requires Initial(s)
    ensures var s1 := Step(s, Sleep(0));
            s1.curr == IDLE && s1.ready == [] && s1.sleep == [s.curr] && s.curr in s1.tcb &&
            s1.tcb[s.curr] == Tcb(Sleeping, TIME_SLICE, TIME_SLICE, 1)
  {
    assert SleepTicks(0) == 1;
    assert Remove(s.ready, s.curr) == [];
  }

  lemma MainWakes(s: State, t: Tid)
    requires s.curr == IDLE && s.ready == [] && s.sleep == [t] && t != IDLE && t in s.tcb
    requires s.tcb[t] == Tcb(Sleeping, TIME_SLICE, TIME_SLICE, 1)
    ensures var s1 := Step(s, Tick);
            s1.curr == t && s1.ready == [t] && s1.sleep == [] && t in s1.tcb &&
            s1.tcb[t] == Tcb(Running, TIME_SLICE, TIME_SLICE, 0)
  {
    assert s.sleep[1..] == [] && ChargeSlice(s) == s;
    assert Due(s.sleep, s.tcb) == [t] && Later(s.sleep, s.tcb) == [];
    assert s.ready + [t] == [t];
  }

  lemma TwoSteps(s: State, a: Event, b: Event, es: seq<Event>)
    requires Enabled(s, a) && Enabled(Step(s, a), b) && Legal(Step(Step(s, a), b), es)
    ensures Legal(s, [a, b] + es) && Run(s, [a, b] + es) == Run(Step(Step(s, a), b), es)
  {
    hide Step, Enabled;
    var all := [a, b] + es;
    assert all[1..] == [b] + es && all[1..][1..] == es;
    assert Legal(Step(s, a), [b] + es);
  }
}
