/** The scheduler as a transition system over sequences: what every kernel operation and the timer tick
    do to the task, ready, sleep and wait lists. A task is named by the address of its `task_t`. */
module Sched {
  import opened Seqs

  type Tid = nat

  const NULL: Tid := 0
  const IDLE: Tid := 1
  const TIME_SLICE := 10
  const TICK_MS := 10
  const UINT32 := 0x1_0000_0000
  const INT32_MAX := 0x7FFF_FFFF
  const TASK_NAME_MAX_IN_SIZE := 32

  datatype TaskState = Created | Running | Sleeping | Ready | Waiting

  datatype Tcb = Tcb(state: TaskState, slice: int, quantum: int, sleepTicks: int)

  datatype Mutex = Mutex(owner: Tid, depth: int, wait: seq<Tid>)

  datatype Sem = Sem(count: int, wait: seq<Tid>)

  datatype State = State(
    tasks: seq<Tid>,
    ready: seq<Tid>,
    sleep: seq<Tid>,
    curr: Tid,
    tcb: map<Tid, Tcb>,
    mutexes: seq<Mutex>,
    sems: seq<Sem>)

  datatype Event =
    | Tick
    | Yield
    | Sleep(ms: nat)
    | Lock(m: nat)
    | Unlock(m: nat)
    | Wait(s: nat)
    | Notify(s: nat)
    | Spawn(t: Tid)
    | NewMutex
    | NewSem(init: int)

  /** The names `task_init` accepts. */
  predicate GoodName(name: string) {
    1 <= |name| <= TASK_NAME_MAX_IN_SIZE
  }

  // ---- the shared steps of task.c ----

  function Relabel(tcb: map<Tid, Tcb>, t: Tid, state: TaskState): map<Tid, Tcb> {
    if t in tcb then tcb[t := tcb[t].(state := state)] else tcb
  }

  function SetReady(s: State, t: Tid): State {
    s.(ready := s.ready + [t], tcb := Relabel(s.tcb, t, Ready))
  }

  function SetBlock(s: State, t: Tid): State {
    s.(ready := Remove(s.ready, t))
  }

  function SetSleep(s: State, t: Tid, ticks: nat): State {
    if ticks == 0 || t !in s.tcb then s
    else s.(sleep := s.sleep + [t], tcb := s.tcb[t := s.tcb[t].(sleepTicks := ticks, state := Sleeping)])
  }

  /** `task_dispatch`: the head of the ready list runs next, or idle when there is none. */
  function Dispatch(s: State): State {
    if s.ready == [] then s.(curr := IDLE)
    else if s.ready[0] == s.curr then s
    else s.(curr := s.ready[0], tcb := Relabel(s.tcb, s.ready[0], Running))
  }

  function SetMutex(s: State, m: nat, x: Mutex): State
    requires m < |s.mutexes|
  {
    s.(mutexes := s.mutexes[m := x])
  }

  function SetSem(s: State, i: nat, x: Sem): State
    requires i < |s.sems|
  {
    s.(sems := s.sems[i := x])
  }

  // ---- operations ----

  function DoYield(s: State): State {
    if |s.ready| > 1 then Dispatch(SetReady(SetBlock(s, s.curr), s.curr)) else s
  }

  /** `(ms + OS_TICKS_MS - 1) / OS_TICKS_MS + 1` in 32-bit unsigned arithmetic. */
  function SleepTicks(ms: nat): nat {
    (ms + TICK_MS - 1) % UINT32 / TICK_MS + 1
  }

  function DoSleep(s: State, ms: nat): State {
    Dispatch(SetSleep(SetBlock(s, s.curr), s.curr, SleepTicks(ms)))
  }

  function DoLock(s: State, m: nat): State
    requires m < |s.mutexes|
  {
    var x := s.mutexes[m];
    if x.depth == 0 then SetMutex(s, m, x.(depth := 1, owner := s.curr))
    else if x.owner == s.curr then SetMutex(s, m, x.(depth := x.depth + 1))
    else Dispatch(SetMutex(SetBlock(s, s.curr), m, x.(wait := x.wait + [s.curr])))
  }

  function DoUnlock(s: State, m: nat): State
    requires m < |s.mutexes|
  {
    var x := s.mutexes[m];
    if x.depth != 1 then SetMutex(s, m, x.(depth := x.depth - 1))
    else if x.wait == [] then SetMutex(s, m, x.(depth := 0, owner := NULL))
    else SetReady(SetMutex(s, m, Mutex(x.wait[0], 1, x.wait[1..])), x.wait[0])
  }

  function DoWait(s: State, i: nat): State
    requires i < |s.sems|
  {
    var x := s.sems[i];
    if x.count > 0 then SetSem(s, i, x.(count := x.count - 1))
    else Dispatch(SetSem(SetBlock(s, s.curr), i, x.(wait := x.wait + [s.curr])))
  }

  function DoNotify(s: State, i: nat): State
    requires i < |s.sems|
  {
    var x := s.sems[i];
    if x.wait == [] then SetSem(s, i, x.(count := x.count + 1))
    else Dispatch(SetReady(SetSem(s, i, x.(wait := x.wait[1..])), x.wait[0]))
  }

  function NewTcb(): Tcb {
    Tcb(Created, TIME_SLICE, TIME_SLICE, 0)
  }

  function DoSpawn(s: State, t: Tid): State {
    var s1 := SetReady(s.(tcb := s.tcb[t := NewTcb()]), t);
    s1.(tasks := s1.tasks + [t])
  }

  // ---- the timer tick ----

  /** The running task pays for the tick; when its slice is used up it is refilled and moved to the tail. */
  function ChargeSlice(s: State): State {
    var t := s.curr;
    if t == IDLE || t !in s.tcb then s
    else
      var left := s.tcb[t].slice - 1;
      if left == 0 then SetReady(SetBlock(s.(tcb := s.tcb[t := s.tcb[t].(slice := s.tcb[t].quantum)]), t), t)
      else s.(tcb := s.tcb[t := s.tcb[t].(slice := left)])
  }

  predicate DueNow(tcb: map<Tid, Tcb>, t: Tid) {
    t in tcb && tcb[t].sleepTicks == 1
  }

  /** The sleepers whose counter reaches zero on this tick, in sleep order. */
  function Due(q: seq<Tid>, tcb: map<Tid, Tcb>): seq<Tid> {
    if q == [] then []
    else if DueNow(tcb, q[0]) then [q[0]] + Due(q[1..], tcb)
    else Due(q[1..], tcb)
  }

  /** The sleepers that stay asleep, in sleep order. */
  function Later(q: seq<Tid>, tcb: map<Tid, Tcb>): seq<Tid> {
    if q == [] then []
    else if DueNow(tcb, q[0]) then Later(q[1..], tcb)
    else [q[0]] + Later(q[1..], tcb)
  }

  function Aged(x: Tcb): Tcb {
    if x.sleepTicks == 1 then x.(sleepTicks := 0, state := Ready) else x.(sleepTicks := x.sleepTicks - 1)
  }

  function AgeAll(tcb: map<Tid, Tcb>, q: seq<Tid>): map<Tid, Tcb> {
    map t | t in tcb :: if t in q then Aged(tcb[t]) else tcb[t]
  }

  function WakeSleepers(s: State): State {
    s.(ready := s.ready + Due(s.sleep, s.tcb),
       sleep := Later(s.sleep, s.tcb),
       tcb := AgeAll(s.tcb, s.sleep))
  }

  /** One turn of the tick's loop over the sleep list: count `t` down and, at zero, make it ready. */
  function WakeOne(s: State, t: Tid): State {
    if t !in s.tcb then s
    else
      var s1 := s.(tcb := s.tcb[t := s.tcb[t].(sleepTicks := s.tcb[t].sleepTicks - 1)]);
      if s1.tcb[t].sleepTicks == 0 then SetReady(s1.(sleep := Remove(s1.sleep, t)), t) else s1
  }

  /** The loop's turns for the tasks `q`, in order. */
  function WakeEach(s: State, q: seq<Tid>): State {
    if q == [] then s else WakeOne(WakeEach(s, q[..|q| - 1]), q[|q| - 1])
  }

  function DoTick(s: State): State {
    Dispatch(WakeSleepers(ChargeSlice(s)))
  }

  // ---- the transition system ----

  /** Only the tick happens while idle runs; a task calls `unlock` only on a mutex it owns, and `task_init`
      only on a task that is not registered yet. */
  predicate Enabled(s: State, e: Event) {
    e.Tick? ||
    (s.curr != IDLE &&
     match e
     case Sleep(ms) => ms < UINT32
     case Lock(m) => m < |s.mutexes|
     case Unlock(m) => m < |s.mutexes| && s.mutexes[m].owner == s.curr && s.mutexes[m].depth != 0
     case Wait(i) => i < |s.sems|
     case Notify(i) => i < |s.sems|
     case Spawn(t) => t != NULL && t != IDLE && t !in s.tasks
     case _ => true)
  }

  function Step(s: State, e: Event): State
    requires Enabled(s, e)
  {
    match e
    case Tick => DoTick(s)
    case Yield => DoYield(s)
    case Sleep(ms) => DoSleep(s, ms)
    case Lock(m) => DoLock(s, m)
    case Unlock(m) => DoUnlock(s, m)
    case Wait(i) => DoWait(s, i)
    case Notify(i) => DoNotify(s, i)
    case Spawn(t) => DoSpawn(s, t)
    case NewMutex => s.(mutexes := s.mutexes + [Mutex(NULL, 0, [])])
    case NewSem(n) => s.(sems := s.sems + [Sem(n, [])])
  }

  ghost predicate Legal(s: State, es: seq<Event>)
    decreases |es|
  {
    es == [] || (Enabled(s, es[0]) && Legal(Step(s, es[0]), es[1..]))
  }

  ghost function Run(s: State, es: seq<Event>): State
    requires Legal(s, es)
    decreases |es|
  {
    if es == [] then s else Run(Step(s, es[0]), es[1..])
  }

  // ---- the global invariant ----

  /** How often `t` stands in the wait lists of the mutexes `ms`. */
  function MutexWaits(ms: seq<Mutex>, t: Tid): nat {
    if ms == [] then 0 else MutexWaits(ms[..|ms| - 1], t) + multiset(ms[|ms| - 1].wait)[t]
  }

  function SemWaits(ss: seq<Sem>, t: Tid): nat {
    if ss == [] then 0 else SemWaits(ss[..|ss| - 1], t) + multiset(ss[|ss| - 1].wait)[t]
  }

  /** How often `t` is queued anywhere. */
  function Places(s: State, t: Tid): nat {
    multiset(s.ready)[t] + multiset(s.sleep)[t] + MutexWaits(s.mutexes, t) + SemWaits(s.sems, t)
  }

  ghost predicate TasksOk(s: State) {
    && Distinct(s.tasks)
    && NULL !in s.tasks
    && IDLE !in s.tasks
    && (forall t :: t in s.tcb <==> t in s.tasks)
  }

  /** No task is lost and none is queued twice. */
  ghost predicate Conserved(s: State) {
    forall t: Tid :: Places(s, t) == if t in s.tasks then 1 else 0
  }

  ghost predicate CurrentAtHead(s: State) {
    s.curr == if s.ready == [] then IDLE else s.ready[0]
  }

  ghost predicate TcbOk(s: State, t: Tid)
    requires t in s.tcb
  {
    var x := s.tcb[t];
    && 1 <= x.slice <= x.quantum == TIME_SLICE
    && (x.state == Sleeping <==> t in s.sleep)
    && (if t in s.sleep then 1 <= x.sleepTicks <= INT32_MAX else x.sleepTicks == 0)
  }

  ghost predicate MutexOk(s: State, x: Mutex) {
    && x.depth >= 0
    && (x.owner == NULL <==> x.depth == 0)
    && (x.owner != NULL ==> x.owner in s.tasks)
    && (x.wait != [] ==> x.depth >= 1)
    && x.owner !in x.wait
  }

  ghost predicate SemOk(x: Sem) {
    x.count > 0 ==> x.wait == []
  }

  ghost predicate LocksOk(s: State) {
    && (forall m :: 0 <= m < |s.mutexes| ==> MutexOk(s, s.mutexes[m]))
    && (forall i :: 0 <= i < |s.sems| ==> SemOk(s.sems[i]))
  }

  ghost predicate Inv(s: State) {
    && TasksOk(s)
    && Conserved(s)
    && CurrentAtHead(s)
    && (forall t :: t in s.tcb ==> TcbOk(s, t))
    && LocksOk(s)
  }

  /** The state `task_main_init` leaves: one registered task, running; every mutex free and every queue empty. */
  ghost predicate Initial(s: State) {
    && |s.tasks| == 1
    && s.tasks[0] != NULL && s.tasks[0] != IDLE
    && s.ready == s.tasks
    && s.sleep == []
    && s.curr == s.tasks[0]
    && s.tcb == map[s.tasks[0] := NewTcb().(state := Ready)]
    && (forall m :: 0 <= m < |s.mutexes| ==> s.mutexes[m] == Mutex(NULL, 0, []))
    && (forall i :: 0 <= i < |s.sems| ==> s.sems[i].wait == [])
  }
}
