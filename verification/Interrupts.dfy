/** The same kernel at the grain of single list and field updates: an interrupt flag, a stack of saved flags for each
    task, task switches in the middle of an operation, and timer interrupts wherever the flag is set. */
module Interrupts {
  import opened Seqs
  import S = Sched
  import I = SchedInvariant
  import R = SchedRuns

  datatype Instr =
    | Enter                            // state = irq_enter_protection()
    | Leave                            // irq_leave_protection(state)
    | Iret(flag: bool)                 // end of the timer handler
    | Return(flag: bool)               // the operation returns; it was entered with this flag
    | Block                            // task_set_block(task_current())
    | MakeReady(t: S.Tid)              // task_set_ready(t)
    | GoSleep(ticks: nat)              // task_set_sleep(curr, ticks)
    | Wake(t: S.Tid)                   // task_set_wakeup(t)
    | Register(t: S.Tid)               // list_insert_last(&task_list, &t->all_node)
    | PutTcb(t: S.Tid, tcb: S.Tcb)     // an assignment to fields of t
    | PutMutex(m: nat, mutex: S.Mutex) // an assignment to a mutex, or an update of its wait list
    | PutSem(i: nat, sem: S.Sem)       // the same for a semaphore
    | Pick                             // task_dispatch up to the assignment to curr_task
    | Jump                             // far jump through the TSS of curr_task, when that is another task

  /** Where a task stands: what it still has to do, the flags it saved, and the interrupt flag it runs with. */
  datatype Context = Context(code: seq<Instr>, saved: seq<bool>, flag: bool)

  /** `cpu` is the task whose code the processor executes; `dormant` holds the others' TSS contents. */
  datatype Machine = Machine(k: S.State, cpu: S.Tid, live: Context, dormant: map<S.Tid, Context>)

  predicate IsWrite(i: Instr) {
    i.Block? || i.MakeReady? || i.GoSleep? || i.Wake? || i.Register? || i.PutTcb? || i.PutMutex? || i.PutSem?
  }

  /** The effect of one instruction on the kernel state. */
  function Write(i: Instr, k: S.State): S.State {
    match i
    case Block => S.SetBlock(k, k.curr)
    case MakeReady(t) => S.SetReady(k, t)
    case GoSleep(ticks) => S.SetSleep(k, k.curr, ticks)
    case Wake(t) => k.(sleep := Remove(k.sleep, t))
    case Register(t) => k.(tasks := k.tasks + [t])
    case PutTcb(t, x) => k.(tcb := k.tcb[t := x])
    case PutMutex(m, x) => if m < |k.mutexes| then S.SetMutex(k, m, x) else k
    case PutSem(j, x) => if j < |k.sems| then S.SetSem(k, j, x) else k
    case Pick => S.Dispatch(k)
    case _ => k
  }

  // ---- the code of the operations ----

  const DISPATCH: seq<Instr> := [Enter, Pick, Jump, Leave]

  function WithDispatch(writes: seq<Instr>, dispatch: bool): seq<Instr> {
    writes + if dispatch then DISPATCH else []
  }

  /** What an operation does between entering and leaving its protected region, with the branches resolved. */
  function Writes(e: S.Event, k: S.State): seq<Instr>
    requires S.Enabled(k, e)
  {
    match e
    case Yield => if |k.ready| > 1 then [Block, MakeReady(k.curr)] else []
    case Sleep(ms) => [Block, GoSleep(S.SleepTicks(ms))]
    case Lock(m) =>
      var x := k.mutexes[m];
      if x.depth == 0 then [PutMutex(m, x.(depth := 1)), PutMutex(m, x.(depth := 1, owner := k.curr))]
      else if x.owner == k.curr then [PutMutex(m, x.(depth := x.depth + 1))]
      else [Block, PutMutex(m, x.(wait := x.wait + [k.curr]))]
    case Unlock(m) =>
      var x := k.mutexes[m];
      if x.depth != 1 then [PutMutex(m, x.(depth := x.depth - 1))]
      else
        [PutMutex(m, x.(depth := 0)), PutMutex(m, x.(depth := 0, owner := S.NULL))] +
        if x.wait == [] then []
        else [PutMutex(m, S.Mutex(S.NULL, 0, x.wait[1..])), MakeReady(x.wait[0]),
              PutMutex(m, S.Mutex(x.wait[0], 0, x.wait[1..])), PutMutex(m, S.Mutex(x.wait[0], 1, x.wait[1..]))]
    case Wait(i) =>
      var x := k.sems[i];
      if x.count > 0 then [PutSem(i, x.(count := x.count - 1))]
      else [Block, PutSem(i, x.(wait := x.wait + [k.curr]))]
    case Notify(i) =>
      var x := k.sems[i];
      if x.wait == [] then [PutSem(i, x.(count := x.count + 1))]
      else [PutSem(i, x.(wait := x.wait[1..])), MakeReady(x.wait[0])]
    case Spawn(t) => [PutTcb(t, S.NewTcb()), MakeReady(t), Register(t)]
    case _ => []
  }

  predicate Dispatches(e: S.Event, k: S.State)
    requires S.Enabled(k, e)
  {
    match e
    case Yield => |k.ready| > 1
    case Sleep(ms) => true
    case Lock(m) => k.mutexes[m].depth != 0 && k.mutexes[m].owner != k.curr
    case Wait(i) => k.sems[i].count <= 0
    case Notify(i) => k.sems[i].wait != []
    case _ => false
  }

  function ChargeWrites(k: S.State): seq<Instr> {
    if k.curr == S.IDLE || k.curr !in k.tcb then []
    else
      var x := k.tcb[k.curr];
      if x.slice == 1 then
        [PutTcb(k.curr, x.(slice := 0)), PutTcb(k.curr, x.(slice := x.quantum)), Block, MakeReady(k.curr)]
      else [PutTcb(k.curr, x.(slice := x.slice - 1))]
  }

  function SleeperWrites(t: S.Tid, tcb: map<S.Tid, S.Tcb>): seq<Instr> {
    if t !in tcb then []
    else
      [PutTcb(t, tcb[t].(sleepTicks := tcb[t].sleepTicks - 1))] +
      if tcb[t].sleepTicks == 1 then [Wake(t), MakeReady(t)] else []
  }

  /** The loop over the sleepers `q`. */
  function WakeWrites(q: seq<S.Tid>, tcb: map<S.Tid, S.Tcb>): seq<Instr> {
    if q == [] then [] else WakeWrites(q[..|q| - 1], tcb) + SleeperWrites(q[|q| - 1], tcb)
  }

  /** The timer handler from its first instruction to its IRET. */
  function TickWrites(k: S.State): seq<Instr> {
    ChargeWrites(k) + WakeWrites(S.ChargeSlice(k).sleep, S.ChargeSlice(k).tcb)
  }

  // ---- moves ----

  datatype Move =
    | Call(e: S.Event)  // the running task calls an operation and enters its protected region
    | Timer             // a timer interrupt is taken
    | Execute           // the next instruction of the running task
    | UserEnter         // code outside the operations saves the flag and disables interrupts
    | UserLeave         // and restores it
    | EnableInterrupts  // irq_enable_global

  predicate CanMove(c: Machine, move: Move) {
    match move
    case Call(e) => c.live.code == [] && S.Enabled(c.k, e) && !e.Tick? && !e.NewMutex? && !e.NewSem?
    case Timer => c.live.flag
    case Execute =>
      c.live.code != [] &&
      (c.live.code[0].Leave? ==> c.live.saved != []) &&
      (c.live.code[0].Jump? && c.k.curr != c.cpu ==> c.k.curr in c.dormant)
    case UserEnter => c.live.code == []
    case UserLeave => c.live.code == [] && c.live.saved != []
    case EnableInterrupts => c.live.code == []
  }

  function Restored(x: Context): Context
    requires x.saved != []
  {
    x.(saved := x.saved[..|x.saved| - 1], flag := x.saved[|x.saved| - 1])
  }

  function Next(c: Machine, move: Move): Machine
    requires CanMove(c, move)
  {
    match move
    case Call(e) =>
      c.(live := Context(WithDispatch(Writes(e, c.k), Dispatches(e, c.k)) + [Leave, Return(c.live.flag)],
                         c.live.saved + [c.live.flag], false),
         dormant := if e.Spawn? then c.dormant[e.t := Context([], [], true)] else c.dormant)
    case Timer =>
      c.(live := Context(WithDispatch(TickWrites(c.k), true) + [Iret(c.live.flag)] + c.live.code, c.live.saved, false))
    case Execute =>
      var i, rest := c.live.code[0], c.live.(code := c.live.code[1..]);
      (match i
       case Enter => c.(live := rest.(saved := rest.saved + [rest.flag], flag := false))
       case Leave => c.(live := Restored(rest))
       case Iret(f) => c.(live := rest.(flag := f))
       case Return(f) => c.(live := rest)
       case Jump =>
         if c.k.curr == c.cpu then c.(live := rest)
         else Machine(c.k, c.k.curr, c.dormant[c.k.curr], (c.dormant - {c.k.curr})[c.cpu := rest])
       case _ => c.(k := Write(i, c.k), live := rest))
    case UserEnter => c.(live := c.live.(saved := c.live.saved + [c.live.flag], flag := false))
    case UserLeave => c.(live := Restored(c.live))
    case EnableInterrupts => c.(live := c.live.(flag := true))
  }

  // ---- what the pending code will have done ----

  /** The kernel state once the pending updates in `code` are carried out. */
  function Settle(code: seq<Instr>, k: S.State): S.State
    decreases |code|
  {
    if code == [] then k else Settle(code[1..], Write(code[0], k))
  }

  /** The state of the operation-level model that the machine stands for. */
  function Abs(c: Machine): S.State {
    Settle(c.live.code, c.k)
  }

  lemma {:induction false} SettleAppend(a: seq<Instr>, b: seq<Instr>, k: S.State)
    ensures Settle(a + b, k) == Settle(b, Settle(a, k))
    decreases |a|
  {
    if a == [] {
      assert a + b == b;
    } else {
      assert (a + b)[1..] == a[1..] + b;
      SettleAppend(a[1..], b, Write(a[0], k));
    }
  }

  /** Only flag handling is left: no update of the kernel state and no switch. */
  predicate Quiet(code: seq<Instr>) {
    forall i :: 0 <= i < |code| ==> code[i].Enter? || code[i].Leave? || code[i].Iret? || code[i].Return?
  }

  lemma {:induction false} QuietSettles(code: seq<Instr>, k: S.State)
    requires Quiet(code)
    ensures Settle(code, k) == k
    decreases |code|
  {
    if code != [] {
      assert Write(code[0], k) == k;
      QuietSettles(code[1..], k);
    }
  }

  // ---- each operation's code adds up to its step ----

  lemma SettleShort(ws: seq<Instr>, k: S.State)
    ensures |ws| == 0 ==> Settle(ws, k) == k
    ensures |ws| == 1 ==> Settle(ws, k) == Write(ws[0], k)
    ensures |ws| == 2 ==> Settle(ws, k) == Write(ws[1], Write(ws[0], k))
    ensures |ws| == 3 ==> Settle(ws, k) == Write(ws[2], Write(ws[1], Write(ws[0], k)))
    ensures |ws| == 4 ==> Settle(ws, k) == Write(ws[3], Write(ws[2], Write(ws[1], Write(ws[0], k))))
  {
    hide Write;
    if |ws| >= 2 {
      assert ws[1..][1..] == ws[2..];
    }
    if |ws| >= 3 {
      assert ws[2..][1..] == ws[3..];
    }
    if |ws| >= 4 {
      assert ws[3..][1..] == ws[4..];
    }
    if |ws| == 1 { assert ws[1..] == []; }
    if |ws| == 2 { assert ws[2..] == []; }
    if |ws| == 3 { assert ws[3..] == []; }
    if |ws| == 4 { assert ws[4..] == []; }
  }

  lemma DispatchSettles(ws: seq<Instr>, dispatch: bool, k: S.State)
    ensures Settle(WithDispatch(ws, dispatch), k) == if dispatch then S.Dispatch(Settle(ws, k)) else Settle(ws, k)
  {
    hide S.Dispatch;
    SettleAppend(ws, if dispatch then DISPATCH else [], k);
    SettleShort(DISPATCH, Settle(ws, k));
  }

  lemma LockMeans(k: S.State, m: nat)
    requires S.Enabled(k, S.Lock(m))
    ensures Settle(WithDispatch(Writes(S.Lock(m), k), Dispatches(S.Lock(m), k)), k) == S.Step(k, S.Lock(m))
  {
    hide S.Dispatch, S.SetBlock, WithDispatch;
    var x, ws := k.mutexes[m], Writes(S.Lock(m), k);
    DispatchSettles(ws, Dispatches(S.Lock(m), k), k);
    SettleShort(ws, k);
    if x.depth == 0 {
      var taken := x.(depth := 1, owner := k.curr);
      assert k.mutexes[m := x.(depth := 1)][m := taken] == k.mutexes[m := taken];
    } else if x.owner != k.curr {
      BlockFrame(k);
    }
  }

  lemma BlockFrame(k: S.State)
    ensures var k1 := S.SetBlock(k, k.curr); k1.curr == k.curr && k1.mutexes == k.mutexes && k1.sems == k.sems
  {
  }

  lemma UnlockMeans(k: S.State, m: nat)
    requires S.Enabled(k, S.Unlock(m))
    ensures Settle(WithDispatch(Writes(S.Unlock(m), k), Dispatches(S.Unlock(m), k)), k) == S.Step(k, S.Unlock(m))
  {
    hide S.Dispatch, WithDispatch;
    var x, ws := k.mutexes[m], Writes(S.Unlock(m), k);
    DispatchSettles(ws, false, k);
    if x.depth != 1 {
      SettleShort(ws, k);
    } else {
      var free := x.(depth := 0, owner := S.NULL);
      var a := [PutMutex(m, x.(depth := 0)), PutMutex(m, free)];
      SettleShort(a, k);
      var k1 := S.SetMutex(k, m, free);
      assert k.mutexes[m := x.(depth := 0)][m := free] == k.mutexes[m := free];
      if x.wait == [] {
        assert ws == a;
      } else {
        var t, w := x.wait[0], x.wait[1..];
        var b := [PutMutex(m, S.Mutex(S.NULL, 0, w)), MakeReady(t),
                  PutMutex(m, S.Mutex(t, 0, w)), PutMutex(m, S.Mutex(t, 1, w))];
        assert ws == a + b;
        SettleAppend(a, b, k);
        SettleShort(b, k1);
        HandOverSettles(k1, m, t, w);
        assert k1.mutexes[m := S.Mutex(t, 1, w)] == k.mutexes[m := S.Mutex(t, 1, w)];
      }
    }
  }

  lemma HandOverSettles(k: S.State, m: nat, t: S.Tid, w: seq<S.Tid>)
    requires m < |k.mutexes|
    ensures var k1 := S.SetReady(S.SetMutex(k, m, S.Mutex(S.NULL, 0, w)), t);
            && |k1.mutexes| == |k.mutexes|
            && S.SetMutex(S.SetMutex(k1, m, S.Mutex(t, 0, w)), m, S.Mutex(t, 1, w))
               == S.SetReady(S.SetMutex(k, m, S.Mutex(t, 1, w)), t)
  {
    var ms := k.mutexes;
    assert ms[m := S.Mutex(S.NULL, 0, w)][m := S.Mutex(t, 0, w)][m := S.Mutex(t, 1, w)] == ms[m := S.Mutex(t, 1, w)];
  }

  lemma WaitMeans(k: S.State, i: nat)
    requires S.Enabled(k, S.Wait(i))
    ensures Settle(WithDispatch(Writes(S.Wait(i), k), Dispatches(S.Wait(i), k)), k) == S.Step(k, S.Wait(i))
  {
    hide S.Dispatch, S.SetBlock, WithDispatch;
    DispatchSettles(Writes(S.Wait(i), k), Dispatches(S.Wait(i), k), k);
    SettleShort(Writes(S.Wait(i), k), k);
    BlockFrame(k);
  }

  lemma NotifyMeans(k: S.State, i: nat)
    requires S.Enabled(k, S.Notify(i))
    ensures Settle(WithDispatch(Writes(S.Notify(i), k), Dispatches(S.Notify(i), k)), k) == S.Step(k, S.Notify(i))
  {
    hide S.Dispatch, S.SetReady, WithDispatch;
    DispatchSettles(Writes(S.Notify(i), k), Dispatches(S.Notify(i), k), k);
    SettleShort(Writes(S.Notify(i), k), k);
  }

  lemma YieldMeans(k: S.State)
    requires S.Enabled(k, S.Yield)
    ensures Settle(WithDispatch(Writes(S.Yield, k), Dispatches(S.Yield, k)), k) == S.Step(k, S.Yield)
  {
    hide S.Dispatch, S.SetReady, S.SetBlock, WithDispatch;
    DispatchSettles(Writes(S.Yield, k), Dispatches(S.Yield, k), k);
    SettleShort(Writes(S.Yield, k), k);
  }

  lemma SleepMeans(k: S.State, ms: nat)
    requires S.Enabled(k, S.Sleep(ms))
    ensures Settle(WithDispatch(Writes(S.Sleep(ms), k), Dispatches(S.Sleep(ms), k)), k) == S.Step(k, S.Sleep(ms))
  {
    hide S.Dispatch, S.SetSleep, S.SetBlock, WithDispatch, S.SleepTicks;
    DispatchSettles(Writes(S.Sleep(ms), k), Dispatches(S.Sleep(ms), k), k);
    SettleShort(Writes(S.Sleep(ms), k), k);
    BlockFrame(k);
  }

  lemma SpawnMeans(k: S.State, t: S.Tid)
    requires S.Enabled(k, S.Spawn(t))
    ensures Settle(WithDispatch(Writes(S.Spawn(t), k), Dispatches(S.Spawn(t), k)), k) == S.Step(k, S.Spawn(t))
  {
    hide S.SetReady, WithDispatch;
    DispatchSettles(Writes(S.Spawn(t), k), Dispatches(S.Spawn(t), k), k);
    SettleShort(Writes(S.Spawn(t), k), k);
  }

  /** The updates of an operation, carried out one by one, add up to its step in the operation-level model. */
  lemma OperationSettles(k: S.State, e: S.Event)
    requires S.Enabled(k, e) && !e.Tick? && !e.NewMutex? && !e.NewSem?
    ensures Settle(WithDispatch(Writes(e, k), Dispatches(e, k)), k) == S.Step(k, e)
  {
    hide Settle, WithDispatch, S.Step;
    match e
    case Yield => YieldMeans(k);
    case Sleep(ms) => SleepMeans(k, ms);
    case Lock(m) => LockMeans(k, m);
    case Unlock(m) => UnlockMeans(k, m);
    case Wait(i) => WaitMeans(k, i);
    case Notify(i) => NotifyMeans(k, i);
    case Spawn(t) => SpawnMeans(k, t);
  }

  lemma ChargeSettles(k: S.State)
    ensures Settle(ChargeWrites(k), k) == S.ChargeSlice(k)
  {
    hide S.SetBlock, S.SetReady;
    SettleShort(ChargeWrites(k), k);
    if k.curr != S.IDLE && k.curr in k.tcb {
      var x := k.tcb[k.curr];
      var full := x.(slice := x.quantum);
      assert k.tcb[k.curr := x.(slice := 0)][k.curr := full] == k.tcb[k.curr := full];
      BlockFrame(k.(tcb := k.tcb[k.curr := x.(slice := x.quantum)]));
    }
  }

  lemma OneSleeperSettles(k: S.State, t: S.Tid)
    requires t in k.tcb
    ensures Settle(SleeperWrites(t, k.tcb), k) == S.WakeOne(k, t)
  {
    hide S.SetReady, Settle, S.Relabel;
    SettleShort(SleeperWrites(t, k.tcb), k);
  }

  lemma SleeperUntouched(k: S.State, j: nat)
    requires j < |k.sleep| && Distinct(k.sleep) && forall t :: t in k.sleep ==> t in k.tcb
    ensures var t := k.sleep[j]; t in I.AfterTurns(k, j).tcb && I.AfterTurns(k, j).tcb[t] == k.tcb[t]
  {
  }

  lemma {:induction false} SleepersSettle(k: S.State, j: nat)
    requires j <= |k.sleep| && Distinct(k.sleep) && forall t :: t in k.sleep ==> t in k.tcb
    ensures Settle(WakeWrites(k.sleep[..j], k.tcb), k) == I.AfterTurns(k, j)
  {
    hide I.AfterTurns, S.WakeOne, Settle;
    if j == 0 {
      NoSleepers(k);
    } else {
      SleepersSettle(k, j - 1);
      var t, q, k1 := k.sleep[j - 1], k.sleep[..j], I.AfterTurns(k, j - 1);
      assert q[..j - 1] == k.sleep[..j - 1];
      SleeperUntouched(k, j - 1);
      SettleAppend(WakeWrites(q[..j - 1], k.tcb), SleeperWrites(t, k.tcb), k);
      assert SleeperWrites(t, k.tcb) == SleeperWrites(t, k1.tcb);
      OneSleeperSettles(k1, t);
      I.OneTurn(k, j - 1);
    }
  }

  lemma NoSleepers(k: S.State)
    ensures Settle(WakeWrites(k.sleep[..0], k.tcb), k) == I.AfterTurns(k, 0)
  {
    I.TurnsAtStart(k);
  }

  /** The updates of the timer handler add up to one tick. */
  lemma TickSettles(k: S.State)
    requires S.Inv(k)
    ensures Settle(WithDispatch(TickWrites(k), true), k) == S.Step(k, S.Tick)
  {
    hide S.Inv, I.AfterTurns, S.WakeEach, Settle, WakeWrites, ChargeWrites, S.ChargeSlice, S.Dispatch, S.WakeSleepers,
      S.TasksOk, S.Conserved, S.LocksOk, S.TcbOk;
    var k1 := S.ChargeSlice(k);
    I.ChargeSliceRests(k);
    I.SleepersKnown(k1);
    ChargeSettles(k);
    SleepersSettle(k1, |k1.sleep|);
    I.LoopWakesSleepers(k1);
    I.TurnsSoFar(k1, |k1.sleep|);
    assert k1.sleep[..|k1.sleep|] == k1.sleep;
    SettleAppend(ChargeWrites(k), WakeWrites(k1.sleep, k1.tcb), k);
    DispatchSettles(TickWrites(k), true, k);
  }

  // ---- the interrupt flag ----

  /** The pending code never runs out of saved flags, updates the kernel state only with interrupts off, and ends every
      operation with the flag the operation was entered with. */
  predicate FlagsOk(code: seq<Instr>, saved: seq<bool>, flag: bool)
    decreases |code|
  {
    code == [] ||
    match code[0]
    case Enter => FlagsOk(code[1..], saved + [flag], false)
    case Leave => saved != [] && FlagsOk(code[1..], saved[..|saved| - 1], saved[|saved| - 1])
    case Iret(f) => FlagsOk(code[1..], saved, f)
    case Return(f) => flag == f && FlagsOk(code[1..], saved, flag)
    case _ => !flag && FlagsOk(code[1..], saved, flag)
  }

  /** Updates first, then at most one dispatch, then flag handling only. */
  predicate Shape(code: seq<Instr>)
    decreases |code|
  {
    || Quiet(code)
    || (|code| >= 1 && IsWrite(code[0]) && Shape(code[1..]))
    || (|code| >= 3 && code[0].Enter? && code[1].Pick? && code[2].Jump? && Quiet(code[3..]))
    || (|code| >= 2 && code[0].Pick? && code[1].Jump? && Quiet(code[2..]))
    || (|code| >= 1 && code[0].Jump? && Quiet(code[1..]))
  }

  predicate AllWrites(ws: seq<Instr>) {
    forall i :: 0 <= i < |ws| ==> IsWrite(ws[i])
  }

  lemma OperationWrites(e: S.Event, k: S.State)
    requires S.Enabled(k, e)
    ensures AllWrites(Writes(e, k))
  {
  }

  lemma TickWritesOnly(k: S.State)
    ensures AllWrites(TickWrites(k))
  {
    hide S.ChargeSlice;
    WakeWritesOnly(S.ChargeSlice(k).sleep, S.ChargeSlice(k).tcb);
  }

  lemma {:induction false} WakeWritesOnly(q: seq<S.Tid>, tcb: map<S.Tid, S.Tcb>)
    ensures AllWrites(WakeWrites(q, tcb))
  {
    if q != [] {
      WakeWritesOnly(q[..|q| - 1], tcb);
    }
  }

  /** Updates and a dispatch put in front of quiet code that is fine with interrupts off. */
  lemma {:induction false} PrefixOk(ws: seq<Instr>, dispatch: bool, rest: seq<Instr>, saved: seq<bool>)
    requires AllWrites(ws) && Quiet(rest) && FlagsOk(rest, saved, false)
    ensures Shape(WithDispatch(ws, dispatch) + rest) && FlagsOk(WithDispatch(ws, dispatch) + rest, saved, false)
    decreases |ws|
  {
    var code := WithDispatch(ws, dispatch) + rest;
    if ws == [] {
      if dispatch {
        DispatchOk(rest, saved);
        assert code == DISPATCH + rest;
      } else {
        assert code == rest;
      }
    } else {
      PrefixOk(ws[1..], dispatch, rest, saved);
      assert code[1..] == WithDispatch(ws[1..], dispatch) + rest;
      assert code[0] == ws[0] && IsWrite(ws[0]);
    }
  }

  lemma DispatchOk(rest: seq<Instr>, saved: seq<bool>)
    requires Quiet(rest) && FlagsOk(rest, saved, false)
    ensures Shape(DISPATCH + rest) && FlagsOk(DISPATCH + rest, saved, false)
  {
    var code := DISPATCH + rest;
    assert code[3..] == [Leave] + rest;
    assert code[1..][1..] == code[2..] && code[2..][1..] == code[3..] && code[3..][1..] == rest;
    assert (saved + [false])[..|saved|] == saved;
    assert FlagsOk(code[3..], saved + [false], false);
    assert FlagsOk(code[2..], saved + [false], false);
    assert FlagsOk(code[1..], saved + [false], false);
  }

  /** The flags a task has once its pending code is done. */
  function Unwound(x: Context): Context
    decreases |x.code|
  {
    if x.code == [] then x
    else
      var rest := x.(code := x.code[1..]);
      match x.code[0]
      case Enter => Unwound(rest.(saved := x.saved + [x.flag], flag := false))
      case Leave => if x.saved == [] then Unwound(rest) else Unwound(Restored(rest))
      case Iret(f) => Unwound(rest.(flag := f))
      case _ => Unwound(rest)
  }

  lemma {:induction false} UnwoundPrefix(ws: seq<Instr>, dispatch: bool, rest: seq<Instr>, saved: seq<bool>)
    requires AllWrites(ws)
    ensures Unwound(Context(WithDispatch(ws, dispatch) + rest, saved, false)) == Unwound(Context(rest, saved, false))
    decreases |ws|
  {
    var code := WithDispatch(ws, dispatch) + rest;
    if ws == [] {
      if dispatch {
        assert code == DISPATCH + rest;
        UnwoundDispatch(rest, saved);
      } else {
        assert code == rest;
      }
    } else {
      UnwoundPrefix(ws[1..], dispatch, rest, saved);
      assert code[1..] == WithDispatch(ws[1..], dispatch) + rest;
      assert code[0] == ws[0] && IsWrite(ws[0]);
    }
  }

  lemma UnwoundDispatch(rest: seq<Instr>, saved: seq<bool>)
    ensures Unwound(Context(DISPATCH + rest, saved, false)) == Unwound(Context(rest, saved, false))
  {
    var code, inner := DISPATCH + rest, saved + [false];
    assert code[1..][1..] == code[2..] && code[2..][1..] == code[3..] && code[3..][1..] == rest;
    assert inner[..|inner| - 1] == saved;
    assert Unwound(Context(code[3..], inner, false)) == Unwound(Context(rest, saved, false));
    assert Unwound(Context(code[2..], inner, false)) == Unwound(Context(code[3..], inner, false));
    assert Unwound(Context(code[1..], inner, false)) == Unwound(Context(code[2..], inner, false));
  }

  // ---- the machine invariant ----

  predicate AtJump(x: Context) {
    x.code != [] && x.code[0].Jump?
  }

  predicate LiveOk(x: Context) {
    Shape(x.code) && FlagsOk(x.code, x.saved, x.flag) && (x.flag ==> Quiet(x.code))
  }

  predicate DormantOk(x: Context) {
    Quiet(x.code) && FlagsOk(x.code, x.saved, x.flag)
  }

  /** Every task but the one on the processor, and idle, has a dormant context. */
  ghost predicate Housed(tasks: seq<S.Tid>, cpu: S.Tid, dormant: map<S.Tid, Context>) {
    && (cpu == S.IDLE || cpu in tasks)
    && (forall t :: t in dormant <==> t != cpu && (t == S.IDLE || t in tasks))
  }

  ghost predicate MachineOk(c: Machine) {
    && S.Inv(Abs(c))
    && LiveOk(c.live)
    && (!AtJump(c.live) ==> c.cpu == c.k.curr)
    && Housed(Abs(c).tasks, c.cpu, c.dormant)
    && (forall t :: t in c.dormant ==> DormantOk(c.dormant[t]))
  }

  /** Interrupts on means a consistent kernel: nothing is half done, and the processor runs the current task. */
  lemma FlagMeansConsistent(c: Machine)
    requires MachineOk(c) && c.live.flag
    ensures S.Inv(c.k) && c.k == Abs(c) && c.cpu == c.k.curr
  {
    QuietSettles(c.live.code, c.k);
  }

  /** Pending code can always run: no saved flag is missing, and the task to jump to has a context. */
  lemma NeverStuck(c: Machine)
    requires MachineOk(c) && c.live.code != []
    ensures CanMove(c, Execute)
  {
    if AtJump(c.live) {
      JumpIsLast(c);
    }
  }

  lemma JumpIsLast(c: Machine)
    requires MachineOk(c) && AtJump(c.live)
    ensures Quiet(c.live.code[1..]) && Abs(c) == c.k && S.Inv(c.k) && !c.live.flag
    ensures c.k.curr == S.IDLE || c.k.curr in c.k.tasks
  {
    var code := c.live.code;
    assert Quiet(code[1..]) by {
      assert code[0].Jump? && Shape(code);
    }
    assert Write(code[0], c.k) == c.k;
    QuietSettles(code[1..], c.k);
    if c.k.ready != [] {
      I.ReadyOnly(c.k, c.k.ready[0]);
    }
  }

  /** What a move means in the operation-level model. */
  ghost predicate Projects(c: Machine, move: Move, c1: Machine) {
    match move
    case Call(e) => S.Enabled(Abs(c), e) && Abs(c1) == S.Step(Abs(c), e)
    case Timer => Abs(c1) == S.Step(Abs(c), S.Tick)
    case _ => Abs(c1) == Abs(c)
  }

  lemma StepTasks(k: S.State, e: S.Event)
    requires S.Enabled(k, e)
    ensures S.Step(k, e).tasks == if e.Spawn? then k.tasks + [e.t] else k.tasks
  {
  }

  lemma CallKeeps(c: Machine, e: S.Event)
    requires MachineOk(c) && CanMove(c, Call(e))
    ensures MachineOk(Next(c, Call(e))) && Projects(c, Call(e), Next(c, Call(e)))
  {
    hide S.Inv, S.Step, Settle, Writes, Dispatches, WithDispatch, Shape, FlagsOk, Quiet;
    var ws, d, f := Writes(e, c.k), Dispatches(e, c.k), c.live.flag;
    EmptyCode(c);
    OperationSettles(c.k, e);
    EndSettles(WithDispatch(ws, d), f, c.k);
    I.StepKeeps(c.k, e);
    StepTasks(c.k, e);
    OperationWrites(e, c.k);
    EndOk(f, c.live.saved);
    PrefixOk(ws, d, [Leave, Return(f)], c.live.saved + [f]);
    CallAtHead(c.k, e, f);
    FreshContextOk();
  }

  lemma EmptyCode(c: Machine)
    requires MachineOk(c) && c.live.code == []
    ensures Abs(c) == c.k && c.cpu == c.k.curr
  {
  }

  lemma FreshContextOk()
    ensures DormantOk(Context([], [], true))
  {
  }

  lemma EndSettles(code: seq<Instr>, f: bool, k: S.State)
    ensures Settle(code + [Leave, Return(f)], k) == Settle(code, k)
  {
    SettleAppend(code, [Leave, Return(f)], k);
    QuietSettles([Leave, Return(f)], Settle(code, k));
  }

  lemma EndOk(f: bool, saved: seq<bool>)
    ensures Quiet([Leave, Return(f)]) && FlagsOk([Leave, Return(f)], saved + [f], false)
  {
    var code, s1 := [Leave, Return(f)], saved + [f];
    assert s1[..|s1| - 1] == saved && code[1..] == [Return(f)];
    assert FlagsOk(code[1..], saved, f) by {
      assert code[1..][1..] == [];
    }
  }

  lemma CallAtHead(k: S.State, e: S.Event, f: bool)
    requires S.Enabled(k, e)
    ensures !AtJump(Context(WithDispatch(Writes(e, k), Dispatches(e, k)) + [Leave, Return(f)], [], false))
  {
    hide S.SleepTicks;
    OperationWrites(e, k);
    WritesAtHead(Writes(e, k), Dispatches(e, k), [Leave, Return(f)]);
  }

  lemma WritesAtHead(ws: seq<Instr>, d: bool, rest: seq<Instr>)
    requires AllWrites(ws) && (rest == [] || !rest[0].Jump?)
    ensures var code := WithDispatch(ws, d) + rest; code == [] || !code[0].Jump?
  {
    var code := WithDispatch(ws, d) + rest;
    if ws != [] {
      assert code[0] == ws[0] && IsWrite(ws[0]);
    } else if !d {
      assert code == rest;
    }
  }

  lemma TimerKeeps(c: Machine)
    requires MachineOk(c) && CanMove(c, Timer)
    ensures MachineOk(Next(c, Timer)) && Projects(c, Timer, Next(c, Timer))
  {
    hide S.Inv, S.Step, Settle, TickWrites, WithDispatch, Shape, FlagsOk;
    var ws, f, code := TickWrites(c.k), c.live.flag, c.live.code;
    var rest := [Iret(f)] + code;
    var all := WithDispatch(ws, true) + [Iret(f)] + code;
    assert all == WithDispatch(ws, true) + rest;
    FlagMeansConsistent(c);
    TickSettles(c.k);
    SettleAppend(WithDispatch(ws, true), rest, c.k);
    QuietSettles(rest, Settle(WithDispatch(ws, true), c.k));
    I.StepKeeps(c.k, S.Tick);
    StepTasks(c.k, S.Tick);
    TickWritesOnly(c.k);
    IretOk(f, code, c.live.saved);
    PrefixOk(ws, true, rest, c.live.saved);
    WritesAtHead(ws, true, rest);
  }

  lemma IretOk(f: bool, code: seq<Instr>, saved: seq<bool>)
    requires FlagsOk(code, saved, f)
    ensures FlagsOk([Iret(f)] + code, saved, false)
  {
    assert ([Iret(f)] + code)[1..] == code;
  }

  /** A pending update: the machine does it now, and the state it stands for stays the same. */
  lemma UpdateKeeps(c: Machine)
    requires MachineOk(c) && c.live.code != [] && (IsWrite(c.live.code[0]) || c.live.code[0].Pick?)
    ensures MachineOk(Next(c, Execute)) && Abs(Next(c, Execute)) == Abs(c)
  {
    hide S.Inv, Write, Settle;
    var i, rest := c.live.code[0], c.live.code[1..];
    UpdateSettles(c.live.code, c.k);
    assert Shape(rest) && FlagsOk(rest, c.live.saved, false) && !c.live.flag;
    if !i.Pick? {
      WriteKeepsCurrent(i, c.k);
    }
  }

  lemma UpdateSettles(code: seq<Instr>, k: S.State)
    requires code != []
    ensures Settle(code, k) == Settle(code[1..], Write(code[0], k))
  {
  }

  lemma WriteKeepsCurrent(i: Instr, k: S.State)
    requires IsWrite(i)
    ensures Write(i, k).curr == k.curr
  {
  }

  /** Saving, restoring and returning touch only the running task's own flags. */
  lemma FlagStepKeeps(c: Machine)
    requires MachineOk(c) && c.live.code != []
    requires var i := c.live.code[0]; i.Enter? || i.Leave? || i.Iret? || i.Return?
    ensures MachineOk(Next(c, Execute)) && Abs(Next(c, Execute)) == Abs(c)
  {
    hide S.Inv, Settle;
    var i, rest := c.live.code[0], c.live.code[1..];
    UpdateSettles(c.live.code, c.k);
    if !i.Enter? {
      assert Quiet(c.live.code) by {
        assert Shape(c.live.code);
      }
    } else if Quiet(c.live.code) {
      assert Quiet(rest);
    } else {
      assert rest[0].Pick? && rest[1..][0].Jump? && rest[2..] == c.live.code[3..];
    }
  }

  /** The switch: the chosen task's context comes off the shelf and the running one's goes on it. */
  lemma JumpKeeps(c: Machine)
    requires MachineOk(c) && AtJump(c.live) && CanMove(c, Execute)
    ensures MachineOk(Next(c, Execute)) && Abs(Next(c, Execute)) == Abs(c)
  {
    hide S.Inv, Settle;
    JumpIsLast(c);
    var c1 := Next(c, Execute);
    assert FlagsOk(c.live.code[1..], c.live.saved, c.live.flag);
    QuietSettles(c1.live.code, c1.k);
  }

  /** Every move keeps the machine invariant, and is one step, or none, of the operation-level model. */
  lemma MoveKeeps(c: Machine, move: Move)
    requires MachineOk(c) && CanMove(c, move)
    ensures MachineOk(Next(c, move)) && Projects(c, move, Next(c, move))
  {
    hide S.Inv, S.Step, Shape, FlagsOk, Settle, Housed;
    match move
    case Call(e) => CallKeeps(c, e);
    case Timer => TimerKeeps(c);
    case Execute =>
      var i := c.live.code[0];
      if i.Jump? {
        JumpKeeps(c);
      } else if IsWrite(i) || i.Pick? {
        UpdateKeeps(c);
      } else {
        FlagStepKeeps(c);
      }
    case _ => BetweenOperations(c, move);
  }

  lemma BetweenOperations(c: Machine, move: Move)
    requires MachineOk(c) && CanMove(c, move) && (move.UserEnter? || move.UserLeave? || move.EnableInterrupts?)
    ensures MachineOk(Next(c, move)) && Abs(Next(c, move)) == Abs(c)
  {
    hide S.Inv;
    EmptyCode(c);
  }

  // ---- runs of the machine ----

  ghost predicate CanRun(c: Machine, moves: seq<Move>)
    decreases |moves|
  {
    moves == [] || (CanMove(c, moves[0]) && CanRun(Next(c, moves[0]), moves[1..]))
  }

  ghost function After(c: Machine, moves: seq<Move>): Machine
    requires CanRun(c, moves)
    decreases |moves|
  {
    if moves == [] then c else After(Next(c, moves[0]), moves[1..])
  }

  /** The operations and ticks among the moves. */
  function Events(moves: seq<Move>): seq<S.Event> {
    if moves == [] then []
    else
      match moves[0]
      case Call(e) => [e] + Events(moves[1..])
      case Timer => [S.Tick] + Events(moves[1..])
      case _ => Events(moves[1..])
  }

  /** Refinement: whatever the interleaving of single updates, switches and timer interrupts, the machine's run is a
      run of the operation-level model, so every theorem about those runs holds of it. */
  lemma {:induction false} MachineRefines(c: Machine, moves: seq<Move>)
    requires MachineOk(c) && CanRun(c, moves)
    ensures MachineOk(After(c, moves))
    ensures S.Legal(Abs(c), Events(moves)) && S.Run(Abs(c), Events(moves)) == Abs(After(c, moves))
    decreases |moves|
  {
    hide S.Step, Abs, MachineOk, S.Enabled;
    if moves != [] {
      var c1 := Next(c, moves[0]);
      MoveKeeps(c, moves[0]);
      MachineRefines(c1, moves[1..]);
      TickEnabled(Abs(c));
      var es := Events(moves);
      if moves[0].Call? || moves[0].Timer? {
        assert es[1..] == Events(moves[1..]);
      }
    }
  }

  lemma TickEnabled(k: S.State)
    ensures S.Enabled(k, S.Tick)
  {
  }

  /** After `task_main_init`: main runs with interrupts off, and idle has never run. */
  ghost predicate Boot(c: Machine) {
    && S.Initial(c.k)
    && c.cpu == c.k.curr
    && c.live == Context([], [], false)
    && c.dormant == map[S.IDLE := Context([], [], true)]
  }

  lemma BootOk(c: Machine)
    requires Boot(c)
    ensures MachineOk(c)
  {
    I.InitialInv(c.k);
    assert FlagsOk([], [], true);
  }

  /** In every run from boot: whenever interrupts are on, the kernel state is consistent and its current task is the one
      on the processor, also right after a switch to a task that has never run. */
  lemma SafeWheneverInterruptible(c: Machine, moves: seq<Move>)
    requires Boot(c) && CanRun(c, moves)
    ensures var c1 := After(c, moves); c1.live.flag ==> S.Inv(c1.k) && c1.k.curr == c1.cpu
    ensures var c1 := After(c, moves); c1.live.flag ==> S.Legal(c.k, Events(moves)) && c1.k == S.Run(c.k, Events(moves))
    ensures var c1 := After(c, moves); c1.live.code != [] ==> CanMove(c1, Execute)
  {
    hide S.Inv, S.Run, S.Legal, CanRun, After;
    BootOk(c);
    MachineRefines(c, moves);
    var c1 := After(c, moves);
    if c1.live.flag {
      FlagMeansConsistent(c1);
    }
    if c1.live.code != [] {
      NeverStuck(c1);
    }
  }

  /** The move that makes event number `i` of a run, and the run up to it. */
  lemma {:induction false} EventMove(c: Machine, moves: seq<Move>, i: nat) returns (j: nat)
    requires CanRun(c, moves) && i < |Events(moves)|
    ensures j < |moves| && CanRun(c, moves[..j]) && Events(moves[..j]) == Events(moves)[..i]
    ensures (moves[j].Call? || moves[j].Timer?) && CanMove(After(c, moves[..j]), moves[j])
    decreases |moves|
  {
    hide CanMove, Next;
    var event := moves[0].Call? || moves[0].Timer?;
    if event && i == 0 {
      j := 0;
      assert moves[..0] == [];
    } else {
      var k := EventMove(Next(c, moves[0]), moves[1..], if event then i - 1 else i);
      j := k + 1;
      assert moves[..j][1..] == moves[1..][..k] && moves[..j][0] == moves[0];
    }
  }

  /** Just before a call or a timer interrupt the processor runs the current task, and nothing is half done. */
  lemma SettledBeforeEvent(c: Machine, move: Move)
    requires MachineOk(c) && CanMove(c, move) && (move.Call? || move.Timer?)
    ensures c.cpu == c.k.curr == Abs(c).curr
  {
    if move.Timer? {
      FlagMeansConsistent(c);
    } else {
      EmptyCode(c);
    }
  }

  /** Within the first `bound` timer interrupts of `moves` the processor at some point executes `t`, the current
      task. */
  ghost predicate OnProcessorWithin(c: Machine, moves: seq<Move>, t: S.Tid, bound: int) {
    exists j :: 0 <= j < |moves| && CanRun(c, moves[..j]) && R.Ticks(Events(moves[..j])) <= bound &&
                After(c, moves[..j]).cpu == t && After(c, moves[..j]).k.curr == t
  }

  /** A task chosen within `bound` ticks of the events is on the processor then, if the run goes on past them. */
  lemma ChosenIsExecuted(c: Machine, moves: seq<Move>, t: S.Tid, bound: int)
    requires MachineOk(c) && CanRun(c, moves) && R.RunsWithin(Abs(c), Events(moves), t, bound)
    requires R.Ticks(Events(moves)) > bound
    ensures OnProcessorWithin(c, moves, t, bound)
  {
    hide CanRun, After, Abs, MachineOk;
    var s, es := Abs(c), Events(moves);
    var i :| 0 <= i <= |es| && S.Legal(s, es[..i]) && R.Ticks(es[..i]) <= bound && S.Run(s, es[..i]).curr == t;
    assert es[..|es|] == es;
    var j := EventMove(c, moves, i);
    MachineRefines(c, moves[..j]);
    SettledBeforeEvent(After(c, moves[..j]), moves[j]);
  }

  /** Bounded waiting at this grain: after any interleaving from boot, the task at position `k` of the ready list is
      chosen within the first `10 * k` timer interrupts of any interleaving that follows, and on the processor by the
      next event after that. */
  lemma InterleavedWaiting(c: Machine, past: seq<Move>, more: seq<Move>, k: nat)
    requires Boot(c) && CanRun(c, past) && CanRun(After(c, past), more)
    requires k < |Abs(After(c, past)).ready| && R.Ticks(Events(more)) >= 10 * k
    ensures var s := Abs(After(c, past));
            S.Legal(s, Events(more)) && R.RunsWithin(s, Events(more), s.ready[k], 10 * k)
    ensures R.Ticks(Events(more)) > 10 * k ==>
              OnProcessorWithin(After(c, past), more, Abs(After(c, past)).ready[k], 10 * k)
  {
    hide S.Inv, S.Run, S.Legal, CanRun, After, Abs, R.RunsWithin, OnProcessorWithin;
    BootOk(c);
    MachineRefines(c, past);
    var c1, es := After(c, past), Events(more);
    var s, t, bound := Abs(c1), Abs(c1).ready[k], 10 * k;
    MachineRefines(c1, more);
    R.PositionBounds(s, k);
    R.RunsInTurn(s, es, t);
    R.RunsWithinWeaken(s, es, t, R.Ahead(s.ready, s.tcb, t), bound);
    if R.Ticks(es) > bound {
      ChosenIsExecuted(c1, more, t, bound);
    }
  }

  // ---- a task's own flags ----

  function ContextOf(c: Machine, t: S.Tid): Context
    requires t == c.cpu || t in c.dormant
  {
    if t == c.cpu then c.live else c.dormant[t]
  }

  predicate Known(c: Machine, t: S.Tid) {
    t == c.cpu || t in c.dormant
  }

  /** A move by which the running task itself chooses to change its interrupt flag. */
  predicate OwnFlagMove(move: Move) {
    move.UserEnter? || move.UserLeave? || move.EnableInterrupts?
  }

  /** Operations, interrupts and switches, by any task, leave the flags `t` will have when its pending code is done. */
  lemma MoveKeepsFlags(c: Machine, move: Move, t: S.Tid)
    requires MachineOk(c) && CanMove(c, move) && Known(c, t) && (OwnFlagMove(move) ==> t != c.cpu)
    ensures Known(Next(c, move), t) && Unwound(ContextOf(Next(c, move), t)) == Unwound(ContextOf(c, t))
  {
    hide S.Inv, Abs, Shape, Unwound, WithDispatch, Writes, TickWrites;
    match move
    case Call(e) =>
      if t == c.cpu {
        CallFlags(c, e);
      } else if e.Spawn? {
        SpawnedUnknown(c, e.t);
      }
    case Timer => TimerFlags(c);
    case Execute => ExecuteFlags(c, t);
    case _ =>
  }

  lemma CallFlags(c: Machine, e: S.Event)
    requires MachineOk(c) && CanMove(c, Call(e))
    ensures Unwound(Next(c, Call(e)).live) == Unwound(c.live)
  {
    hide S.Inv, S.Enabled, Shape, WithDispatch, Writes, Dispatches;
    var f, saved := c.live.flag, c.live.saved;
    OperationWrites(e, c.k);
    UnwoundPrefix(Writes(e, c.k), Dispatches(e, c.k), [Leave, Return(f)], saved + [f]);
    EndUnwound(f, saved);
  }

  lemma EndUnwound(f: bool, saved: seq<bool>)
    ensures Unwound(Context([Leave, Return(f)], saved + [f], false)) == Context([], saved, f)
  {
    var code, s1 := [Leave, Return(f)], saved + [f];
    assert s1[..|s1| - 1] == saved && code[1..] == [Return(f)] && code[1..][1..] == [];
    assert Unwound(Context([Return(f)], saved, f)) == Context([], saved, f);
  }

  lemma TimerFlags(c: Machine)
    requires MachineOk(c) && CanMove(c, Timer)
    ensures Unwound(Next(c, Timer).live) == Unwound(c.live)
  {
    hide S.Inv, Shape, WithDispatch, TickWrites;
    var code, f := c.live.code, c.live.flag;
    var rest := [Iret(f)] + code;
    assert WithDispatch(TickWrites(c.k), true) + [Iret(f)] + code == WithDispatch(TickWrites(c.k), true) + rest;
    TickWritesOnly(c.k);
    UnwoundPrefix(TickWrites(c.k), true, rest, c.live.saved);
    assert rest[1..] == code;
  }

  lemma SpawnedUnknown(c: Machine, t: S.Tid)
    requires MachineOk(c) && CanMove(c, Call(S.Spawn(t)))
    ensures !Known(c, t)
  {
    hide S.Inv;
    EmptyCode(c);
  }

  lemma ExecuteFlags(c: Machine, t: S.Tid)
    requires CanMove(c, Execute) && Known(c, t)
    ensures Known(Next(c, Execute), t) && Unwound(ContextOf(Next(c, Execute), t)) == Unwound(ContextOf(c, t))
  {
    hide Write;
  }

  /** No move in the run is `t` changing its own flag. */
  ghost predicate LeavesFlagsAlone(c: Machine, moves: seq<Move>, t: S.Tid)
    requires CanRun(c, moves)
    decreases |moves|
  {
    moves == [] ||
    ((OwnFlagMove(moves[0]) ==> t != c.cpu) && LeavesFlagsAlone(Next(c, moves[0]), moves[1..], t))
  }

  /** Whatever operations a task calls, however often it is interrupted and switched away from, once it is back in its
      own code its interrupt flag and the flags it had saved are what they were. */
  lemma {:induction false} FlagsSurvive(c: Machine, moves: seq<Move>, t: S.Tid)
    requires MachineOk(c) && CanRun(c, moves) && Known(c, t) && LeavesFlagsAlone(c, moves, t)
    ensures var c1 := After(c, moves);
            Known(c1, t) && Unwound(ContextOf(c1, t)) == Unwound(ContextOf(c, t)) &&
            (ContextOf(c, t).code == [] && ContextOf(c1, t).code == [] ==> ContextOf(c1, t) == ContextOf(c, t))
    decreases |moves|
  {
    hide MachineOk, Next, CanMove, ContextOf, Known;
    if moves != [] {
      MoveKeeps(c, moves[0]);
      MoveKeepsFlags(c, moves[0], t);
      FlagsSurvive(Next(c, moves[0]), moves[1..], t);
    }
  }

  lemma ReturnUnwinds(f: bool, x: Context)
    requires x.code == [Return(f)] && FlagsOk(x.code, x.saved, x.flag)
    ensures x.flag == f && Unwound(x) == Context([], x.saved, x.flag)
  {
    assert x.code[1..] == [];
  }

  /** An operation returns with the interrupt flag it was entered with: in every run from boot, a task that calls an
      operation and later stands at its return, after any interrupts and switches, has the flag and the saved flags it
      had at the call. */
  lemma ReturnsWithEntryFlag(c: Machine, past: seq<Move>, e: S.Event, more: seq<Move>, f: bool)
    requires Boot(c) && CanRun(c, past) && CanMove(After(c, past), Call(e))
    requires CanRun(Next(After(c, past), Call(e)), more)
    requires LeavesFlagsAlone(Next(After(c, past), Call(e)), more, After(c, past).cpu)
    requires var c2 := After(Next(After(c, past), Call(e)), more);
             c2.cpu == After(c, past).cpu && c2.live.code == [Return(f)]
    ensures var x, y := After(c, past).live, After(Next(After(c, past), Call(e)), more).live;
            y.flag == f == x.flag && y.saved == x.saved
  {
    hide S.Inv, CanRun, After, LeavesFlagsAlone, Next, CanMove, Abs, Unwound, FlagsOk;
    BootOk(c);
    MachineRefines(c, past);
    var c1 := After(c, past);
    var t, called := c1.cpu, Next(c1, Call(e));
    CallSettles(c1, e);
    FlagsSurvive(called, more, t);
    MachineRefines(called, more);
    ReturnUnwinds(f, After(called, more).live);
  }

  lemma CallSettles(c: Machine, e: S.Event)
    requires MachineOk(c) && CanMove(c, Call(e))
    ensures var c1 := Next(c, Call(e));
            MachineOk(c1) && c1.cpu == c.cpu && Known(c1, c.cpu) && c.live.code == [] &&
            Unwound(ContextOf(c1, c.cpu)) == c.live
  {
    hide S.Inv, Writes, Dispatches, WithDispatch, MachineOk;
    MoveKeeps(c, Call(e));
    CallFlags(c, e);
  }

  // ---- the first run of a task ----

  /** `t` is on the processor at no point of the run. */
  ghost predicate NeverOn(c: Machine, moves: seq<Move>, t: S.Tid)
    requires CanRun(c, moves)
    decreases |moves|
  {
    t != c.cpu && (moves == [] || NeverOn(Next(c, moves[0]), moves[1..], t))
  }

  /** `t` waits off the processor as a task whose code has never run: it has no kernel code to finish and no saved
      flags, and starts with interrupts on. */
  ghost predicate Unstarted(c: Machine, t: S.Tid) {
    t in c.dormant && c.dormant[t].code == [] && c.dormant[t].saved == [] && c.dormant[t].flag
  }

  lemma UnstartedKept(c: Machine, move: Move, t: S.Tid)
    requires CanMove(c, move) && Unstarted(c, t) && t != c.cpu && Next(c, move).cpu != t
    ensures Unstarted(Next(c, move), t)
  {
    hide Writes, Dispatches, TickWrites, WithDispatch, S.Enabled, Write;
  }

  lemma {:induction false} StaysUnstarted(c: Machine, moves: seq<Move>, t: S.Tid)
    requires CanRun(c, moves) && Unstarted(c, t) && NeverOn(c, moves, t)
    ensures Unstarted(After(c, moves), t) && After(c, moves).cpu != t
    decreases |moves|
  {
    hide CanMove, Next, Unstarted;
    if moves != [] {
      UnstartedKept(c, moves[0], t);
      StaysUnstarted(Next(c, moves[0]), moves[1..], t);
    }
  }

  /** A switch to a task that has never run starts its code with interrupts on, so that the timer can interrupt it. */
  lemma FirstSwitch(c: Machine, move: Move, t: S.Tid)
    requires MachineOk(c) && CanMove(c, move) && Unstarted(c, t) && c.cpu != t && Next(c, move).cpu == t
    ensures var c1 := Next(c, move);
            c1.live.flag && c1.live.code == [] && c1.live.saved == [] && CanMove(c1, Timer) && c1.k.curr == t
  {
    hide Writes, Dispatches, TickWrites, WithDispatch, S.Enabled, Write, S.Inv, Abs, Shape, FlagsOk, Quiet;
  }

  lemma SpawnedUnstarted(c: Machine, t: S.Tid)
    requires MachineOk(c) && CanMove(c, Call(S.Spawn(t)))
    ensures var c1 := Next(c, Call(S.Spawn(t))); Unstarted(c1, t) && c1.cpu != t
  {
    hide S.Inv, Writes, Dispatches, WithDispatch;
    SpawnedUnknown(c, t);
  }

  /** In every run from boot: a task made by `task_init` gets the processor for the first time with interrupts on and
      nothing else to do than its own code. */
  lemma FreshTaskInterruptible(c: Machine, past: seq<Move>, t: S.Tid, more: seq<Move>, move: Move)
    requires Boot(c) && CanRun(c, past) && CanMove(After(c, past), Call(S.Spawn(t)))
    requires CanRun(Next(After(c, past), Call(S.Spawn(t))), more)
    requires NeverOn(Next(After(c, past), Call(S.Spawn(t))), more, t)
    requires var c2 := After(Next(After(c, past), Call(S.Spawn(t))), more); CanMove(c2, move) && Next(c2, move).cpu == t
    ensures var c3 := Next(After(Next(After(c, past), Call(S.Spawn(t))), more), move);
            c3.live.flag && c3.live.code == [] && c3.live.saved == [] && CanMove(c3, Timer) && c3.k.curr == t
  {
    hide Boot, CanRun, After, CanMove, Next, MachineOk, Unstarted, NeverOn;
    BootOk(c);
    MachineRefines(c, past);
    var c1 := After(c, past);
    SpawnedUnstarted(c1, t);
    MoveKeeps(c1, Call(S.Spawn(t)));
    StaysUnstarted(Next(c1, Call(S.Spawn(t))), more, t);
    MachineRefines(Next(c1, Call(S.Spawn(t))), more);
    FirstSwitch(After(Next(c1, Call(S.Spawn(t))), more), move, t);
  }

  /** So does idle. */
  lemma IdleInterruptible(c: Machine, moves: seq<Move>, move: Move)
    requires Boot(c) && CanRun(c, moves) && NeverOn(c, moves, S.IDLE)
    requires CanMove(After(c, moves), move) && Next(After(c, moves), move).cpu == S.IDLE
    ensures var c1 := Next(After(c, moves), move);
            c1.live.flag && c1.live.code == [] && c1.live.saved == [] && CanMove(c1, Timer) && c1.k.curr == S.IDLE
  {
    hide CanRun, After, CanMove, Next, MachineOk, NeverOn;
    BootOk(c);
    assert Unstarted(c, S.IDLE);
    StaysUnstarted(c, moves, S.IDLE);
    MachineRefines(c, moves);
    FirstSwitch(After(c, moves), move, S.IDLE);
  }

  // ---- nested protection in a task's own code ----

  /** How much deeper `t` is in protected regions of its own code after the moves. */
  ghost function OwnDepth(c: Machine, moves: seq<Move>, t: S.Tid): int
    requires CanRun(c, moves)
    decreases |moves|
  {
    if moves == [] then 0
    else
      (if t != c.cpu then 0
       else if moves[0].UserEnter? then 1
       else if moves[0].UserLeave? then -1
       else 0)
      + OwnDepth(Next(c, moves[0]), moves[1..], t)
  }

  /** `t` never leaves a region it did not enter since, and does not turn interrupts on by force. */
  ghost predicate ProperlyNested(c: Machine, moves: seq<Move>, t: S.Tid, depth: nat)
    requires CanRun(c, moves)
    decreases |moves|
  {
    moves == [] ||
    (var own := t == c.cpu;
     && (own && moves[0].UserLeave? ==> depth > 0)
     && (own ==> !moves[0].EnableInterrupts?)
     && ProperlyNested(Next(c, moves[0]), moves[1..], t,
                       if own && moves[0].UserEnter? then depth + 1
                       else if own && moves[0].UserLeave? then depth - 1
                       else depth))
  }

  /** `x` is `depth` regions deep on top of `base`: the innermost flags are off, and below them stand base's flag and
      what base had saved. */
  predicate Deeper(base: Context, x: Context, depth: nat) {
    && |x.saved| == |base.saved| + depth && x.saved[..|base.saved|] == base.saved
    && (if depth == 0 then x.flag == base.flag else !x.flag && x.saved[|base.saved|] == base.flag)
    && (forall i :: |base.saved| < i < |x.saved| ==> !x.saved[i])
  }

  lemma DeeperStep(base: Context, x: Context, depth: nat)
    requires Deeper(base, x, depth)
    ensures Deeper(base, x.(saved := x.saved + [x.flag], flag := false), depth + 1)
    ensures depth > 0 ==> x.saved != [] && Deeper(base, Restored(x), depth - 1)
  {
    var n := |base.saved|;
    assert (x.saved + [x.flag])[..n] == x.saved[..n];
    if depth > 0 {
      assert x.saved[..|x.saved| - 1][..n] == x.saved[..n];
    }
  }

  lemma {:induction false} NestingKept(c: Machine, moves: seq<Move>, t: S.Tid, base: Context, depth: nat)
    requires MachineOk(c) && CanRun(c, moves) && Known(c, t) && ProperlyNested(c, moves, t, depth)
    requires Deeper(base, Unwound(ContextOf(c, t)), depth)
    ensures var d := depth + OwnDepth(c, moves, t);
            && d >= 0 && Known(After(c, moves), t) && Deeper(base, Unwound(ContextOf(After(c, moves), t)), d)
    decreases |moves|
  {
    hide MachineOk, Next, CanMove, ContextOf, Known, Deeper, Unwound;
    if moves != [] {
      MoveKeeps(c, moves[0]);
      if t == c.cpu && OwnFlagMove(moves[0]) {
        OwnNesting(c, moves[0], base, depth);
      } else {
        MoveKeepsFlags(c, moves[0], t);
      }
      var own := t == c.cpu;
      NestingKept(Next(c, moves[0]), moves[1..], t, base,
                  if own && moves[0].UserEnter? then depth + 1
                  else if own && moves[0].UserLeave? then depth - 1
                  else depth);
    }
  }

  lemma OwnNesting(c: Machine, move: Move, base: Context, depth: nat)
    requires MachineOk(c) && CanMove(c, move) && (move.UserEnter? || (move.UserLeave? && depth > 0))
    requires Known(c, c.cpu) && Deeper(base, Unwound(ContextOf(c, c.cpu)), depth)
    ensures var t, c1 := c.cpu, Next(c, move);
            Known(c1, t) &&
            Deeper(base, Unwound(ContextOf(c1, t)), if move.UserEnter? then depth + 1 else depth - 1)
  {
    hide MachineOk, Deeper;
    DeeperStep(base, c.live, depth);
  }

  /** Nested protection: a task that enters and leaves protected regions of its own in proper order, with operations,
      interrupts and switches in between, runs with interrupts off inside them, and has the flag and the saved flags it
      started with when it is out of all of them. */
  lemma NestedProtection(c: Machine, moves: seq<Move>, t: S.Tid)
    requires MachineOk(c) && CanRun(c, moves) && t == c.cpu && c.live.code == [] && ProperlyNested(c, moves, t, 0)
    requires After(c, moves).cpu == t && After(c, moves).live.code == []
    ensures var d, x := OwnDepth(c, moves, t), After(c, moves).live;
            && d >= 0
            && (d > 0 ==> !x.flag)
            && (d == 0 ==> x.flag == c.live.flag && x.saved == c.live.saved)
  {
    hide MachineOk, CanRun, After, ProperlyNested;
    NestingKept(c, moves, t, c.live, 0);
  }

  /** `irq_enable_global` turns interrupts on. */
  lemma EnableMeans(c: Machine)
    requires CanMove(c, EnableInterrupts)
    ensures CanMove(Next(c, EnableInterrupts), Timer) && Next(c, EnableInterrupts).live.saved == c.live.saved
  {
  }
}
