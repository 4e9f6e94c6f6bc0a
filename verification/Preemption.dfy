/** `task_init` as user code of the machine with an interrupt flag: each of its steps happens between kernel calls,
    and a timer interrupt may come between any two of them, or inside the calls wherever the flag is set. */
module Preemption {
  import G = Gdt
  import S = Sched
  import N = Interrupts
  import A = GdtAlloc
  import T = TssInit

  /** The machine, and the memory that `task_init` works on: `user.c.k` is not used. */
  datatype State = State(m: N.Machine, user: T.System)

  datatype Move =
    | Machine(move: N.Move)               // a machine move that is not a step of task_init
    | Start(task: S.Tid, name: string)
    | Go(base: bv32, limit: bv32)
    | Finish

  /** The state of the interleaving model that the machine and the memory stand for. */
  function View(s: State): T.System {
    s.user.(c := s.user.c.(k := N.Abs(s.m)))
  }

  /** A step of `task_init` is taken by the task on the processor when it is in no kernel call. Other code neither
      uses the table's mutex `g` nor registers tasks. */
  predicate CanMove(s: State, g: nat, move: Move) {
    match move
    case Machine(mv) =>
      N.CanMove(s.m, mv) &&
      (mv.Call? ==>
         mv.e != S.Lock(g) && mv.e != S.Unlock(g) && !mv.e.Spawn? && s.m.cpu !in s.user.call && s.m.cpu !in s.user.c.at)
    case Start(task, name) => s.m.live.code == [] && T.CanMove(View(s), g, T.Start(task, name))
    case Go(base, limit) => s.m.live.code == [] && T.CanMove(View(s), g, T.Go(base, limit))
    case Finish => s.m.live.code == [] && T.CanMove(View(s), g, T.Finish)
  }

  function CallTo(m: N.Machine, e: S.Event): N.Machine {
    if N.CanMove(m, N.Call(e)) then N.Next(m, N.Call(e)) else m
  }

  function Next(s: State, g: nat, move: Move): State
    requires CanMove(s, g, move)
  {
    var v := View(s);
    var t := v.c.k.curr;
    match move
    case Machine(mv) => s.(m := N.Next(s.m, mv))
    case Start(task, name) => State(CallTo(s.m, S.Lock(g)), T.Next(v, g, T.Start(task, name)))
    case Go(base, limit) =>
      State(if v.c.at[t].Release? then CallTo(s.m, S.Unlock(g)) else s.m, T.Next(v, g, T.Go(base, limit)))
    case Finish =>
      State(if S.GoodName(v.call[t].name) then CallTo(s.m, S.Spawn(v.call[t].task)) else s.m, T.Next(v, g, T.Finish))
  }

  /** What a move is in the interleaving model: one move, or nothing. */
  function Meaning(move: Move): seq<T.Move> {
    match move
    case Machine(Call(e)) => [T.Kernel(e)]
    case Machine(Timer) => [T.Kernel(S.Tick)]
    case Machine(_) => []
    case Start(task, name) => [T.Start(task, name)]
    case Go(base, limit) => [T.Go(base, limit)]
    case Finish => [T.Finish]
  }

  ghost predicate StateOk(s: State, g: nat) {
    N.MachineOk(s.m) && g < |N.Abs(s.m).mutexes|
  }

  /** A kernel call by user code is its step in the operation-level model. */
  lemma CallMeans(m: N.Machine, e: S.Event)
    requires N.MachineOk(m) && m.live.code == [] && S.Enabled(N.Abs(m), e) && !e.Tick? && !e.NewMutex? && !e.NewSem?
    ensures N.MachineOk(CallTo(m, e)) && N.Abs(CallTo(m, e)) == S.Step(N.Abs(m), e)
  {
    hide S.Enabled, S.Step, N.MachineOk, N.Next;
    N.EmptyCode(m);
    N.MoveKeeps(m, N.Call(e));
  }

  lemma StepKeepsMutexes(k: S.State, e: S.Event)
    requires S.Enabled(k, e)
    ensures |S.Step(k, e).mutexes| >= |k.mutexes|
  {
  }

  lemma MachineStep(s: State, g: nat, mv: N.Move)
    requires StateOk(s, g) && CanMove(s, g, Machine(mv))
    ensures StateOk(Next(s, g, Machine(mv)), g)
    ensures Meaning(Machine(mv)) == [] ==> View(Next(s, g, Machine(mv))) == View(s)
    ensures Meaning(Machine(mv)) != [] ==>
              var w := Meaning(Machine(mv))[0];
              T.CanMove(View(s), g, w) && View(Next(s, g, Machine(mv))) == T.Next(View(s), g, w)
  {
    hide S.Step, S.Enabled, N.MachineOk, N.Next, N.Abs;
    N.MoveKeeps(s.m, mv);
    if mv.Call? {
      StepKeepsMutexes(N.Abs(s.m), mv.e);
      N.EmptyCode(s.m);
    } else if mv.Timer? {
      N.TickEnabled(N.Abs(s.m));
      StepKeepsMutexes(N.Abs(s.m), S.Tick);
    }
  }

  lemma StartStep(s: State, g: nat, task: S.Tid, name: string)
    requires StateOk(s, g) && CanMove(s, g, Start(task, name))
    ensures StateOk(Next(s, g, Start(task, name)), g)
    ensures View(Next(s, g, Start(task, name))) == T.Next(View(s), g, T.Start(task, name))
  {
    hide S.Step, N.MachineOk, N.Abs, CallTo;
    var k := N.Abs(s.m);
    assert S.Enabled(k, S.Lock(g));
    CallMeans(s.m, S.Lock(g));
    StepKeepsMutexes(k, S.Lock(g));
  }

  lemma GoStep(s: State, g: nat, base: bv32, limit: bv32)
    requires StateOk(s, g) && CanMove(s, g, Go(base, limit))
    ensures StateOk(Next(s, g, Go(base, limit)), g)
    ensures View(Next(s, g, Go(base, limit))) == T.Next(View(s), g, T.Go(base, limit))
  {
    hide S.Step, S.Enabled, N.MachineOk, N.Abs, CallTo, A.TssDesc, A.PutField;
    var k := N.Abs(s.m);
    if View(s).c.at[k.curr].Release? {
      CallMeans(s.m, S.Unlock(g));
      StepKeepsMutexes(k, S.Unlock(g));
    }
  }

  lemma FinishStep(s: State, g: nat)
    requires StateOk(s, g) && CanMove(s, g, Finish)
    ensures StateOk(Next(s, g, Finish), g)
    ensures View(Next(s, g, Finish)) == T.Next(View(s), g, T.Finish)
  {
    hide S.Step, S.Enabled, N.MachineOk, N.Abs, CallTo, S.GoodName;
    var k := N.Abs(s.m);
    var x := View(s).call[k.curr];
    if S.GoodName(x.name) {
      CallMeans(s.m, S.Spawn(x.task));
      StepKeepsMutexes(k, S.Spawn(x.task));
    }
  }

  // ---- whole runs ----

  ghost predicate CanRun(s: State, g: nat, moves: seq<Move>)
    decreases |moves|
  {
    moves == [] || (CanMove(s, g, moves[0]) && CanRun(Next(s, g, moves[0]), g, moves[1..]))
  }

  ghost function After(s: State, g: nat, moves: seq<Move>): State
    requires CanRun(s, g, moves)
    decreases |moves|
  {
    if moves == [] then s else After(Next(s, g, moves[0]), g, moves[1..])
  }

  function Meanings(moves: seq<Move>): seq<T.Move> {
    if moves == [] then [] else Meaning(moves[0]) + Meanings(moves[1..])
  }

  lemma MoveMeans(s: State, g: nat, move: Move)
    requires StateOk(s, g) && CanMove(s, g, move)
    ensures StateOk(Next(s, g, move), g)
    ensures Meaning(move) == [] ==> View(Next(s, g, move)) == View(s)
    ensures Meaning(move) != [] ==>
              |Meaning(move)| == 1 && T.CanMove(View(s), g, Meaning(move)[0]) &&
              View(Next(s, g, move)) == T.Next(View(s), g, Meaning(move)[0])
  {
    hide StateOk, View, T.CanMove, T.Next;
    match move
    case Machine(mv) => MachineStep(s, g, mv);
    case Start(task, name) => StartStep(s, g, task, name);
    case Go(base, limit) => GoStep(s, g, base, limit);
    case Finish => FinishStep(s, g);
  }

  /** Refinement: however the machine interleaves single updates, switches, timer interrupts and the steps of any
      number of `task_init` calls, its run is a run of the interleaving model, so every theorem about those runs holds
      of it. */
  lemma {:induction false} MachineRunsInterleave(s: State, g: nat, moves: seq<Move>)
    requires StateOk(s, g) && CanRun(s, g, moves)
    ensures StateOk(After(s, g, moves), g)
    ensures T.CanRun(View(s), g, Meanings(moves)) && T.After(View(s), g, Meanings(moves)) == View(After(s, g, moves))
    decreases |moves|
  {
    hide StateOk, View, CanMove, Next, T.CanMove, T.Next, Meaning;
    if moves != [] {
      MoveMeans(s, g, moves[0]);
      MachineRunsInterleave(Next(s, g, moves[0]), g, moves[1..]);
      var all, rest := Meanings(moves), Meanings(moves[1..]);
      if Meaning(moves[0]) == [] {
        assert all == rest;
      } else {
        assert all[1..] == rest;
      }
    }
  }

  /** From boot, with `n` selectors given out by then: in every interleaving of the machine the calls are given the
      selectors 24, 32, 40, ... in the order they release the lock and -1 from call number 253 on, and no two structs
      share one. */
  lemma SelectorsUnderInterrupts(s: State, g: nat, n: nat, moves: seq<Move>)
    requires N.Boot(s.m) && T.Quiescent(View(s), g, n) && CanRun(s, g, moves)
    ensures var u := After(s, g, moves).user;
            && (forall i :: 0 <= i < |u.c.log| ==> u.c.log[i] == if i < 253 then (3 + i) * 8 else -1)
            && (forall t, v :: t in u.sel && v in u.sel && t != v ==> u.sel[t] != u.sel[v])
            && (forall t :: t in u.sel ==> u.sel[t] >= A.Top(n))
  {
    hide T.CanRun, T.After, CanRun, After, N.Boot, N.MachineOk, A.SystemOk, T.ClaimsOk, T.SelOk, T.CallsOk;
    N.BootOk(s.m);
    MutexThere(s, g, n);
    MachineRunsInterleave(s, g, moves);
    var u := After(s, g, moves).user;
    T.QuiescentOk(View(s), g, n);
    T.RunKeeps(View(s), g, Meanings(moves), n, View(s).c.k.tasks);
    LogFollows(View(After(s, g, moves)).c, g);
    forall t | t in u.sel
      ensures u.sel[t] >= A.Top(n) && forall v :: v in u.sel && v != t ==> u.sel[v] != u.sel[t]
    {
      T.SelectorsPrivate(View(s), g, n, Meanings(moves), t);
    }
  }

  lemma MutexThere(s: State, g: nat, n: nat)
    requires T.Quiescent(View(s), g, n)
    ensures g < |N.Abs(s.m).mutexes|
  {
  }

  lemma LogFollows(c: A.System, g: nat)
    requires A.SystemOk(c, g)
    ensures forall i :: 0 <= i < |c.log| ==> c.log[i] == if i < 253 then (3 + i) * 8 else -1
  {
    hide S.Inv, A.Guarded, A.TableOk, A.FillsOk;
    forall i | 0 <= i < |c.log|
      ensures c.log[i] == A.Selector(i)
    {
    }
  }

  /** The same under interrupts: in every run of the machine from boot, a call that is given a slot and stores a
      segment's base and limit finds exactly those in it as soon as nobody is storing to it any more. */
  lemma SegmentStoredUnderInterrupts(s: State, g: nat, n: nat, moves: seq<Move>, base: bv32, limit: bv32,
                                     later: seq<Move>)
    requires N.Boot(s.m) && T.Quiescent(View(s), g, n) && CanRun(s, g, moves)
    requires CanMove(After(s, g, moves), g, Go(base, limit)) && T.GivenSlot(View(After(s, g, moves)))
    requires CanRun(Next(After(s, g, moves), g, Go(base, limit)), g, later)
    requires !A.Storing(View(After(Next(After(s, g, moves), g, Go(base, limit)), g, later)).c,
                        T.SlotGiven(View(After(s, g, moves))))
    ensures A.HoldsSegment(After(Next(After(s, g, moves), g, Go(base, limit)), g, later).user.c.table,
                           T.SlotGiven(View(After(s, g, moves))), base, limit)
  {
    hide T.CanRun, T.After, CanRun, After, N.Boot, StateOk, A.SystemOk, T.Quiescent, A.Storing, A.HoldsSegment, Next,
      T.Next, T.SystemOk;
    StartOk(s, g, n);
    MachineRunsInterleave(s, g, moves);
    T.QuiescentOk(View(s), g, n);
    T.RunKeeps(View(s), g, Meanings(moves), n, View(s).c.k.tasks);
    var s1 := After(s, g, moves);
    AllocationOk(View(s1), g, n, View(s).c.k.tasks);
    GoStep(s1, g, base, limit);
    MachineRunsInterleave(Next(s1, g, Go(base, limit)), g, later);
    T.CallersSegmentStored(View(s1), g, base, limit, Meanings(later));
  }

  lemma StartOk(s: State, g: nat, n: nat)
    requires N.Boot(s.m) && T.Quiescent(View(s), g, n)
    ensures StateOk(s, g)
  {
    hide N.Boot, N.MachineOk;
    N.BootOk(s.m);
    MutexThere(s, g, n);
  }

  lemma AllocationOk(v: T.System, g: nat, n: nat, tasks: seq<S.Tid>)
    requires T.SystemOk(v, g, n, tasks)
    ensures A.SystemOk(v.c, g)
  {
    hide A.SystemOk;
  }
}
