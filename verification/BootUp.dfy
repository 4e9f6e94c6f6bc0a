/** `kernel_init` and `init_main` up to enabling interrupts, over the kernel's objects and the descriptor table. */
module BootUp {
  import L = Lists
  import S = Sched
  import Y = SyncRuns
  import K = Kernel
  import G = Gdt
  import A = GdtAlloc

  /** A mutex nobody holds or waits for. */
  ghost predicate Free(k: K.Manager, m: K.ReinMutex)
    reads k, m
  {
    k.HasMutex(m) && m.index < |k.model.mutexes| && k.model.mutexes[m.index] == S.Mutex(S.NULL, 0, [])
  }

  /** What the model says of a mutex, in its fields. */
  lemma MutexFields(k: K.Manager, m: K.ReinMutex)
    requires k.Rep() && k.HasMutex(m) && m.index < |k.model.mutexes|
    ensures m.locker == k.model.mutexes[m.index].depth && m.waitList.count == |k.model.mutexes[m.index].wait|
    ensures k.model.mutexes[m.index].owner == S.NULL ==> m.owner == null
  {
    hide L.List.Spells, L.List.Valid, K.RunQueue, K.AllQueue, K.WaitQueue, K.SemRep, K.MutexRep;
    hide K.Manager.TcbsRep, K.Manager.MutexesRep, K.Manager.SemsRep;
    k.MutexParts(m);
  }

  /** `tss_init` as boot runs it, with no current task: the table's mutex is taken and given back around the allocation,
      and the descriptor is stored afterwards. */
  method TssInit(k: K.Manager, table: G.Table, m: K.ReinMutex, base: bv32, limit: bv32, ghost n: nat)
    returns (selector: int)
    requires k.Booted() && Free(k, m) && table.Valid() && table.descs !in k.Repr
    requires G.UsedUpTo(table.descs[..], n) && n < G.SIZE
    modifies k.Repr, table.descs
    ensures k.Booted() && k.SameObjects() && k.model == old(k.model) && Free(k, m)
    ensures table.Valid() && selector == n * G.DESC_BYTES
    ensures table.descs[..] == old(table.descs[..])[n := G.Encode(base, limit, G.TSS_ATTR)]
    ensures G.UsedUpTo(table.descs[..], n + 1)
  {
    hide L.List.Spells, L.List.Valid, K.Manager.Rep, K.Manager.Exclusive, G.Encode, S.DoLock, S.DoUnlock, S.Inv;
    ghost var t := table.descs[..];
    MutexFields(k, m);
    NullCurrent(k);
    Y.BootLockUnlock(k.model, m.index);
    k.Lock(m);
    selector := table.GetAllocDesc();
    LockedByNull(old(k.model), m.index);
    MutexFields(k, m);
    k.Unlock(m);
    if selector < 0 {
      return -1;
    }
    G.StoreKeepsUsed(table.descs[..], n + 1, n, base, limit);
    table.SegmentDescSet(selector, base, limit, G.TSS_ATTR);
    assert table.descs[..] == t[n := G.Encode(base, limit, G.TSS_ATTR)];
  }

  lemma NullCurrent(k: K.Manager)
    requires k.Rep() && k.curr == null
    ensures k.model.curr == S.NULL
  {
    hide L.List.Spells, L.List.Valid, K.RunQueue, K.AllQueue, K.WaitQueue, K.SemRep, K.MutexRep;
    k.CurrRep();
  }

  lemma LockedByNull(s: S.State, m: nat)
    requires s.curr == S.NULL && m < |s.mutexes| && s.mutexes[m] == S.Mutex(S.NULL, 0, [])
    ensures var s1 := S.DoLock(s, m); m < |s1.mutexes| && s1.mutexes[m] == S.Mutex(S.NULL, 1, [])
  {
  }

  const FREE_MUTEX := S.Mutex(S.NULL, 0, [])

  /** The table with the kernel's two segments and, in the slots from 3 on, the state segments at `bases`. */
  ghost predicate TableHolds(t: seq<G.Desc>, bases: seq<bv32>, limit: bv32) {
    && |bases| + 3 <= G.SIZE && G.UsedUpTo(t, 3 + |bases|)
    && t[1] == G.Encode(0, 0xFFFF_FFFF, G.CODE_ATTR) && t[2] == G.Encode(0, 0xFFFF_FFFF, G.DATA_ATTR)
    && (forall i :: 0 <= i < |bases| ==> t[3 + i] == G.Encode(bases[i], limit, G.TSS_ATTR))
  }

  lemma OneMore(t: seq<G.Desc>, bases: seq<bv32>, base: bv32, limit: bv32, t1: seq<G.Desc>)
    requires TableHolds(t, bases, limit) && |bases| + 3 < G.SIZE
    requires t1 == t[3 + |bases| := G.Encode(base, limit, G.TSS_ATTR)] && G.UsedUpTo(t1, 4 + |bases|)
    ensures TableHolds(t1, bases + [base], limit)
  {
    hide G.Encode;
  }

  lemma FlatHolds(t: seq<G.Desc>, limit: bv32)
    requires G.Flat(t)
    ensures TableHolds(t, [], limit)
  {
    hide G.Encode;
    G.FlatUsed(t);
  }

  /** What the processor reads in the table: segment `i` from its base up to the limit, and two flat kernel segments. */
  lemma TableMeans(t: seq<G.Desc>, bases: seq<bv32>, limit: bv32, i: nat)
    requires TableHolds(t, bases, limit) && i < |bases|
    ensures A.HoldsSegment(t, 3 + i, bases[i], limit)
    ensures G.SpansAll(t[1]) && G.Bit(t[1].attr, 3) && G.SpansAll(t[2]) && !G.Bit(t[2].attr, 3) && G.Bit(t[2].attr, 1)
  {
    hide G.Encode, G.SpansAll, G.Bit, G.Base, G.LastByte, G.Covers, G.Flags;
    A.TssMeaning(bases[i], limit);
    G.FlatBits();
  }

  /** The model state before the first task, with `count` mutexes. */
  function NoTasks(count: nat): S.State {
    S.State([], [], [], S.NULL, map[], seq(count, _ => FREE_MUTEX), [])
  }

  /** The model state when main starts. */
  function MainAlone(main: S.Tid): S.State {
    S.State([main], [main], [], main, map[main := S.NewTcb().(state := S.Ready)], [FREE_MUTEX, FREE_MUTEX],
            [S.Sem(0, [])])
  }

  /** `task_manager_init` and the initialisation of the table's mutex. */
  method NewManager() returns (k: K.Manager, gdtMutex: K.ReinMutex)
    ensures fresh(k) && fresh(k.Repr) && k.Booted() && k.sysTick == 0 && k.tasks.Keys == {S.IDLE}
    ensures k.model == NoTasks(1) && k.HasMutex(gdtMutex) && gdtMutex.index == 0 && |k.mutexes| == 1
  {
    hide K.Manager.Rep, K.Manager.Exclusive, L.List.Valid, K.Manager.Layout, K.Manager.Booting;
    k := new K.Manager();
    gdtMutex := k.NewMutex();
    assert k.model.mutexes == NoTasks(1).mutexes;
  }

  /** The part before any task exists: the table, the task manager with idle, and the table's and the log's mutex. */
  method KernelInit(idleTss: bv32, tssLimit: bv32)
    returns (k: K.Manager, table: G.Table, gdtMutex: K.ReinMutex, logMutex: K.ReinMutex, idleSelector: int)
    ensures fresh(k) && fresh(k.Repr) && fresh(table.descs) && table.Valid() && table.descs !in k.Repr
    ensures k.Booted() && k.sysTick == 0 && k.tasks.Keys == {S.IDLE} && k.model == NoTasks(2)
    ensures k.HasMutex(gdtMutex) && k.HasMutex(logMutex) && gdtMutex.index == 0 && logMutex.index == 1
    ensures idleSelector == 24 && TableHolds(table.descs[..], [idleTss], tssLimit)
  {
    hide K.Manager.Rep, K.Manager.Exclusive, L.List.Valid, K.Manager.Layout, K.Manager.Booting, TableHolds, G.Flat,
      G.Encode;
    table := new G.Table();
    table.GdtInit();
    FlatHolds(table.descs[..], tssLimit);
    ghost var flat := table.descs[..];
    k, gdtMutex := NewManager();
    UsedSlots(flat, [], tssLimit);
    idleSelector := TssInit(k, table, gdtMutex, idleTss, tssLimit, 3);
    OneMore(flat, [], idleTss, tssLimit, table.descs[..]);
    assert [] + [idleTss] == [idleTss];
    logMutex := k.NewMutex();
    assert k.model.mutexes == NoTasks(2).mutexes && fresh(k.Repr);
  }

  lemma UsedSlots(t: seq<G.Desc>, bases: seq<bv32>, limit: bv32)
    requires TableHolds(t, bases, limit)
    ensures G.UsedUpTo(t, 3 + |bases|)
  {
  }

  /** All of boot: afterwards main runs and every operation and the timer may follow, slots 1 to 4 hold the kernel's
      segments and the state segments of idle and main, and the allocation by preempted tasks starts from here. */
  method Boot(main: S.Tid, idleTss: bv32, mainTss: bv32, tssLimit: bv32)
    returns (k: K.Manager, table: G.Table, gdtMutex: K.ReinMutex, logMutex: K.ReinMutex, notify: K.Semaphore,
             idleSelector: int, mainSelector: int)
    requires main != S.NULL && main != S.IDLE
    ensures fresh(k) && fresh(k.Repr) && k.Valid() && k.Busy() && k.sysTick == 0 && k.model == MainAlone(main)
    ensures k.HasMutex(gdtMutex) && k.HasMutex(logMutex) && gdtMutex != logMutex && k.HasSem(notify)
    ensures idleSelector == 24 && mainSelector == 32 && TableHolds(table.descs[..], [idleTss, mainTss], tssLimit)
    ensures var selectors := [idleSelector, mainSelector];
            A.Quiescent(A.System(k.model, table.descs[..], map[], selectors, map[]), gdtMutex.index, 2)
  {
    hide K.Manager.Rep, K.Manager.Exclusive, L.List.Valid, K.Manager.Layout, S.Inv, S.DoSpawn, S.Initial, TableHolds,
      K.Manager.Booting, A.Quiescent, G.Encode, G.UsedUpTo;
    k, table, gdtMutex, logMutex, idleSelector := KernelInit(idleTss, tssLimit);
    ghost var before := table.descs[..];
    UsedSlots(before, [idleTss], tssLimit);
    mainSelector := TssInit(k, table, gdtMutex, mainTss, tssLimit, 4);
    OneMore(before, [idleTss], mainTss, tssLimit, table.descs[..]);
    assert [idleTss] + [mainTss] == [idleTss, mainTss];
    notify := StartMain(k, main);
    UsedSlots(table.descs[..], [idleTss, mainTss], tssLimit);
    StartOfAllocation(k.model, table.descs[..]);
  }

  /** `task_main_init` after its `tss_init`, and the semaphore the tasks share. */
  method StartMain(k: K.Manager, main: S.Tid) returns (notify: K.Semaphore)
    requires k.Booted() && k.tasks.Keys == {S.IDLE} && k.model == NoTasks(2) && main != S.NULL && main != S.IDLE
    modifies k.Repr
    ensures k.Valid() && k.Busy() && k.model == MainAlone(main) && k.sysTick == old(k.sysTick)
    ensures k.mutexes == old(k.mutexes) && k.HasSem(notify) && fresh(k.Repr - old(k.Repr))
  {
    hide K.Manager.Rep, K.Manager.Exclusive, L.List.Valid, K.Manager.Layout, S.Inv, S.DoSpawn, S.Initial;
    var t := new K.Task(main);
    k.TaskMainInit(t);
    MainRegistered(main);
    notify := k.NewSem(0);
    assert k.model.sems == [S.Sem(0, [])];
  }

  lemma MainRegistered(main: S.Tid)
    ensures S.DoSpawn(NoTasks(2), main).(curr := main) == MainAlone(main).(sems := [])
  {
    assert NoTasks(2).mutexes == [FREE_MUTEX, FREE_MUTEX];
  }

  lemma StartOfAllocation(s: S.State, table: seq<G.Desc>)
    requires S.Inv(s) && s.mutexes == [FREE_MUTEX, FREE_MUTEX] && G.UsedUpTo(table, 5)
    ensures A.Quiescent(A.System(s, table, map[], [24, 32], map[]), 0, 2)
  {
    hide S.Inv, G.UsedUpTo;
    assert A.Selector(0) == 24 && A.Selector(1) == 32;
  }
}
