/** Descriptor allocation under preemption: any number of tasks inside `get_alloc_desc` and in the `segment_desc_set`
    that `tss_init` does afterwards, outside the lock, with timer ticks and other kernel calls in between. */
module GdtAlloc {
  import G = Gdt
  import S = Sched
  import I = SchedInvariant
  import Y = SyncRuns

  /** The memory a task's state segment covers, as `tss_init` passes it. */
  datatype Extent = Extent(base: bv32, limit: bv32)

  function TssDesc(x: Extent): G.Desc {
    G.Encode(x.base, x.limit, G.TSS_ATTR)
  }

  /** Where a task stands inside the allocation. */
  datatype Phase =
    | Scan(i: nat)                                // to test slot `i`; a task waiting for the lock is to test slot 1
    | Mark(i: nat)                                // to claim slot `i`, found free
    | Release(result: int)                        // to unlock and return `result`
    | Fill(slot: nat, extent: Extent, next: nat)  // to store field `next` of the descriptor for `extent`

  /** `log` lists what the calls returned, in the order they released the lock; `filled` what the completed
      descriptors describe. */
  datatype System = System(
    k: S.State,
    table: seq<G.Desc>,
    at: map<S.Tid, Phase>,
    log: seq<int>,
    filled: map<nat, Extent>)

  datatype Move =
    | Kernel(e: S.Event)           // a tick, or a kernel call by a task outside the allocation
    | Enter                        // the running task calls get_alloc_desc, up to acquiring or queueing for the lock
    | Go(base: bv32, limit: bv32)  // the running task's next step; the arguments matter when it starts to fill

  predicate Inside(p: Phase) {
    !p.Fill?
  }

  /** The mutex at index `g` is the table's own: no other code locks it. */
  predicate CanMove(c: System, g: nat, move: Move) {
    g < |c.k.mutexes| &&
    match move
    case Kernel(e) => S.Enabled(c.k, e) && e != S.Lock(g) && e != S.Unlock(g) && (e.Tick? || c.k.curr !in c.at)
    case Enter => c.k.curr != S.IDLE && c.k.curr !in c.at
    case Go(_, _) =>
      c.k.curr in c.at &&
      (match c.at[c.k.curr]
       case Mark(i) => i < |c.table|
       case Release(_) => S.Enabled(c.k, S.Unlock(g))
       case Fill(i, _, _) => i < |c.table|
       case _ => true)
  }

  /** One field store of `segment_desc_set`. */
  function PutField(d: G.Desc, x: G.Desc, n: nat): G.Desc {
    if n == 0 then d.(limit15_0 := x.limit15_0)
    else if n == 1 then d.(base15_0 := x.base15_0)
    else if n == 2 then d.(base23_16 := x.base23_16)
    else if n == 3 then d.(attr := x.attr)
    else d.(base31_24 := x.base31_24)
  }

  function Next(c: System, g: nat, move: Move): System
    requires CanMove(c, g, move)
  {
    var t := c.k.curr;
    match move
    case Kernel(e) => c.(k := S.Step(c.k, e))
    case Enter => c.(k := S.Step(c.k, S.Lock(g)), at := c.at[t := Scan(1)])
    case Go(base, limit) =>
      match c.at[t]
      case Scan(i) =>
        if i >= |c.table| then c.(at := c.at[t := Release(-1)])
        else if c.table[i].attr == 0 then c.(at := c.at[t := Mark(i)])
        else c.(at := c.at[t := Scan(i + 1)])
      case Mark(i) =>
        c.(table := c.table[i := c.table[i].(attr := G.PRESENT)], at := c.at[t := Release(i * G.DESC_BYTES)])
      case Release(r) =>
        c.(k := S.Step(c.k, S.Unlock(g)), log := c.log + [r],
           at := if r < 0 then c.at - {t}
                 else c.at[t := Fill(r / G.DESC_BYTES, Extent(base, limit), 0)])
      case Fill(i, x, n) =>
        var table := c.table[i := PutField(c.table[i], TssDesc(x), n)];
        if n < 4 then c.(table := table, at := c.at[t := Fill(i, x, n + 1)])
        else c.(table := table, at := c.at - {t}, filled := c.filled[i := x])
  }

  // ---- the invariant ----

  /** The slots in use once `n` calls have claimed theirs. */
  function Top(n: nat): nat {
    if n < G.SIZE - 3 then 3 + n else G.SIZE
  }

  /** What the `n`-th call to release the lock returns, counting from 0. */
  function Selector(n: nat): int {
    if n < G.SIZE - 3 then (3 + n) * G.DESC_BYTES else -1
  }

  /** Only the mutex's owner is past the lock; its waiters have not looked at the table. */
  ghost predicate Guarded(x: S.Mutex, at: map<S.Tid, Phase>) {
    && x.depth <= 1
    && S.NULL !in at && S.IDLE !in at
    && (x.owner != S.NULL ==> x.owner in at && Inside(at[x.owner]))
    && (forall t :: t in x.wait ==> t in at && at[t] == Scan(1))
    && (forall t :: t in at && Inside(at[t]) ==> t == x.owner || t in x.wait)
  }

  ghost predicate HolderOk(p: Phase, table: seq<G.Desc>, n: nat) {
    match p
    case Scan(i) => 1 <= i <= Top(n) && G.UsedUpTo(table, Top(n))
    case Mark(i) => i == Top(n) < G.SIZE && G.UsedUpTo(table, Top(n))
    case Release(r) => r == Selector(n) && G.UsedUpTo(table, Top(n + 1)) && (r >= 0 ==> table[Top(n)].attr == G.PRESENT)
    case Fill(_, _, _) => false
  }

  ghost predicate TableOk(x: S.Mutex, at: map<S.Tid, Phase>, table: seq<G.Desc>, n: nat) {
    && |table| == G.SIZE
    && (if x.owner != S.NULL && x.owner in at then HolderOk(at[x.owner], table, n) else G.UsedUpTo(table, Top(n)))
  }

  /** The first `n` fields are stored. */
  predicate Stored(d: G.Desc, x: G.Desc, n: nat) {
    && (n > 0 ==> d.limit15_0 == x.limit15_0)
    && (n > 1 ==> d.base15_0 == x.base15_0)
    && (n > 2 ==> d.base23_16 == x.base23_16)
    && (n > 3 ==> d.attr == x.attr)
    && (n > 4 ==> d.base31_24 == x.base31_24)
  }

  ghost predicate FillOk(p: Phase, table: seq<G.Desc>, filled: map<nat, Extent>, n: nat) {
    p.Fill? ==>
      && 3 <= p.slot < Top(n) && p.slot < |table| && p.slot !in filled
      && p.next < 5 && TssDesc(p.extent).attr != 0 && Stored(table[p.slot], TssDesc(p.extent), p.next)
      && (p.next <= 3 ==> table[p.slot].attr == G.PRESENT)
  }

  /** Two tasks never fill the same slot, and a filled slot keeps exactly the descriptor its task encoded. */
  ghost predicate FillsOk(at: map<S.Tid, Phase>, table: seq<G.Desc>, filled: map<nat, Extent>, n: nat) {
    && (forall t :: t in at ==> FillOk(at[t], table, filled, n))
    && (forall t, u :: t in at && u in at && at[t].Fill? && at[u].Fill? && t != u ==> at[t].slot != at[u].slot)
    && (forall i :: i in filled ==> 3 <= i < Top(n) && i < |table| && table[i] == TssDesc(filled[i]))
  }

  ghost predicate LogOk(log: seq<int>) {
    forall n :: 0 <= n < |log| ==> log[n] == Selector(n)
  }

  ghost predicate SystemOk(c: System, g: nat) {
    && S.Inv(c.k)
    && g < |c.k.mutexes|
    && Guarded(c.k.mutexes[g], c.at)
    && TableOk(c.k.mutexes[g], c.at, c.table, |c.log|)
    && FillsOk(c.at, c.table, c.filled, |c.log|)
    && LogOk(c.log)
  }

  // ---- every move keeps it ----

  lemma KernelKeeps(c: System, g: nat, e: S.Event)
    requires SystemOk(c, g) && CanMove(c, g, Kernel(e))
    ensures SystemOk(Next(c, g, Kernel(e)), g)
  {
    hide S.Inv, S.Step, S.Enabled, Guarded, TableOk, FillsOk, LogOk;
    I.StepKeeps(c.k, e);
    Y.OtherStepsKeepMutex(c.k, e, g);
  }

  lemma LockCases(k: S.State, g: nat)
    requires S.Inv(k) && k.curr != S.IDLE && g < |k.mutexes| && k.curr != k.mutexes[g].owner
    ensures var x, x1 := k.mutexes[g], S.Step(k, S.Lock(g)).mutexes;
            g < |x1| && S.MutexOk(k, x) &&
            x1[g] == if x.owner == S.NULL then S.Mutex(k.curr, 1, []) else x.(wait := x.wait + [k.curr])
  {
    assert S.MutexOk(k, k.mutexes[g]);
  }

  lemma EnterKeeps(c: System, g: nat)
    requires SystemOk(c, g) && CanMove(c, g, Enter)
    ensures SystemOk(Next(c, g, Enter), g)
  {
    hide S.Inv, S.Step, LogOk, G.UsedUpTo, FillOk;
    assert S.Enabled(c.k, S.Lock(g));
    I.StepKeeps(c.k, S.Lock(g));
    I.CurrentNotWaiting(c.k, g);
    LockCases(c.k, g);
    EnterFills(c.at, c.table, c.filled, |c.log|, c.k.curr);
  }

  lemma EnterFills(at: map<S.Tid, Phase>, table: seq<G.Desc>, filled: map<nat, Extent>, n: nat, t: S.Tid)
    requires FillsOk(at, table, filled, n) && t !in at
    ensures FillsOk(at[t := Scan(1)], table, filled, n)
  {
  }

  /** The running task, inside, holds the mutex. */
  lemma InsideHolds(c: System, g: nat)
    requires SystemOk(c, g) && c.k.curr in c.at && Inside(c.at[c.k.curr])
    ensures c.k.curr != S.NULL && c.k.curr == c.k.mutexes[g].owner && c.k.mutexes[g].depth == 1
    ensures S.Enabled(c.k, S.Unlock(g))
  {
    hide S.Inv;
    I.CurrentNotWaiting(c.k, g);
    HeldDepth(c.k, g);
  }

  lemma HeldDepth(k: S.State, g: nat)
    requires S.Inv(k) && g < |k.mutexes|
    ensures S.MutexOk(k, k.mutexes[g])
  {
  }

  lemma ScanKeeps(c: System, g: nat, base: bv32, limit: bv32)
    requires SystemOk(c, g) && CanMove(c, g, Go(base, limit)) && c.at[c.k.curr].Scan?
    ensures SystemOk(Next(c, g, Go(base, limit)), g)
  {
    hide S.Inv, S.Enabled, LogOk, G.UsedUpTo, FillsOk;
    InsideHolds(c, g);
    I.CurrentNotWaiting(c.k, g);
    var t, i := c.k.curr, c.at[c.k.curr].i;
    SlotTest(c.table, Top(|c.log|), i);
    var p := if i >= |c.table| then Release(-1) else if c.table[i].attr == 0 then Mark(i) else Scan(i + 1);
    assert Next(c, g, Go(base, limit)) == c.(at := c.at[t := p]);
    assert HolderOk(p, c.table, |c.log|);
    StaysInside(c, t, p);
  }

  lemma SlotTest(t: seq<G.Desc>, n: nat, i: nat)
    requires G.UsedUpTo(t, n) && 1 <= i
    ensures i < G.SIZE ==> (t[i].attr == 0 <==> i >= n)
  {
  }

  /** A step before the lock is released does not concern the slots being filled. */
  lemma StaysInside(c: System, t: S.Tid, p: Phase)
    requires FillsOk(c.at, c.table, c.filled, |c.log|) && t in c.at && Inside(p)
    ensures FillsOk(c.at[t := p], c.table, c.filled, |c.log|)
  {
  }

  lemma MarkKeeps(c: System, g: nat, base: bv32, limit: bv32)
    requires SystemOk(c, g) && CanMove(c, g, Go(base, limit)) && c.at[c.k.curr].Mark?
    ensures SystemOk(Next(c, g, Go(base, limit)), g)
  {
    hide S.Inv, S.Enabled, LogOk, G.UsedUpTo, FillsOk;
    InsideHolds(c, g);
    I.CurrentNotWaiting(c.k, g);
    ClaimSlot(c.at, c.table, c.filled, |c.log|, c.k.curr);
  }

  lemma ClaimSlot(at: map<S.Tid, Phase>, table: seq<G.Desc>, filled: map<nat, Extent>, n: nat, t: S.Tid)
    requires FillsOk(at, table, filled, n) && t in at && Top(n) < G.SIZE && G.UsedUpTo(table, Top(n))
    ensures var i := Top(n);
            var table1 := table[i := table[i].(attr := G.PRESENT)];
            G.UsedUpTo(table1, Top(n + 1)) && FillsOk(at[t := Release(i * G.DESC_BYTES)], table1, filled, n)
  {
  }

  lemma UnlockCases(k: S.State, g: nat)
    requires S.Inv(k) && S.Enabled(k, S.Unlock(g)) && k.mutexes[g].depth == 1
    ensures var x, x1 := k.mutexes[g], S.Step(k, S.Unlock(g)).mutexes;
            g < |x1| && S.NULL !in x.wait && k.curr !in x.wait &&
            x1[g] == if x.wait == [] then S.Mutex(S.NULL, 0, []) else S.Mutex(x.wait[0], 1, x.wait[1..])
  {
    I.CurrentNotWaiting(k, g);
    if S.NULL in k.mutexes[g].wait {
      I.WaiterOnly(k, g, S.NULL);
    }
  }

  lemma ReleaseKeeps(c: System, g: nat, base: bv32, limit: bv32)
    requires SystemOk(c, g) && CanMove(c, g, Go(base, limit)) && c.at[c.k.curr].Release?
    ensures SystemOk(Next(c, g, Go(base, limit)), g)
  {
    hide S.Inv, S.Step, S.Enabled, TssDesc, G.UsedUpTo, FillsOk;
    InsideHolds(c, g);
    I.StepKeeps(c.k, S.Unlock(g));
    UnlockCases(c.k, g);
    TssIsUsed(Extent(base, limit));
    ReleaseFills(c, c.k.curr, Extent(base, limit));
  }

  lemma TssIsUsed(x: Extent)
    ensures TssDesc(x).attr != 0
  {
    hide G.Encode;
    G.PresentIsUsed(x.base, x.limit, G.TSS_ATTR);
  }

  lemma ReleaseFills(c: System, t: S.Tid, x: Extent)
    requires FillsOk(c.at, c.table, c.filled, |c.log|) && t in c.at && |c.table| == G.SIZE && TssDesc(x).attr != 0
    requires c.at[t] == Release(Selector(|c.log|))
    requires Selector(|c.log|) >= 0 ==> c.table[Top(|c.log|)].attr == G.PRESENT
    ensures FillsOk(c.at - {t}, c.table, c.filled, |c.log| + 1)
    ensures var r := Selector(|c.log|);
            r >= 0 ==> FillsOk(c.at[t := Fill(r / G.DESC_BYTES, x, 0)], c.table, c.filled, |c.log| + 1)
  {
    hide TssDesc;
    var n, i := |c.log|, Selector(|c.log|) / G.DESC_BYTES;
    assert Top(n) <= Top(n + 1);
    assert Selector(n) >= 0 ==> i == Top(n) < Top(n + 1);
    forall u | u in c.at
      ensures FillOk(c.at[u], c.table, c.filled, n + 1) && (c.at[u].Fill? ==> c.at[u].slot < Top(n))
    {
    }
  }

  lemma FillKeeps(c: System, g: nat, base: bv32, limit: bv32)
    requires SystemOk(c, g) && CanMove(c, g, Go(base, limit)) && c.at[c.k.curr].Fill?
    ensures SystemOk(Next(c, g, Go(base, limit)), g)
  {
    hide S.Inv, LogOk, G.UsedUpTo, FillsOk, TssDesc;
    var t, p := c.k.curr, c.at[c.k.curr];
    var d1 := PutField(c.table[p.slot], TssDesc(p.extent), p.next);
    FillSlot(c.at, c.table, c.filled, |c.log|, t);
    FillsStep(c.at, c.table, c.filled, |c.log|, t);
    StoreUsed(c, g, p.slot, d1);
  }

  lemma FillSlot(at: map<S.Tid, Phase>, table: seq<G.Desc>, filled: map<nat, Extent>, n: nat, t: S.Tid)
    requires FillsOk(at, table, filled, n) && t in at && at[t].Fill?
    ensures 3 <= at[t].slot < Top(n) && at[t].slot < |table| && TssDesc(at[t].extent).attr != 0
  {
    hide TssDesc;
    assert FillOk(at[t], table, filled, n);
  }

  lemma FillsStep(at: map<S.Tid, Phase>, table: seq<G.Desc>, filled: map<nat, Extent>, n: nat, t: S.Tid)
    requires FillsOk(at, table, filled, n) && t in at && at[t].Fill? && at[t].slot < |table|
    ensures var p := at[t];
            var table1 := table[p.slot := PutField(table[p.slot], TssDesc(p.extent), p.next)];
            if p.next < 4 then FillsOk(at[t := p.(next := p.next + 1)], table1, filled, n)
            else FillsOk(at - {t}, table1, filled[p.slot := p.extent], n)
  {
    hide TssDesc;
    assert FillOk(at[t], table, filled, n);
  }

  lemma StoreUsed(c: System, g: nat, i: nat, d: G.Desc)
    requires SystemOk(c, g) && 3 <= i < Top(|c.log|) && i < |c.table| && (c.table[i].attr != 0 ==> d.attr != 0)
    ensures forall n: nat :: n >= Top(|c.log|) && G.UsedUpTo(c.table, n) ==> G.UsedUpTo(c.table[i := d], n)
  {
  }

  lemma MoveKeeps(c: System, g: nat, move: Move)
    requires SystemOk(c, g) && CanMove(c, g, move)
    ensures SystemOk(Next(c, g, move), g)
  {
    hide SystemOk, Next;
    match move
    case Kernel(e) => KernelKeeps(c, g, e);
    case Enter => EnterKeeps(c, g);
    case Go(base, limit) =>
      match c.at[c.k.curr]
      case Scan(_) => ScanKeeps(c, g, base, limit);
      case Mark(_) => MarkKeeps(c, g, base, limit);
      case Release(_) => ReleaseKeeps(c, g, base, limit);
      case Fill(_, _, _) => FillKeeps(c, g, base, limit);
  }

  /** A task that is past the lock and on the processor can always go on: the owner check in unlock never fails. */
  lemma NeverStuck(c: System, g: nat, base: bv32, limit: bv32)
    requires SystemOk(c, g) && c.k.curr in c.at
    ensures CanMove(c, g, Go(base, limit))
  {
    hide S.Inv, S.Enabled, LogOk, G.UsedUpTo;
    if Inside(c.at[c.k.curr]) {
      InsideHolds(c, g);
    } else {
      assert FillOk(c.at[c.k.curr], c.table, c.filled, |c.log|);
    }
  }

  // ---- whole runs ----

  ghost predicate CanRun(c: System, g: nat, moves: seq<Move>)
    decreases |moves|
  {
    moves == [] || (CanMove(c, g, moves[0]) && CanRun(Next(c, g, moves[0]), g, moves[1..]))
  }

  ghost function After(c: System, g: nat, moves: seq<Move>): System
    requires CanRun(c, g, moves)
    decreases |moves|
  {
    if moves == [] then c else After(Next(c, g, moves[0]), g, moves[1..])
  }

  lemma {:induction false} RunKeeps(c: System, g: nat, moves: seq<Move>)
    requires SystemOk(c, g) && CanRun(c, g, moves)
    ensures SystemOk(After(c, g, moves), g)
    ensures forall i :: i in c.filled ==> i in After(c, g, moves).filled && After(c, g, moves).filled[i] == c.filled[i]
    decreases |moves|
  {
    hide SystemOk, CanMove, Next;
    if moves != [] {
      MoveKeeps(c, g, moves[0]);
      FilledStays(c, g, moves[0]);
      RunKeeps(Next(c, g, moves[0]), g, moves[1..]);
    }
  }

  lemma FilledStays(c: System, g: nat, move: Move)
    requires SystemOk(c, g) && CanMove(c, g, move)
    ensures forall i :: i in c.filled ==> i in Next(c, g, move).filled && Next(c, g, move).filled[i] == c.filled[i]
  {
    hide S.Inv, S.Enabled, S.Step, Guarded, TableOk, LogOk;
    if move.Go? && c.at[c.k.curr].Fill? {
      assert FillOk(c.at[c.k.curr], c.table, c.filled, |c.log|);
    }
  }

  /** After `gdt_init` and `n` undisturbed calls, as during boot: nobody is inside, and the mutex is free. */
  ghost predicate Quiescent(c: System, g: nat, n: nat) {
    && S.Inv(c.k)
    && g < |c.k.mutexes| && c.k.mutexes[g] == S.Mutex(S.NULL, 0, [])
    && c.at == map[] && c.filled == map[]
    && |c.log| == n && LogOk(c.log)
    && G.UsedUpTo(c.table, Top(n))
  }

  lemma QuiescentOk(c: System, g: nat, n: nat)
    requires Quiescent(c, g, n)
    ensures SystemOk(c, g)
  {
    hide S.Inv;
  }

  /** Since the table was `before` and `n` calls had been made: the slots in use then hold what they held, and later
      calls fill other ones. */
  ghost predicate LowKept(c: System, before: seq<G.Desc>, n: nat) {
    && |c.log| >= n && |c.table| == |before| == G.SIZE
    && (forall i :: 0 <= i < Top(n) ==> c.table[i] == before[i])
    && (forall i :: i in c.filled ==> i >= Top(n))
    && (forall t :: t in c.at && c.at[t].Fill? ==> c.at[t].slot >= Top(n))
  }

  lemma LowStep(c: System, g: nat, move: Move, before: seq<G.Desc>, n: nat)
    requires SystemOk(c, g) && CanMove(c, g, move) && LowKept(c, before, n)
    ensures LowKept(Next(c, g, move), before, n)
  {
    hide S.Inv, S.Step, S.Enabled, LogOk, FillsOk, G.UsedUpTo, TssDesc, PutField;
    if move.Go? && Inside(c.at[c.k.curr]) {
      InsideHolds(c, g);
    }
  }

  lemma {:induction false} LowRun(c: System, g: nat, moves: seq<Move>, before: seq<G.Desc>, n: nat)
    requires SystemOk(c, g) && CanRun(c, g, moves) && LowKept(c, before, n)
    ensures LowKept(After(c, g, moves), before, n)
    decreases |moves|
  {
    hide SystemOk, CanMove, Next, LowKept;
    if moves != [] {
      MoveKeeps(c, g, moves[0]);
      LowStep(c, g, moves[0], before, n);
      LowRun(Next(c, g, moves[0]), g, moves[1..], before, n);
    }
  }

  /** The slots in use at the start, the kernel's segments and the descriptors of idle and main after boot, hold what
      they held through every interleaving, and no call is given one of them. */
  lemma EarlySlotsStay(c: System, g: nat, n: nat, moves: seq<Move>, i: nat)
    requires Quiescent(c, g, n) && CanRun(c, g, moves) && i < Top(n)
    ensures i < |c.table| && i < |After(c, g, moves).table| && After(c, g, moves).table[i] == c.table[i]
    ensures i !in After(c, g, moves).filled
    ensures forall j :: n <= j < |After(c, g, moves).log| ==> After(c, g, moves).log[j] != i * G.DESC_BYTES
  {
    hide S.Inv, G.UsedUpTo, After, CanRun;
    QuiescentOk(c, g, n);
    LowRun(c, g, moves, c.table, n);
    RunKeeps(c, g, moves);
    assert LogOk(After(c, g, moves).log);
  }

  /** For every interleaving: the calls return 24, 32, 40, ... in the order they release the lock, and -1 once the table
      is full, so no selector is handed out twice. */
  lemma SelectorsInOrder(c: System, g: nat, n: nat, moves: seq<Move>)
    requires Quiescent(c, g, n) && CanRun(c, g, moves)
    ensures var log := After(c, g, moves).log;
            && (forall i :: 0 <= i < |log| ==> log[i] == if i < 253 then (3 + i) * 8 else -1)
            && (forall i, j :: 0 <= i < j < |log| && log[i] != -1 ==> log[i] != log[j])
  {
    hide S.Inv, G.UsedUpTo, After, CanRun;
    QuiescentOk(c, g, n);
    RunKeeps(c, g, moves);
    var log := After(c, g, moves).log;
    forall i | 0 <= i < |log|
      ensures log[i] == Selector(i)
    {
    }
  }

  /** For every interleaving: with nobody between claiming a slot and unlocking, the used slots are exactly the first
      ones, as many as calls succeeded. */
  lemma UsedIsPrefix(c: System, g: nat, n: nat, moves: seq<Move>)
    requires Quiescent(c, g, n) && CanRun(c, g, moves)
    ensures var c1 := After(c, g, moves);
            (forall t :: t in c1.at ==> !c1.at[t].Release?) ==>
              G.UsedUpTo(c1.table, if |c1.log| < 253 then 3 + |c1.log| else 256)
    ensures exists m :: G.UsedUpTo(After(c, g, moves).table, m)
  {
    hide S.Inv, G.UsedUpTo, After, CanRun;
    QuiescentOk(c, g, n);
    RunKeeps(c, g, moves);
  }

  /** Once a task has finished `segment_desc_set`, its slot holds exactly the descriptor it encoded, whatever the other
      tasks stored in between and for the rest of the run. */
  lemma DescriptorsStay(c: System, g: nat, n: nat, moves: seq<Move>, later: seq<Move>, i: nat)
    requires Quiescent(c, g, n) && CanRun(c, g, moves) && CanRun(After(c, g, moves), g, later)
    requires i in After(c, g, moves).filled
    ensures var x, c2 := After(c, g, moves).filled[i], After(After(c, g, moves), g, later);
            i < |c2.table| && c2.table[i] == TssDesc(x) && G.Base(c2.table[i]) == x.base
  {
    hide S.Inv, G.UsedUpTo, After, CanRun, G.Base, G.Encode;
    QuiescentOk(c, g, n);
    RunKeeps(c, g, moves);
    G.BaseComesBack(After(c, g, moves).filled[i].base, After(c, g, moves).filled[i].limit, G.TSS_ATTR);
    RunKeeps(After(c, g, moves), g, later);
  }

  // ---- the descriptor a caller gets ----

  /** Slot `i` is given out, and is being filled, or is filled, for the segment that `x` describes. */
  ghost predicate Promised(c: System, i: nat, x: Extent) {
    && i < Top(|c.log|)
    && (i in c.filled ==> c.filled[i] == x)
    && (forall t :: t in c.at && c.at[t].Fill? && c.at[t].slot == i ==> c.at[t].extent == x)
    && (i !in c.filled ==> exists t :: t in c.at && c.at[t].Fill? && c.at[t].slot == i)
  }

  lemma PromiseMade(c: System, g: nat, base: bv32, limit: bv32)
    requires SystemOk(c, g) && CanMove(c, g, Go(base, limit)) && c.at[c.k.curr].Release?
    requires c.at[c.k.curr].result >= 0
    ensures Promised(Next(c, g, Go(base, limit)), c.at[c.k.curr].result / G.DESC_BYTES, Extent(base, limit))
  {
    hide S.Inv, S.Step, S.Enabled, LogOk, G.UsedUpTo, TssDesc;
    InsideHolds(c, g);
    var t, i, c1 := c.k.curr, c.at[c.k.curr].result / G.DESC_BYTES, Next(c, g, Go(base, limit));
    assert i == Top(|c.log|) < Top(|c.log| + 1);
    forall u | u in c.at && c.at[u].Fill?
      ensures c.at[u].slot < i
    {
      assert FillOk(c.at[u], c.table, c.filled, |c.log|);
    }
    assert c1.at[t].Fill? && c1.at[t].slot == i;
  }

  lemma PromiseStep(c: System, g: nat, move: Move, i: nat, x: Extent)
    requires SystemOk(c, g) && CanMove(c, g, move) && Promised(c, i, x)
    ensures Promised(Next(c, g, move), i, x)
  {
    hide S.Inv, S.Step, S.Enabled, LogOk, FillsOk, G.UsedUpTo, TssDesc, PutField;
    var c1 := Next(c, g, move);
    if move.Go? && Inside(c.at[c.k.curr]) {
      InsideHolds(c, g);
    }
    if i !in c.filled {
      var t :| t in c.at && c.at[t].Fill? && c.at[t].slot == i;
      assert (t in c1.at && c1.at[t].Fill? && c1.at[t].slot == i) || i in c1.filled;
    }
  }

  lemma {:induction false} PromiseRun(c: System, g: nat, moves: seq<Move>, i: nat, x: Extent)
    requires SystemOk(c, g) && CanRun(c, g, moves) && Promised(c, i, x)
    ensures Promised(After(c, g, moves), i, x)
    decreases |moves|
  {
    hide SystemOk, CanMove, Next, Promised;
    if moves != [] {
      MoveKeeps(c, g, moves[0]);
      PromiseStep(c, g, moves[0], i, x);
      PromiseRun(Next(c, g, moves[0]), g, moves[1..], i, x);
    }
  }

  /** A task in the middle of storing to slot `i`. */
  ghost predicate Storing(c: System, i: nat) {
    exists t :: t in c.at && c.at[t].Fill? && c.at[t].slot == i
  }

  lemma TssMeaning(base: bv32, limit: bv32)
    ensures var d := TssDesc(Extent(base, limit));
            G.Base(d) == base && G.Covers(G.LastByte(d), limit) && G.Flags(d.attr) == 0x89
  {
    hide G.Encode, G.Base, G.LastByte, G.Covers, G.Flags, G.HasG;
    TssBits();
    G.DescriptorRoundTrip(base, limit, G.TSS_ATTR);
  }

  lemma TssBits()
    ensures G.TSS_ATTR == 0x89 && G.TSS_ATTR & 0x8F00 == 0
  {
  }

  /** Slot `i` holds a present 32-bit task state segment from `base` to `limit`. */
  predicate HoldsSegment(table: seq<G.Desc>, i: nat, base: bv32, limit: bv32) {
    && i < |table|
    && G.Base(table[i]) == base && G.Covers(G.LastByte(table[i]), limit) && G.Flags(table[i].attr) == 0x89
  }

  lemma PromiseFulfilled(c: System, g: nat, i: nat, base: bv32, limit: bv32)
    requires SystemOk(c, g) && Promised(c, i, Extent(base, limit)) && !Storing(c, i)
    ensures HoldsSegment(c.table, i, base, limit)
  {
    hide SystemOk, TssDesc, G.Base, G.LastByte, G.Covers, G.Flags;
    FilledHolds(c, g, i);
    TssMeaning(base, limit);
  }

  /** Whoever is given the selector `r` and goes on to store a segment's base and limit finds exactly those in its
      slot once nobody is storing to it any more, in every continuation, as a present descriptor of a 32-bit task
      state segment. */
  lemma CallersSegmentStored(c: System, g: nat, n: nat, moves: seq<Move>, base: bv32, limit: bv32, later: seq<Move>)
    requires Quiescent(c, g, n) && CanRun(c, g, moves) && CanMove(After(c, g, moves), g, Go(base, limit))
    requires var c1 := After(c, g, moves); c1.at[c1.k.curr].Release? && c1.at[c1.k.curr].result >= 0
    requires CanRun(Next(After(c, g, moves), g, Go(base, limit)), g, later)
    requires var c1 := After(c, g, moves);
             !Storing(After(Next(c1, g, Go(base, limit)), g, later), c1.at[c1.k.curr].result / 8)
    ensures var c1 := After(c, g, moves);
            HoldsSegment(After(Next(c1, g, Go(base, limit)), g, later).table, c1.at[c1.k.curr].result / 8, base, limit)
  {
    hide Quiescent, SystemOk, Next, CanRun, After, HoldsSegment, Storing, Promised;
    QuiescentOk(c, g, n);
    RunKeeps(c, g, moves);
    var c1 := After(c, g, moves);
    var i, x, c2 := c1.at[c1.k.curr].result / 8, Extent(base, limit), Next(c1, g, Go(base, limit));
    PromiseMade(c1, g, base, limit);
    MoveKeeps(c1, g, Go(base, limit));
    PromiseRun(c2, g, later, i, x);
    RunKeeps(c2, g, later);
    PromiseFulfilled(After(c2, g, later), g, i, base, limit);
  }

  lemma FilledHolds(c: System, g: nat, i: nat)
    requires SystemOk(c, g) && i in c.filled
    ensures i < |c.table| && c.table[i] == TssDesc(c.filled[i])
  {
    hide S.Inv, TssDesc;
  }

  /** While a slot is claimed and its descriptor not complete, the slot is marked by the present bit alone. */
  lemma ClaimedMeanwhile(c: System, g: nat, n: nat, moves: seq<Move>, t: S.Tid)
    requires Quiescent(c, g, n) && CanRun(c, g, moves) && t in After(c, g, moves).at
    ensures var c1 := After(c, g, moves);
            var p := c1.at[t];
            p.Fill? && p.next <= 3 ==> p.slot < |c1.table| && c1.table[p.slot].attr == 0x80
  {
    hide Quiescent, CanRun, After, S.Inv, G.UsedUpTo, LogOk, TssDesc;
    QuiescentOk(c, g, n);
    RunKeeps(c, g, moves);
    PresentBit();
    var c1 := After(c, g, moves);
    assert FillOk(c1.at[t], c1.table, c1.filled, |c1.log|);
  }

  lemma PresentBit()
    ensures G.PRESENT == 0x80
  {
  }
}
