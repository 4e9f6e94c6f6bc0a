/** `task_init` as a whole, under preemption: `tss_init` first claims and fills a descriptor, then the name is
    checked, and only then is the task registered. What becomes of the descriptors, also when the name is refused. */
module TssInit {
  import G = Gdt
  import S = Sched
  import A = GdtAlloc

  /** A call of `task_init` for the struct at `task`. `number` counts the calls that had released the table's lock when
      this one did. Once `done`, its `tss_init` has returned, `result` being what `get_alloc_desc` gave it. */
  datatype Call = Call(task: S.Tid, name: string, number: nat, done: bool, result: int)

  /** `call` holds the calls in progress by the task that makes them, `sel` the `tss_sel` fields they have set, and
      `inits` the calls that have returned, in order. */
  datatype System = System(c: A.System, call: map<S.Tid, Call>, sel: map<S.Tid, nat>, inits: seq<Call>)

  datatype Move =
    | Kernel(e: S.Event)                  // a tick, or a kernel call outside task_init
    | Start(task: S.Tid, name: string)    // the running task calls task_init, up to the table's lock
    | Go(base: bv32, limit: bv32)         // its next step inside tss_init
    | Finish                              // it checks the name, and registers the task or returns -1

  /** `task_init` is called for a struct that is not registered and that no other call is busy with. */
  predicate CanMove(s: System, g: nat, move: Move) {
    var t := s.c.k.curr;
    match move
    case Kernel(e) => A.CanMove(s.c, g, A.Kernel(e)) && !e.Spawn? && (e.Tick? || t !in s.call)
    case Start(task, name) =>
      && A.CanMove(s.c, g, A.Enter) && t !in s.call
      && task != S.NULL && task != S.IDLE && task !in s.c.k.tasks
      && forall u :: u in s.call ==> s.call[u].task != task
    case Go(base, limit) => A.CanMove(s.c, g, A.Go(base, limit)) && t in s.call && !s.call[t].done
    case Finish =>
      && t in s.call && s.call[t].done
      && (S.GoodName(s.call[t].name) ==> A.CanMove(s.c, g, A.Kernel(S.Spawn(s.call[t].task))))
  }

  /** A call notes how many were before it when it releases the lock. */
  function Numbered(x: Call, p: A.Phase, before: nat): Call {
    if p.Release? then x.(number := before) else x
  }

  function Next(s: System, g: nat, move: Move): System
    requires CanMove(s, g, move)
  {
    var t := s.c.k.curr;
    match move
    case Kernel(e) => s.(c := A.Next(s.c, g, A.Kernel(e)))
    case Start(task, name) => s.(c := A.Next(s.c, g, A.Enter), call := s.call[t := Call(task, name, 0, false, -1)])
    case Go(base, limit) =>
      var c1, x := A.Next(s.c, g, A.Go(base, limit)), Numbered(s.call[t], s.c.at[t], |s.c.log|);
      if t in c1.at then s.(c := c1, call := s.call[t := x])
      else if s.c.at[t].Fill? then
        s.(c := c1, sel := s.sel[x.task := s.c.at[t].slot],
           call := s.call[t := x.(done := true, result := s.c.at[t].slot * G.DESC_BYTES)])
      else s.(c := c1, call := s.call[t := x.(done := true, result := -1)])
    case Finish =>
      System(if S.GoodName(s.call[t].name) then A.Next(s.c, g, A.Kernel(S.Spawn(s.call[t].task))) else s.c,
             s.call - {t}, s.sel, s.inits + [s.call[t]])
  }

  // ---- what the allocation layer does in one step ----

  /** The running task's step ends its `tss_init`. */
  predicate Last(p: A.Phase) {
    (p.Release? && p.result < 0) || (p.Fill? && p.next >= 4)
  }

  lemma UnlockKeepsTasks(k: S.State, g: nat)
    requires S.Enabled(k, S.Unlock(g))
    ensures S.Step(k, S.Unlock(g)).tasks == k.tasks && S.Step(k, S.Unlock(g)).curr == k.curr
  {
  }

  lemma GoEffect(c: A.System, g: nat, base: bv32, limit: bv32)
    requires A.SystemOk(c, g) && A.CanMove(c, g, A.Go(base, limit))
    ensures c.k.curr in c.at
    ensures var t, c1 := c.k.curr, A.Next(c, g, A.Go(base, limit));
            var p := c.at[t];
            && c1.k.tasks == c.k.tasks && c1.k.curr == t
            && (forall u :: u in c1.at <==> u in c.at && (u != t || !Last(p)))
            && (forall u :: u in c1.at && u != t ==> c1.at[u] == c.at[u])
            && (t in c1.at ==> (c1.at[t].Fill? <==> p.Fill? || p.Release?))
            && c1.log == (if p.Release? then c.log + [p.result] else c.log)
            && (p.Fill? ==> p.slot !in c.filled)
            && (p.Fill? && Last(p) ==> c1.filled == c.filled[p.slot := p.extent])
            && (!p.Fill? || !Last(p) ==> c1.filled == c.filled)
            && t != S.IDLE && t != S.NULL
  {
    hide S.Inv, S.Step, S.Enabled, A.Top, A.Selector, A.TableOk, A.LogOk, A.TssDesc, A.PutField, A.Stored;
    if c.at[c.k.curr].Release? {
      UnlockKeepsTasks(c.k, g);
    }
    assert A.FillOk(c.at[c.k.curr], c.table, c.filled, |c.log|);
  }

  lemma EnterEffect(c: A.System, g: nat)
    requires A.SystemOk(c, g) && A.CanMove(c, g, A.Enter)
    ensures var c1 := A.Next(c, g, A.Enter);
            c1.k.tasks == c.k.tasks && c1.at == c.at[c.k.curr := A.Scan(1)] && c1.log == c.log && c1.filled == c.filled
  {
  }

  lemma KernelEffect(c: A.System, g: nat, e: S.Event)
    requires A.CanMove(c, g, A.Kernel(e))
    ensures var c1 := A.Next(c, g, A.Kernel(e));
            && c1.k.tasks == (if e.Spawn? then c.k.tasks + [e.t] else c.k.tasks)
            && c1.at == c.at && c1.log == c.log && c1.filled == c.filled && c1.table == c.table
  {
  }

  // ---- the calls in progress ----

  /** A call is inside `tss_init` or past it, and its struct is not registered and not in another call's hands. */
  ghost predicate CallsOk(s: System) {
    && (forall t :: t in s.c.at <==> t in s.call && !s.call[t].done)
    && (forall t :: t in s.call ==>
          t != S.IDLE && s.call[t].task != S.NULL && s.call[t].task != S.IDLE && s.call[t].task !in s.c.k.tasks)
    && (forall t, u :: t in s.call && u in s.call && t != u ==> s.call[t].task != s.call[u].task)
  }

  /** What a step inside `tss_init` records. */
  lemma GoRecords(s: System, g: nat, base: bv32, limit: bv32)
    requires CanMove(s, g, Go(base, limit))
    ensures var me, s1 := s.c.k.curr, Next(s, g, Go(base, limit));
            && A.CanMove(s.c, g, A.Go(base, limit)) && s1.c == A.Next(s.c, g, A.Go(base, limit))
            && me in s.c.at && me in s.call && !s.call[me].done
            && s1.inits == s.inits && s1.call.Keys == s.call.Keys
            && (forall u :: u in s.call && u != me ==> s1.call[u] == s.call[u])
            && s1.call[me].task == s.call[me].task && s1.call[me].name == s.call[me].name
            && s1.call[me].number == (if s.c.at[me].Release? then |s.c.log| else s.call[me].number)
            && (s1.call[me].done <==> me !in s1.c.at)
            && (me !in s1.c.at ==>
                  s1.call[me].result == if s.c.at[me].Fill? then s.c.at[me].slot * G.DESC_BYTES else -1)
            && s1.sel == if me !in s1.c.at && s.c.at[me].Fill? then s.sel[s.call[me].task := s.c.at[me].slot] else s.sel
  {
    hide A.Next;
  }

  lemma CallsGo(s: System, g: nat, base: bv32, limit: bv32)
    requires A.SystemOk(s.c, g) && CallsOk(s) && CanMove(s, g, Go(base, limit))
    ensures CallsOk(Next(s, g, Go(base, limit)))
  {
    hide A.SystemOk, A.Next, A.CanMove, Last, Next, CanMove;
    GoRecords(s, g, base, limit);
    GoEffect(s.c, g, base, limit);
  }

  lemma CallsFinish(s: System, g: nat)
    requires CallsOk(s) && CanMove(s, g, Finish)
    ensures CallsOk(Next(s, g, Finish))
  {
    hide A.Next, A.CanMove;
    FinishEffect(s, g);
  }

  lemma FinishEffect(s: System, g: nat)
    requires CanMove(s, g, Finish)
    ensures var x, s1 := s.call[s.c.k.curr], Next(s, g, Finish);
            && s1.c.k.tasks == (if S.GoodName(x.name) then s.c.k.tasks + [x.task] else s.c.k.tasks)
            && s1.c.at == s.c.at && s1.c.log == s.c.log && s1.c.filled == s.c.filled && s1.c.table == s.c.table
  {
    hide A.Next, A.CanMove;
    var x := s.call[s.c.k.curr];
    if S.GoodName(x.name) {
      KernelEffect(s.c, g, S.Spawn(x.task));
    }
  }

  lemma CallsKept(s: System, g: nat, move: Move)
    requires A.SystemOk(s.c, g) && CallsOk(s) && CanMove(s, g, move)
    ensures CallsOk(Next(s, g, move))
  {
    match move
    case Kernel(e) => CallsKernel(s, g, e);
    case Start(task, name) => CallsStart(s, g, task, name);
    case Go(base, limit) => CallsGo(s, g, base, limit);
    case Finish => CallsFinish(s, g);
  }

  lemma CallsKernel(s: System, g: nat, e: S.Event)
    requires CallsOk(s) && CanMove(s, g, Kernel(e))
    ensures CallsOk(Next(s, g, Kernel(e)))
  {
    hide A.Next, A.CanMove;
    KernelEffect(s.c, g, e);
  }

  lemma CallsStart(s: System, g: nat, task: S.Tid, name: string)
    requires A.SystemOk(s.c, g) && CallsOk(s) && CanMove(s, g, Start(task, name))
    ensures CallsOk(Next(s, g, Start(task, name)))
  {
    hide A.SystemOk, A.Next, A.CanMove;
    EnterEffect(s.c, g);
    EnterAllowed(s.c, g);
  }

  lemma EnterAllowed(c: A.System, g: nat)
    requires A.CanMove(c, g, A.Enter)
    ensures c.k.curr != S.IDLE
  {
  }

  // ---- claims: results, filled slots and tss_sel fields ----

  predicate Claims(x: Call) {
    x.done && x.result >= 0
  }

  function SlotOf(x: Call): int {
    x.result / G.DESC_BYTES
  }

  ghost predicate ClaimOk(x: Call, filled: map<nat, A.Extent>) {
    Claims(x) ==> x.result % G.DESC_BYTES == 0 && SlotOf(x) in filled
  }

  /** Every claim is a filled slot of its own. */
  ghost predicate ClaimsOk(s: System) {
    && (forall t :: t in s.call ==> ClaimOk(s.call[t], s.c.filled))
    && (forall j :: 0 <= j < |s.inits| ==> s.inits[j].done && ClaimOk(s.inits[j], s.c.filled))
    && (forall t, u :: t in s.call && u in s.call && t != u && Claims(s.call[t]) && Claims(s.call[u]) ==>
          s.call[t].result != s.call[u].result)
    && (forall t, j :: t in s.call && 0 <= j < |s.inits| && Claims(s.call[t]) ==> s.call[t].result != s.inits[j].result)
    && (forall i, j :: 0 <= i < j < |s.inits| && Claims(s.inits[i]) ==> s.inits[i].result != s.inits[j].result)
  }

  /** The last store of a fill makes a claim unlike all others, because its slot was not filled before. */
  lemma ClaimsGo(s: System, g: nat, base: bv32, limit: bv32)
    requires A.SystemOk(s.c, g) && CallsOk(s) && ClaimsOk(s) && CanMove(s, g, Go(base, limit))
    ensures ClaimsOk(Next(s, g, Go(base, limit)))
  {
    hide A.SystemOk, A.Next, A.CanMove, CallsOk, Next, CanMove;
    GoRecords(s, g, base, limit);
    GoEffect(s.c, g, base, limit);
    var s1, t := Next(s, g, Go(base, limit)), s.c.k.curr;
    assert forall u :: u in s.call && u != t ==> s1.call[u] == s.call[u];
    forall x: Call | ClaimOk(x, s.c.filled)
      ensures ClaimOk(x, s1.c.filled)
      ensures Claims(x) && s.c.at[t].Fill? ==> x.result != s.c.at[t].slot * G.DESC_BYTES
    {
    }
  }

  lemma ClaimsFinish(s: System, g: nat)
    requires CallsOk(s) && ClaimsOk(s) && CanMove(s, g, Finish)
    ensures ClaimsOk(Next(s, g, Finish))
  {
    hide A.Next, A.CanMove, CallsOk, ClaimOk;
    FinishEffect(s, g);
  }

  lemma ClaimsKept(s: System, g: nat, move: Move)
    requires A.SystemOk(s.c, g) && CallsOk(s) && ClaimsOk(s) && CanMove(s, g, move)
    ensures ClaimsOk(Next(s, g, move))
  {
    hide A.SystemOk, A.Next, A.CanMove, CallsOk, ClaimOk;
    match move
    case Kernel(e) => KernelEffect(s.c, g, e);
    case Start(task, name) => ClaimsStart(s, g, task, name);
    case Go(base, limit) => ClaimsGo(s, g, base, limit);
    case Finish => ClaimsFinish(s, g);
  }

  lemma ClaimsStart(s: System, g: nat, task: S.Tid, name: string)
    requires A.SystemOk(s.c, g) && ClaimsOk(s) && CanMove(s, g, Start(task, name))
    ensures ClaimsOk(Next(s, g, Start(task, name)))
  {
    hide A.SystemOk, A.Next, A.CanMove;
    EnterEffect(s.c, g);
  }

  /** What the last call for `u` that claimed a slot returned, or -1. */
  function LastClaim(inits: seq<Call>, u: S.Tid): int {
    if inits == [] then -1
    else
      var x := inits[|inits| - 1];
      if x.task == u && x.result >= 0 then x.result else LastClaim(inits[..|inits| - 1], u)
  }

  function Selected(sel: map<S.Tid, nat>, u: S.Tid): int {
    if u in sel then sel[u] * G.DESC_BYTES else -1
  }

  /** A call that has set `u`'s selector and has not returned yet. */
  ghost predicate Setting(s: System, t: S.Tid, u: S.Tid) {
    t in s.call && Claims(s.call[t]) && s.call[t].task == u
  }

  /** A struct's selector is what the last successful claim for it gave. */
  ghost predicate SelOk(s: System) {
    && (forall t, u :: Setting(s, t, u) ==> Selected(s.sel, u) == s.call[t].result)
    && (forall u :: (forall t :: !Setting(s, t, u)) ==> Selected(s.sel, u) == LastClaim(s.inits, u))
  }

  lemma SelGo(s: System, g: nat, base: bv32, limit: bv32)
    requires A.SystemOk(s.c, g) && CallsOk(s) && SelOk(s) && CanMove(s, g, Go(base, limit))
    ensures SelOk(Next(s, g, Go(base, limit)))
  {
    hide A.SystemOk, A.Next, A.CanMove, Next, CanMove;
    GoRecords(s, g, base, limit);
    GoEffect(s.c, g, base, limit);
    var s1, me := Next(s, g, Go(base, limit)), s.c.k.curr;
    var mine := s.call[me].task;
    forall t, u
      ensures u != mine ==> (Setting(s1, t, u) <==> Setting(s, t, u))
      ensures u == mine && t != me ==> !Setting(s, t, u) && !Setting(s1, t, u)
    {
    }
    assert !Setting(s, me, mine);
    forall u | forall t :: !Setting(s1, t, u)
      ensures Selected(s1.sel, u) == LastClaim(s1.inits, u)
    {
      if u != mine {
        forall t
          ensures !Setting(s, t, u)
        {
          assert !Setting(s1, t, u);
        }
      } else {
        assert !Setting(s1, me, mine);
        assert forall t :: !Setting(s, t, u);
      }
    }
  }

  lemma SelFinish(s: System, g: nat)
    requires A.SystemOk(s.c, g) && CallsOk(s) && SelOk(s) && CanMove(s, g, Finish)
    ensures SelOk(Next(s, g, Finish))
  {
    hide A.SystemOk, A.Next, A.CanMove;
    var s1, me := Next(s, g, Finish), s.c.k.curr;
    var x := s.call[me];
    assert s1.inits[..|s1.inits| - 1] == s.inits;
    forall t, u
      ensures Setting(s1, t, u) ==> Setting(s, t, u)
      ensures Setting(s, t, u) && t != me ==> Setting(s1, t, u)
      ensures u == x.task && t != me ==> !Setting(s, t, u)
    {
    }
    forall u | forall t :: !Setting(s1, t, u)
      ensures Selected(s1.sel, u) == LastClaim(s1.inits, u)
    {
      if Setting(s, me, u) {
      } else {
        forall t
          ensures !Setting(s, t, u)
        {
          assert !Setting(s1, t, u);
        }
      }
    }
  }

  lemma SelKept(s: System, g: nat, move: Move)
    requires A.SystemOk(s.c, g) && CallsOk(s) && SelOk(s) && CanMove(s, g, move)
    ensures SelOk(Next(s, g, move))
  {
    hide A.SystemOk, A.Next, A.CanMove;
    var s1 := Next(s, g, move);
    match move
    case Go(base, limit) => SelGo(s, g, base, limit);
    case Finish => SelFinish(s, g);
    case _ =>
      assert forall t, u :: Setting(s1, t, u) <==> Setting(s, t, u);
  }

  // ---- counting slots and tasks ----

  /** The calls in progress that have left the lock. */
  function Out(call: map<S.Tid, Call>, at: map<S.Tid, A.Phase>): set<S.Tid> {
    set t | t in call && (call[t].done || (t in at && at[t].Fill?))
  }

  /** The tasks that the returned calls registered. */
  function Registered(inits: seq<Call>): seq<S.Tid> {
    if inits == [] then []
    else
      var x := inits[|inits| - 1];
      Registered(inits[..|inits| - 1]) + if S.GoodName(x.name) then [x.task] else []
  }

  /** Since the start, with `n` claims and the tasks `tasks`: one claim attempt for each call that has left the lock,
      and one registration for each returned call with a good name. */
  ghost predicate Counted(s: System, n: nat, tasks: seq<S.Tid>) {
    && |s.c.log| == n + |s.inits| + |Out(s.call, s.c.at)|
    && s.c.k.tasks == tasks + Registered(s.inits)
  }

  lemma LastIsOut(p: A.Phase)
    ensures Last(p) ==> p.Fill? || p.Release?
  {
  }

  lemma CountedGo(s: System, g: nat, base: bv32, limit: bv32, n: nat, tasks: seq<S.Tid>)
    requires A.SystemOk(s.c, g) && CallsOk(s) && Counted(s, n, tasks) && CanMove(s, g, Go(base, limit))
    ensures Counted(Next(s, g, Go(base, limit)), n, tasks)
  {
    hide A.SystemOk, A.Next, A.CanMove, Registered, Last, CallsOk, Out, Next, CanMove;
    GoRecords(s, g, base, limit);
    GoEffect(s.c, g, base, limit);
    LastIsOut(s.c.at[s.c.k.curr]);
    var s1, t := Next(s, g, Go(base, limit)), s.c.k.curr;
    OthersOut(s.call, s.c.at, s1.call, s1.c.at, t);
    OwnOut(s.call, s.c.at, t);
    OwnOut(s1.call, s1.c.at, t);
  }

  lemma OthersOut(call: map<S.Tid, Call>, at: map<S.Tid, A.Phase>,
                  call1: map<S.Tid, Call>, at1: map<S.Tid, A.Phase>, t: S.Tid)
    requires call1.Keys == call.Keys
    requires forall u :: u in call && u != t ==> call1[u] == call[u]
    requires forall u :: u != t ==> (u in at1 <==> u in at) && (u in at ==> at1[u] == at[u])
    ensures Out(call1, at1) - {t} == Out(call, at) - {t}
  {
  }

  lemma OwnOut(call: map<S.Tid, Call>, at: map<S.Tid, A.Phase>, t: S.Tid)
    requires t in call
    ensures var out := call[t].done || (t in at && at[t].Fill?);
            |Out(call, at)| == |Out(call, at) - {t}| + if out then 1 else 0
  {
    if t in Out(call, at) {
      assert Out(call, at) == Out(call, at) - {t} + {t};
    } else {
      assert Out(call, at) == Out(call, at) - {t};
    }
  }

  lemma CountedFinish(s: System, g: nat, n: nat, tasks: seq<S.Tid>)
    requires CallsOk(s) && Counted(s, n, tasks) && CanMove(s, g, Finish)
    ensures Counted(Next(s, g, Finish), n, tasks)
  {
    hide A.Next, A.CanMove, CallsOk, S.GoodName;
    var s1, t := Next(s, g, Finish), s.c.k.curr;
    FinishEffect(s, g);
    assert s1.inits[..|s1.inits| - 1] == s.inits;
    assert t in Out(s.call, s.c.at) && Out(s1.call, s1.c.at) == Out(s.call, s.c.at) - {t};
    assert tasks + (Registered(s.inits) + [s.call[t].task]) == tasks + Registered(s.inits) + [s.call[t].task];
    assert tasks + (Registered(s.inits) + []) == tasks + Registered(s.inits);
  }

  lemma CountedStart(s: System, g: nat, task: S.Tid, name: string, n: nat, tasks: seq<S.Tid>)
    requires A.SystemOk(s.c, g) && CallsOk(s) && Counted(s, n, tasks) && CanMove(s, g, Start(task, name))
    ensures Counted(Next(s, g, Start(task, name)), n, tasks)
  {
    hide A.SystemOk, A.Next, A.CanMove, Registered;
    EnterEffect(s.c, g);
    var s1 := Next(s, g, Start(task, name));
    assert Out(s1.call, s1.c.at) == Out(s.call, s.c.at);
  }

  lemma CountedKept(s: System, g: nat, move: Move, n: nat, tasks: seq<S.Tid>)
    requires A.SystemOk(s.c, g) && CallsOk(s) && Counted(s, n, tasks) && CanMove(s, g, move)
    ensures Counted(Next(s, g, move), n, tasks)
  {
    hide A.SystemOk, A.Next, A.CanMove, CallsOk, Out, Registered;
    match move
    case Kernel(e) => KernelEffect(s.c, g, e);
    case Start(task, name) => CountedStart(s, g, task, name, n, tasks);
    case Go(base, limit) => CountedGo(s, g, base, limit, n, tasks);
    case Finish => CountedFinish(s, g, n, tasks);
  }

  // ---- who is registered ----

  /** A call with a good name registers its struct, which no earlier or later call did; `tasks` were registered
      before. */
  ghost predicate GoodOnce(s: System, tasks: seq<S.Tid>) {
    && (forall j :: 0 <= j < |s.inits| ==> s.inits[j].task !in tasks)
    && (forall j :: 0 <= j < |s.inits| && S.GoodName(s.inits[j].name) ==> s.inits[j].task in s.c.k.tasks)
    && (forall i, j :: 0 <= i < j < |s.inits| && S.GoodName(s.inits[i].name) ==> s.inits[i].task != s.inits[j].task)
  }

  lemma GoodOnceKept(s: System, g: nat, move: Move, n: nat, tasks: seq<S.Tid>)
    requires A.SystemOk(s.c, g) && CallsOk(s) && Counted(s, n, tasks) && GoodOnce(s, tasks) && CanMove(s, g, move)
    ensures GoodOnce(Next(s, g, move), tasks)
  {
    hide A.SystemOk, A.Next, A.CanMove, Registered, Out, S.GoodName, Last;
    match move
    case Kernel(e) => KernelEffect(s.c, g, e);
    case Start(_, _) => EnterEffect(s.c, g);
    case Go(base, limit) => GoEffect(s.c, g, base, limit);
    case Finish => FinishEffect(s, g);
  }

  lemma {:induction false} RegisteredMembers(inits: seq<Call>, u: S.Tid)
    ensures u in Registered(inits) <==> exists j :: 0 <= j < |inits| && S.GoodName(inits[j].name) && inits[j].task == u
  {
    hide S.GoodName;
    if inits != [] {
      var before, x := inits[..|inits| - 1], inits[|inits| - 1];
      RegisteredMembers(before, u);
      assert forall j :: 0 <= j < |before| ==> before[j] == inits[j];
      if S.GoodName(x.name) && x.task == u {
        assert inits[|inits| - 1] == x;
      }
    }
  }

  // ---- call numbers ----

  /** The slots there are to claim. */
  const CLAIMS := G.SIZE - 3

  /** The call by `t` has released the table's lock. */
  predicate Released(s: System, t: S.Tid) {
    t in s.call && (s.call[t].done || (t in s.c.at && s.c.at[t].Fill?))
  }

  /** A call that has released the lock was given the selector that goes with its number. */
  ghost predicate NumberOk(s: System, t: S.Tid, n: nat)
    requires t in s.call
  {
    var x := s.call[t];
    && n <= x.number < |s.c.log|
    && (x.done ==> x.result == A.Selector(x.number))
    && (t in s.c.at && s.c.at[t].Fill? ==> s.c.at[t].slot * G.DESC_BYTES == A.Selector(x.number))
  }

  ghost predicate HasNumber(s: System, m: nat) {
    || (exists t :: Released(s, t) && s.call[t].number == m)
    || (exists j :: 0 <= j < |s.inits| && s.inits[j].number == m)
  }

  /** The calls since the start, when `n` had been made, are numbered without gaps and repetitions. */
  ghost predicate NumbersOk(s: System, n: nat) {
    && (forall t :: Released(s, t) ==> NumberOk(s, t, n))
    && (forall j :: 0 <= j < |s.inits| ==>
          n <= s.inits[j].number < |s.c.log| && s.inits[j].result == A.Selector(s.inits[j].number))
    && (forall t, u :: Released(s, t) && Released(s, u) && t != u ==> s.call[t].number != s.call[u].number)
    && (forall t, j :: Released(s, t) && 0 <= j < |s.inits| ==> s.call[t].number != s.inits[j].number)
    && (forall i, j :: 0 <= i < j < |s.inits| ==> s.inits[i].number != s.inits[j].number)
    && (forall m :: n <= m < |s.c.log| ==> HasNumber(s, m))
  }

  /** What the running call's step does to its phase. */
  lemma GoPhase(c: A.System, g: nat, base: bv32, limit: bv32)
    requires A.SystemOk(c, g) && A.CanMove(c, g, A.Go(base, limit))
    ensures var t, c1 := c.k.curr, A.Next(c, g, A.Go(base, limit));
            var p := c.at[t];
            && (p.Release? ==> p.result == A.Selector(|c.log|))
            && (p.Release? && p.result >= 0 ==>
                  t in c1.at && c1.at[t].Fill? && c1.at[t].slot * G.DESC_BYTES == p.result)
            && (p.Fill? && t in c1.at ==> c1.at[t].Fill? && c1.at[t].slot == p.slot)
            && (p.Release? && p.result < 0 ==> p.result == -1)
  {
    hide A.FillsOk, A.LogOk, S.Inv, S.Step, S.Enabled, A.TssDesc, A.PutField, G.UsedUpTo, A.Top;
    if c.at[c.k.curr].Release? {
      A.InsideHolds(c, g);
    }
  }

  /** A step of the call by `me`: it releases the lock and takes the next number, or keeps the number it has. */
  ghost predicate TakesNumber(s: System, s1: System, me: S.Tid) {
    && s1.inits == s.inits && s1.call.Keys == s.call.Keys && me in s.call
    && (forall t :: t in s.call && t != me ==>
          s1.call[t] == s.call[t] && (t in s1.c.at <==> t in s.c.at) && (t in s.c.at ==> s1.c.at[t] == s.c.at[t]))
    && (if Released(s, me) || !Released(s1, me) then s1.c.log == s.c.log else |s1.c.log| == |s.c.log| + 1)
    && (Released(s, me) ==> Released(s1, me) && s1.call[me].number == s.call[me].number)
    && (Released(s1, me) && !Released(s, me) ==> s1.call[me].number == |s.c.log|)
  }

  lemma GoTakesNumber(s: System, g: nat, base: bv32, limit: bv32, n: nat)
    requires A.SystemOk(s.c, g) && CallsOk(s) && n <= |s.c.log| && CanMove(s, g, Go(base, limit))
    requires Released(s, s.c.k.curr) ==> NumberOk(s, s.c.k.curr, n)
    ensures var s1, me := Next(s, g, Go(base, limit)), s.c.k.curr;
            TakesNumber(s, s1, me) && (Released(s1, me) ==> NumberOk(s1, me, n))
  {
    hide A.SystemOk, A.Next, A.CanMove, A.Selector, Next, CanMove;
    GoRecords(s, g, base, limit);
    GoEffect(s.c, g, base, limit);
    GoPhase(s.c, g, base, limit);
  }

  lemma OthersKeepNumbers(s: System, s1: System, me: S.Tid, n: nat)
    requires NumbersOk(s, n) && TakesNumber(s, s1, me)
    ensures forall t :: t != me ==> (Released(s1, t) <==> Released(s, t))
    ensures forall t :: Released(s1, t) && t != me ==> NumberOk(s1, t, n)
  {
    hide A.Selector, HasNumber;
    forall t | Released(s1, t) && t != me
      ensures NumberOk(s1, t, n)
    {
      assert NumberOk(s, t, n);
    }
  }

  lemma NoGaps(s: System, s1: System, me: S.Tid, n: nat)
    requires NumbersOk(s, n) && TakesNumber(s, s1, me)
    requires forall t :: t != me ==> (Released(s1, t) <==> Released(s, t))
    ensures forall m :: n <= m < |s1.c.log| ==> HasNumber(s1, m)
  {
    hide A.Selector, NumberOk;
    forall m | n <= m < |s1.c.log|
      ensures HasNumber(s1, m)
    {
      if m < |s.c.log| {
        assert HasNumber(s, m);
        if t :| Released(s, t) && s.call[t].number == m {
          assert Released(s1, t) && s1.call[t].number == m;
        }
      } else {
        assert Released(s1, me) && s1.call[me].number == m;
      }
    }
  }

  lemma NumbersGo(s: System, g: nat, base: bv32, limit: bv32, n: nat)
    requires A.SystemOk(s.c, g) && CallsOk(s) && NumbersOk(s, n) && n <= |s.c.log| && CanMove(s, g, Go(base, limit))
    ensures NumbersOk(Next(s, g, Go(base, limit)), n)
  {
    hide A.SystemOk, A.Next, A.CanMove, A.Selector, CallsOk, HasNumber, Next, CanMove;
    var s1, me := Next(s, g, Go(base, limit)), s.c.k.curr;
    GoTakesNumber(s, g, base, limit, n);
    OthersKeepNumbers(s, s1, me, n);
    NoGaps(s, s1, me, n);
    forall t | Released(s, t)
      ensures t in s.call && s.call[t].number < |s.c.log|
    {
      assert NumberOk(s, t, n);
    }
  }

  lemma NumbersFinish(s: System, g: nat, n: nat)
    requires CallsOk(s) && NumbersOk(s, n) && CanMove(s, g, Finish)
    ensures NumbersOk(Next(s, g, Finish), n)
  {
    hide A.Next, A.CanMove, CallsOk, A.Selector, S.GoodName;
    FinishEffect(s, g);
    var s1, me := Next(s, g, Finish), s.c.k.curr;
    assert Released(s, me) && NumberOk(s, me, n);
    forall t
      ensures Released(s1, t) <==> Released(s, t) && t != me
    {
    }
    forall t | Released(s1, t)
      ensures NumberOk(s1, t, n)
    {
      assert NumberOk(s, t, n);
    }
    forall m | n <= m < |s1.c.log|
      ensures HasNumber(s1, m)
    {
      assert HasNumber(s, m);
      if t :| Released(s, t) && s.call[t].number == m {
        if t == me {
          assert s1.inits[|s.inits|].number == m;
        } else {
          assert Released(s1, t) && s1.call[t].number == m;
        }
      } else {
        var j :| 0 <= j < |s.inits| && s.inits[j].number == m;
        assert s1.inits[j].number == m;
      }
    }
  }

  /** A move that neither releases the lock nor returns from a call. */
  lemma NumbersSame(s: System, s1: System, n: nat)
    requires NumbersOk(s, n) && s1.inits == s.inits && s1.c.log == s.c.log
    requires forall t :: Released(s1, t) <==> Released(s, t)
    requires forall t :: Released(s, t) ==> t in s1.call && s1.call[t] == s.call[t] && (t in s1.c.at <==> t in s.c.at)
    requires forall t :: Released(s, t) && t in s.c.at ==> s1.c.at[t] == s.c.at[t]
    ensures NumbersOk(s1, n)
  {
    hide A.Selector;
    forall t | Released(s1, t)
      ensures NumberOk(s1, t, n)
    {
      assert NumberOk(s, t, n);
    }
    forall m | n <= m < |s1.c.log|
      ensures HasNumber(s1, m)
    {
      assert HasNumber(s, m);
      if t :| Released(s, t) && s.call[t].number == m {
        assert Released(s1, t) && s1.call[t].number == m;
      }
    }
  }

  lemma NumbersKept(s: System, g: nat, move: Move, n: nat)
    requires A.SystemOk(s.c, g) && CallsOk(s) && NumbersOk(s, n) && n <= |s.c.log| && CanMove(s, g, move)
    ensures NumbersOk(Next(s, g, move), n)
  {
    hide A.SystemOk, A.Next, A.CanMove, NumbersOk;
    match move
    case Kernel(e) =>
      KernelEffect(s.c, g, e);
      NumbersSame(s, Next(s, g, move), n);
    case Start(_, _) =>
      EnterEffect(s.c, g);
      NumbersSame(s, Next(s, g, move), n);
    case Go(base, limit) => NumbersGo(s, g, base, limit, n);
    case Finish => NumbersFinish(s, g, n);
  }

  // ---- whole runs ----

  ghost predicate SystemOk(s: System, g: nat, n: nat, tasks: seq<S.Tid>) {
    A.SystemOk(s.c, g) && CallsOk(s) && ClaimsOk(s) && SelOk(s) && Counted(s, n, tasks) && GoodOnce(s, tasks) &&
    NumbersOk(s, n)
  }

  ghost predicate CanRun(s: System, g: nat, moves: seq<Move>)
    decreases |moves|
  {
    moves == [] || (CanMove(s, g, moves[0]) && CanRun(Next(s, g, moves[0]), g, moves[1..]))
  }

  ghost function After(s: System, g: nat, moves: seq<Move>): System
    requires CanRun(s, g, moves)
    decreases |moves|
  {
    if moves == [] then s else After(Next(s, g, moves[0]), g, moves[1..])
  }

  lemma AllocationKept(s: System, g: nat, move: Move)
    requires A.SystemOk(s.c, g) && CanMove(s, g, move)
    ensures A.SystemOk(Next(s, g, move).c, g)
  {
    hide A.SystemOk, A.Next, A.CanMove;
    match move
    case Kernel(e) => A.MoveKeeps(s.c, g, A.Kernel(e));
    case Start(_, _) => A.MoveKeeps(s.c, g, A.Enter);
    case Go(base, limit) => A.MoveKeeps(s.c, g, A.Go(base, limit));
    case Finish =>
      var x := s.call[s.c.k.curr];
      if S.GoodName(x.name) {
        A.MoveKeeps(s.c, g, A.Kernel(S.Spawn(x.task)));
      }
  }

  /** Every move of every task keeps the invariant. */
  lemma MoveKeeps(s: System, g: nat, move: Move, n: nat, tasks: seq<S.Tid>)
    requires SystemOk(s, g, n, tasks) && CanMove(s, g, move)
    ensures SystemOk(Next(s, g, move), g, n, tasks)
  {
    hide A.SystemOk, CallsOk, ClaimsOk, SelOk, GoodOnce, NumbersOk, CanMove, Next;
    AllocationKept(s, g, move);
    CallsKept(s, g, move);
    ClaimsKept(s, g, move);
    SelKept(s, g, move);
    CountedKept(s, g, move, n, tasks);
    GoodOnceKept(s, g, move, n, tasks);
    NumbersKept(s, g, move, n);
  }

  lemma {:induction false} RunKeeps(s: System, g: nat, moves: seq<Move>, n: nat, tasks: seq<S.Tid>)
    requires SystemOk(s, g, n, tasks) && CanRun(s, g, moves)
    ensures SystemOk(After(s, g, moves), g, n, tasks)
    decreases |moves|
  {
    hide SystemOk, CanMove, Next;
    if moves != [] {
      MoveKeeps(s, g, moves[0], n, tasks);
      RunKeeps(Next(s, g, moves[0]), g, moves[1..], n, tasks);
    }
  }

  /** After boot's `n` undisturbed calls: nobody is inside `task_init`. `sel` and `inits` start from here. */
  ghost predicate Quiescent(s: System, g: nat, n: nat) {
    A.Quiescent(s.c, g, n) && s.call == map[] && s.sel == map[] && s.inits == []
  }

  lemma QuiescentOk(s: System, g: nat, n: nat)
    requires Quiescent(s, g, n)
    ensures SystemOk(s, g, n, s.c.k.tasks)
  {
    hide A.SystemOk;
    A.QuiescentOk(s.c, g, n);
    assert Out(s.call, s.c.at) == {};
    assert s.c.k.tasks + [] == s.c.k.tasks;
  }

  /** In every interleaving each returned call has used up one slot while there was one, whatever its name, and the
      calls with a good name, and they alone, have registered their structs, in the order in which they returned. */
  lemma SlotsAndTasks(s: System, g: nat, n: nat, moves: seq<Move>)
    requires Quiescent(s, g, n) && CanRun(s, g, moves)
    ensures var s1 := After(s, g, moves);
            && s1.c.k.tasks == s.c.k.tasks + Registered(s1.inits)
            && (s1.call == map[] ==> G.UsedUpTo(s1.c.table, A.Top(n + |s1.inits|)))
  {
    hide A.Quiescent, CanRun, After, S.Inv, G.UsedUpTo, ClaimsOk, SelOk, GoodOnce, NumbersOk, A.FillsOk;
    QuiescentOk(s, g, n);
    RunKeeps(s, g, moves, n, s.c.k.tasks);
    var s1 := After(s, g, moves);
    if s1.call == map[] {
      assert Out(s1.call, s1.c.at) == {};
      assert s1.c.k.mutexes[g].owner !in s1.c.at;
    }
  }

  lemma {:induction false} LastClaimIs(inits: seq<Call>, u: S.Tid, j: nat)
    requires j < |inits| && inits[j].task == u && inits[j].result >= 0
    requires forall l :: 0 <= l < |inits| && l != j ==> inits[l].result != inits[j].result
    ensures LastClaim(inits, u) == inits[j].result
       <==> forall l :: j < l < |inits| && inits[l].task == u ==> inits[l].result < 0
  {
    var last := |inits| - 1;
    if j < last && !(inits[last].task == u && inits[last].result >= 0) {
      var before := inits[..last];
      assert forall l :: 0 <= l < last ==> before[l] == inits[l];
      LastClaimIs(before, u, j);
    }
  }

  lemma {:induction false} LastClaimSource(inits: seq<Call>, u: S.Tid)
    ensures LastClaim(inits, u) == -1 ||
            exists l :: 0 <= l < |inits| && inits[l].task == u && inits[l].result == LastClaim(inits, u) >= 0
  {
    if inits != [] {
      var before := inits[..|inits| - 1];
      LastClaimSource(before, u);
      assert forall l :: 0 <= l < |before| ==> before[l] == inits[l];
      assert inits[|inits| - 1] in inits;
    }
  }

  /** Some registered task's selector is `r`. */
  ghost predicate Owned(s: System, r: int) {
    exists u :: u in s.c.k.tasks && Selected(s.sel, u) == r
  }

  predicate NamedWell(inits: seq<Call>, u: S.Tid, from: nat) {
    exists l :: from <= l < |inits| && inits[l].task == u && S.GoodName(inits[l].name)
  }

  /** A later call for `u` came early enough to be given a slot of its own. */
  predicate ClaimedAgain(inits: seq<Call>, u: S.Tid, after: nat) {
    exists l :: after < l < |inits| && inits[l].task == u && inits[l].number < CLAIMS
  }

  lemma OnlyOwner(s: System, g: nat, n: nat, tasks: seq<S.Tid>, j: nat, u: S.Tid)
    requires SystemOk(s, g, n, tasks) && j < |s.inits| && s.inits[j].result >= 0
    requires u in s.c.k.tasks && Selected(s.sel, u) == s.inits[j].result
    ensures u == s.inits[j].task
  {
    hide A.SystemOk, Counted, GoodOnce;
    assert forall t :: !Setting(s, t, u);
    LastClaimSource(s.inits, u);
  }

  /** Exactly when a claimed slot ends up with a registered task. A call with a number below 253 is given the slot
      that goes with it; the slot is some registered task's selector if and only if this call or a later one for the
      struct had a good name, and no later one for it had a number below 253. */
  lemma SlotOwnedExactlyWhen(s: System, g: nat, n: nat, moves: seq<Move>, j: nat)
    requires Quiescent(s, g, n) && CanRun(s, g, moves)
    requires j < |After(s, g, moves).inits| && After(s, g, moves).inits[j].number < CLAIMS
    ensures var s1 := After(s, g, moves);
            var x := s1.inits[j];
            x.result == (3 + x.number) * G.DESC_BYTES &&
            (Owned(s1, x.result) <==> NamedWell(s1.inits, x.task, j) && !ClaimedAgain(s1.inits, x.task, j))
  {
    hide Quiescent, CanRun, After, A.SystemOk, S.GoodName, Registered, Released, HasNumber, NumberOk, Out, ClaimOk;
    var tasks := s.c.k.tasks;
    QuiescentOk(s, g, n);
    RunKeeps(s, g, moves, n, tasks);
    var s1 := After(s, g, moves);
    var u, r := s1.inits[j].task, s1.inits[j].result;
    RegisteredMembers(s1.inits, u);
    LastClaimIs(s1.inits, u, j);
    if v :| v in s1.c.k.tasks && Selected(s1.sel, v) == r {
      OnlyOwner(s1, g, n, tasks, j, v);
    }
    if u in s1.c.k.tasks {
      assert forall t :: !Setting(s1, t, u);
    }
  }

  // ---- a refused name costs a slot ----

  /** How many steps a call still has to take. */
  function Remaining(s: System, t: S.Tid): nat {
    if t !in s.c.at then 0
    else
      match s.c.at[t]
      case Scan(i) => 20 + if i < G.SIZE then G.SIZE - i else 0
      case Mark(_) => 19
      case Release(_) => 18
      case Fill(_, _, n) => if n < 5 then 10 - n else 1
  }

  /** The number of `t`'s call, if no other call releases the lock before it. */
  function ExpectedNumber(s: System, t: S.Tid): nat
    requires t in s.call
  {
    if Released(s, t) then s.call[t].number else |s.c.log|
  }

  lemma SoloGo(s: System, g: nat, n: nat, tasks: seq<S.Tid>)
    requires SystemOk(s, g, n, tasks) && s.c.k.curr in s.call && !s.call[s.c.k.curr].done
    ensures CanMove(s, g, Go(0, 0))
    ensures var t, s1 := s.c.k.curr, Next(s, g, Go(0, 0));
            && s1.c.k.curr == t && s1.call.Keys == s.call.Keys && s1.inits == s.inits
            && s1.call[t].task == s.call[t].task && s1.call[t].name == s.call[t].name
            && ExpectedNumber(s1, t) == ExpectedNumber(s, t)
            && Remaining(s1, t) < Remaining(s, t)
  {
    hide ClaimsOk, SelOk, Counted, GoodOnce, NumbersOk, A.Guarded, A.FillsOk, A.LogOk, A.HolderOk, S.Inv, S.Step,
      S.Enabled, A.TssDesc, A.PutField, G.UsedUpTo, A.Top;
    A.NeverStuck(s.c, g, 0, 0);
    GoEffect(s.c, g, 0, 0);
  }

  lemma SoloFinish(s: System, g: nat, n: nat, tasks: seq<S.Tid>)
    requires SystemOk(s, g, n, tasks) && s.call.Keys == {s.c.k.curr} && s.call[s.c.k.curr].done
    ensures CanMove(s, g, Finish)
    ensures var s1 := Next(s, g, Finish);
            s1.call == map[] && s1.inits == s.inits + [s.call[s.c.k.curr]] && s1.c.k.curr == s.c.k.curr
  {
    hide ClaimsOk, SelOk, Counted, GoodOnce, NumbersOk, S.Inv, A.Guarded, A.FillsOk, A.LogOk, A.TableOk;
  }

  /** A call that no other is in the way of runs to its end. */
  lemma {:induction false} Solo(s: System, g: nat, n: nat, tasks: seq<S.Tid>) returns (moves: seq<Move>)
    requires SystemOk(s, g, n, tasks) && s.call.Keys == {s.c.k.curr}
    ensures CanRun(s, g, moves)
    ensures var x, s1 := s.call[s.c.k.curr], After(s, g, moves);
            s1.call == map[] && s1.c.k.curr == s.c.k.curr &&
            |s1.inits| == |s.inits| + 1 && s1.inits[..|s.inits|] == s.inits &&
            s1.inits[|s.inits|].task == x.task && s1.inits[|s.inits|].name == x.name &&
            s1.inits[|s.inits|].number == ExpectedNumber(s, s.c.k.curr)
    decreases Remaining(s, s.c.k.curr)
  {
    hide SystemOk, CanMove, Next, Remaining;
    if s.call[s.c.k.curr].done {
      SoloFinish(s, g, n, tasks);
      moves := [Finish];
      assert moves[1..] == [];
    } else {
      SoloGo(s, g, n, tasks);
      MoveKeeps(s, g, Go(0, 0), n, tasks);
      var rest := Solo(Next(s, g, Go(0, 0)), g, n, tasks);
      moves := [Go(0, 0)] + rest;
      assert moves[1..] == rest;
    }
  }

  lemma FreeLock(c: A.System, g: nat)
    requires A.SystemOk(c, g) && c.at == map[] && c.k.curr != S.IDLE
    ensures A.CanMove(c, g, A.Enter) && A.Next(c, g, A.Enter).k.curr == c.k.curr
  {
    hide S.Inv, A.TableOk, A.FillsOk, A.LogOk;
    A.HeldDepth(c.k, g);
  }

  lemma SoloStart(s: System, g: nat, n: nat, tasks: seq<S.Tid>, task: S.Tid, name: string)
    requires SystemOk(s, g, n, tasks) && s.call == map[] && s.c.k.curr != S.IDLE
    requires task != S.NULL && task != S.IDLE && task !in s.c.k.tasks
    ensures CanMove(s, g, Start(task, name))
    ensures var s1 := Next(s, g, Start(task, name));
            s1.c.k.curr == s.c.k.curr && s1.call == map[s.c.k.curr := Call(task, name, 0, false, -1)] &&
            s1.inits == s.inits && ExpectedNumber(s1, s.c.k.curr) == |s.c.log|
  {
    hide A.SystemOk, A.Next, A.CanMove, ClaimsOk, SelOk, Counted, GoodOnce, NumbersOk;
    assert s.c.at == map[];
    FreeLock(s.c, g);
    EnterEffect(s.c, g);
  }

  /** With no other call in progress, a call with any name can run to its end undisturbed, and is given the selector of
      the next number. */
  lemma SoloCall(s: System, g: nat, n: nat, tasks: seq<S.Tid>, task: S.Tid, name: string) returns (moves: seq<Move>)
    requires SystemOk(s, g, n, tasks) && s.call == map[] && s.c.k.curr != S.IDLE
    requires task != S.NULL && task != S.IDLE && task !in s.c.k.tasks
    ensures CanRun(s, g, moves)
    ensures var s1 := After(s, g, moves);
            && SystemOk(s1, g, n, tasks) && s1.call == map[] && s1.c.k.curr == s.c.k.curr
            && s1.inits == s.inits + [Call(task, name, |s.c.log|, true, A.Selector(|s.c.log|))]
            && s1.c.k.tasks == s.c.k.tasks + (if S.GoodName(name) then [task] else [])
            && |s1.c.log| == |s.c.log| + 1
  {
    hide SystemOk, CanMove, Next, S.GoodName, A.Selector;
    SoloStart(s, g, n, tasks, task, name);
    var s0 := Next(s, g, Start(task, name));
    MoveKeeps(s, g, Start(task, name), n, tasks);
    var rest := Solo(s0, g, n, tasks);
    moves := [Start(task, name)] + rest;
    assert moves[1..] == rest;
    RunKeeps(s, g, moves, n, tasks);
    var s1 := After(s, g, moves);
    LastResult(s1, g, n, tasks);
    assert s1.inits == s.inits + [s1.inits[|s.inits|]];
    QuietCounts(s, g, n, tasks);
    QuietCounts(s1, g, n, tasks);
    assert s1.inits[..|s1.inits| - 1] == s.inits;
    assert s1.c.k.tasks == tasks + (Registered(s.inits) + if S.GoodName(name) then [task] else []);
    assert s.c.k.tasks == tasks + Registered(s.inits);
  }

  lemma LastResult(s: System, g: nat, n: nat, tasks: seq<S.Tid>)
    requires SystemOk(s, g, n, tasks)
    ensures forall j :: 0 <= j < |s.inits| ==> s.inits[j].done && s.inits[j].result == A.Selector(s.inits[j].number)
  {
    hide A.SystemOk, A.Selector;
  }

  lemma QuietCounts(s: System, g: nat, n: nat, tasks: seq<S.Tid>)
    requires SystemOk(s, g, n, tasks) && s.call == map[]
    ensures |s.c.log| == n + |s.inits| && s.c.k.tasks == tasks + Registered(s.inits)
  {
    hide A.SystemOk, ClaimsOk, SelOk, GoodOnce, NumbersOk, Registered;
    assert Out(s.call, s.c.at) == {};
  }

  /** A refused `task_init` still uses up a descriptor: from any quiet state with a free slot, a call with a bad name
      can run to its end, and then one slot more is in use, nothing is registered, and no task has the slot. */
  lemma RefusedCallKeepsSlot(s: System, g: nat, n: nat, task: S.Tid, name: string) returns (moves: seq<Move>)
    requires Quiescent(s, g, n) && s.c.k.curr != S.IDLE && n < CLAIMS && !S.GoodName(name)
    requires task != S.NULL && task != S.IDLE && task !in s.c.k.tasks
    ensures CanRun(s, g, moves)
    ensures var s1 := After(s, g, moves);
            s1.call == map[] && s1.inits == [Call(task, name, n, true, (3 + n) * G.DESC_BYTES)] &&
            s1.c.k.tasks == s.c.k.tasks && !Owned(s1, (3 + n) * G.DESC_BYTES) &&
            G.UsedUpTo(s.c.table, A.Top(n)) && G.UsedUpTo(s1.c.table, A.Top(n + 1))
  {
    hide CanRun, After, S.GoodName, G.UsedUpTo, Owned, SystemOk;
    QuiescentOk(s, g, n);
    moves := SoloCall(s, g, n, s.c.k.tasks, task, name);
    SlotsAndTasks(s, g, n, moves);
    assert s.c.k.tasks + [] == s.c.k.tasks;
    SlotOwnedExactlyWhen(s, g, n, moves, 0);
  }

  // ---- who gets a selector ----

  /** Exactly when a call is given a selector: fewer than 253 calls released the lock before it. */
  lemma CallSelectorExactlyWhen(s: System, g: nat, n: nat, moves: seq<Move>, j: nat)
    requires Quiescent(s, g, n) && CanRun(s, g, moves) && j < |After(s, g, moves).inits|
    ensures var s1 := After(s, g, moves);
            var x := s1.inits[j];
            n <= x.number < |s1.c.log| && x.result == A.Selector(x.number) && (x.result >= 0 <==> x.number < CLAIMS)
  {
    hide Quiescent, CanRun, After, A.SystemOk, ClaimsOk, SelOk, Counted, GoodOnce;
    QuiescentOk(s, g, n);
    RunKeeps(s, g, moves, n, s.c.k.tasks);
  }

  /** Once no call is in progress, the calls carry the numbers from `n` on, each once. */
  lemma NumbersHaveNoGaps(s: System, g: nat, n: nat, moves: seq<Move>, m: nat)
    requires Quiescent(s, g, n) && CanRun(s, g, moves) && After(s, g, moves).call == map[]
    ensures var inits := After(s, g, moves).inits;
            && (n <= m < n + |inits| <==> exists j :: 0 <= j < |inits| && inits[j].number == m)
            && (forall i, j :: 0 <= i < j < |inits| ==> inits[i].number != inits[j].number)
  {
    hide Quiescent, CanRun, After, A.SystemOk, ClaimsOk, SelOk, GoodOnce, A.Selector;
    QuiescentOk(s, g, n);
    RunKeeps(s, g, moves, n, s.c.k.tasks);
    var s1 := After(s, g, moves);
    QuietCounts(s1, g, n, s.c.k.tasks);
    if n <= m < n + |s1.inits| {
      assert HasNumber(s1, m);
    }
  }

  /** Exactly when every call is given a selector: there were no more calls, with the `n` at boot, than slots. */
  lemma AllSelectedExactlyWhen(s: System, g: nat, n: nat, moves: seq<Move>)
    requires Quiescent(s, g, n) && CanRun(s, g, moves) && After(s, g, moves).call == map[] && n <= CLAIMS
    ensures var inits := After(s, g, moves).inits;
            ((forall j :: 0 <= j < |inits| ==> inits[j].result >= 0) <==> n + |inits| <= CLAIMS)
  {
    hide Quiescent, CanRun, After, A.Selector;
    var inits := After(s, g, moves).inits;
    forall j | 0 <= j < |inits|
      ensures inits[j].result >= 0 <==> inits[j].number < CLAIMS
      ensures inits[j].number < n + |inits|
    {
      CallSelectorExactlyWhen(s, g, n, moves, j);
      NumbersHaveNoGaps(s, g, n, moves, inits[j].number);
    }
    if n + |inits| > CLAIMS {
      NumbersHaveNoGaps(s, g, n, moves, CLAIMS);
    }
  }

  /** Exactly when a registered task has a selector: some call for it released the lock as one of the first 253. */
  lemma SelectorSetExactlyWhen(s: System, g: nat, n: nat, moves: seq<Move>, u: S.Tid)
    requires Quiescent(s, g, n) && CanRun(s, g, moves) && u in After(s, g, moves).c.k.tasks
    ensures var s1 := After(s, g, moves);
            (u in s1.sel <==> exists l :: 0 <= l < |s1.inits| && s1.inits[l].task == u && s1.inits[l].number < CLAIMS)
  {
    hide Quiescent, CanRun, After, A.SystemOk, ClaimsOk, Counted, GoodOnce, Released, HasNumber;
    QuiescentOk(s, g, n);
    RunKeeps(s, g, moves, n, s.c.k.tasks);
    var s1 := After(s, g, moves);
    assert forall t :: !Setting(s1, t, u);
    LastClaimSource(s1.inits, u);
    if l :| 0 <= l < |s1.inits| && s1.inits[l].task == u && s1.inits[l].number < CLAIMS {
      ClaimedOnce(s1.inits, u, l);
    }
  }

  lemma {:induction false} ClaimedOnce(inits: seq<Call>, u: S.Tid, l: nat)
    requires l < |inits| && inits[l].task == u && inits[l].result >= 0
    ensures LastClaim(inits, u) >= 0
  {
    if l < |inits| - 1 {
      ClaimedOnce(inits[..|inits| - 1], u, l);
    }
  }

  lemma {:induction false} RunAppend(s: System, g: nat, a: seq<Move>, b: seq<Move>)
    requires CanRun(s, g, a) && CanRun(After(s, g, a), g, b)
    ensures CanRun(s, g, a + b) && After(s, g, a + b) == After(After(s, g, a), g, b)
    decreases |a|
  {
    hide CanMove, Next;
    if a == [] {
      assert a + b == b;
    } else {
      assert (a + b)[1..] == a[1..] + b;
      RunAppend(Next(s, g, a[0]), g, a[1..], b);
    }
  }

  /** An address above all of `q` and above idle's. */
  function Above(q: seq<S.Tid>): (b: S.Tid)
    ensures b > S.IDLE && forall t :: t in q ==> t < b
  {
    if q == [] then S.IDLE + 1
    else
      var b := Above(q[1..]);
      assert forall t :: t in q ==> t == q[0] || t in q[1..];
      if q[0] < b then b else q[0] + 1
  }

  /** `count` calls, one after the other, for the structs at `base`, `base + 1`, and so on. */
  lemma {:induction false} SpawnMany(s: System, g: nat, n: nat, tasks: seq<S.Tid>, base: S.Tid, count: nat)
    returns (moves: seq<Move>)
    requires SystemOk(s, g, n, tasks) && s.call == map[] && s.c.k.curr != S.IDLE
    requires base > S.IDLE && forall t :: t in s.c.k.tasks ==> t < base
    ensures CanRun(s, g, moves)
    ensures var s1 := After(s, g, moves);
            && SystemOk(s1, g, n, tasks) && s1.call == map[] && s1.c.k.curr == s.c.k.curr
            && |s1.c.log| == |s.c.log| + count && |s1.inits| == |s.inits| + count && s.inits <= s1.inits
            && (forall j :: |s.inits| <= j < |s1.inits| ==> s1.inits[j].task >= base)
            && (forall j :: |s.inits| <= j < |s1.inits| ==> s1.inits[j].task < base + count)
            && (forall t :: t in s1.c.k.tasks ==> t < base + count)
    decreases count
  {
    hide SystemOk, A.Selector, CanMove, Next;
    if count == 0 {
      moves := [];
    } else {
      var first := SoloCall(s, g, n, tasks, base, "t");
      var rest := SpawnMany(After(s, g, first), g, n, tasks, base + 1, count - 1);
      RunAppend(s, g, first, rest);
      moves := first + rest;
    }
  }

  /** The run in which a task gets no selector: calls for structs never used before, one after the other, until the 253
      slots are taken; the next call, with a good name too, registers its struct all the same. After boot `n` is 2. */
  lemma FullTableTask(s: System, g: nat, n: nat) returns (moves: seq<Move>, task: S.Tid)
    requires Quiescent(s, g, n) && n <= CLAIMS && s.c.k.curr != S.IDLE
    ensures CanRun(s, g, moves)
    ensures var s1 := After(s, g, moves);
            s1.call == map[] && |s1.inits| == CLAIMS - n + 1 && task in s1.c.k.tasks && task !in s1.sel
  {
    hide Quiescent, SystemOk, CanRun, After, A.Selector;
    QuiescentOk(s, g, n);
    QuiescentCounts(s, g, n);
    var tasks, base, count := s.c.k.tasks, Above(s.c.k.tasks), CLAIMS - n;
    var first := SpawnMany(s, g, n, tasks, base, count);
    var s0 := After(s, g, first);
    task := base + count;
    var last := SoloCall(s0, g, n, tasks, task, "t");
    RunAppend(s, g, first, last);
    moves := first + last;
    SelectorSetExactlyWhen(s, g, n, moves, task);
  }

  lemma QuiescentCounts(s: System, g: nat, n: nat)
    requires Quiescent(s, g, n)
    ensures |s.c.log| == n && s.inits == [] && s.call == map[]
  {
  }

  lemma LowStep(s: System, g: nat, move: Move, before: seq<G.Desc>, n: nat)
    requires A.SystemOk(s.c, g) && CanMove(s, g, move) && A.LowKept(s.c, before, n)
    ensures A.LowKept(Next(s, g, move).c, before, n)
  {
    hide A.SystemOk, A.Next, A.CanMove, A.LowKept;
    match move
    case Kernel(e) => A.LowStep(s.c, g, A.Kernel(e), before, n);
    case Start(_, _) => A.LowStep(s.c, g, A.Enter, before, n);
    case Go(base, limit) => A.LowStep(s.c, g, A.Go(base, limit), before, n);
    case Finish =>
      var x := s.call[s.c.k.curr];
      if S.GoodName(x.name) {
        A.LowStep(s.c, g, A.Kernel(S.Spawn(x.task)), before, n);
      }
  }

  lemma {:induction false} LowRun(s: System, g: nat, moves: seq<Move>, before: seq<G.Desc>, n: nat)
    requires A.SystemOk(s.c, g) && CanRun(s, g, moves) && A.LowKept(s.c, before, n)
    ensures A.LowKept(After(s, g, moves).c, before, n)
    decreases |moves|
  {
    hide A.SystemOk, A.LowKept, CanMove, Next;
    if moves != [] {
      AllocationKept(s, g, moves[0]);
      LowStep(s, g, moves[0], before, n);
      LowRun(Next(s, g, moves[0]), g, moves[1..], before, n);
    }
  }

  /** No two structs ever have the same selector, and none is given a slot that was in use before, as idle's and main's
      are after boot; those slots keep their descriptors. */
  lemma SelectorsPrivate(s: System, g: nat, n: nat, moves: seq<Move>, u: S.Tid)
    requires Quiescent(s, g, n) && CanRun(s, g, moves) && u in After(s, g, moves).sel
    ensures var s1 := After(s, g, moves);
            && s1.sel[u] >= A.Top(n)
            && (forall v :: v in s1.sel && v != u ==> s1.sel[v] != s1.sel[u])
            && |s.c.table| == |s1.c.table| == G.SIZE
            && (forall i :: 0 <= i < A.Top(n) ==> s1.c.table[i] == s.c.table[i])
  {
    hide CanRun, After, A.SystemOk, CallsOk, Counted, GoodOnce, NumbersOk, G.UsedUpTo, S.Inv, A.LogOk;
    QuiescentOk(s, g, n);
    assert A.LowKept(s.c, s.c.table, n) by {
      TableSize(s.c.table, A.Top(n));
    }
    LowRun(s, g, moves, s.c.table, n);
    RunKeeps(s, g, moves, n, s.c.k.tasks);
    var s1 := After(s, g, moves);
    LastClaimSource(s1.inits, u);
    SelectedClaim(s1, u);
    forall v | v in s1.sel && v != u
      ensures s1.sel[v] != s1.sel[u]
    {
      LastClaimSource(s1.inits, v);
    }
  }

  lemma TableSize(t: seq<G.Desc>, n: nat)
    requires G.UsedUpTo(t, n)
    ensures |t| == G.SIZE
  {
  }

  /** A struct's selector is a filled slot. */
  lemma SelectedClaim(s: System, u: S.Tid)
    requires ClaimsOk(s) && SelOk(s) && u in s.sel
    ensures s.sel[u] in s.c.filled
  {
    if t :| Setting(s, t, u) {
      assert ClaimOk(s.call[t], s.c.filled);
    } else {
      LastClaimSource(s.inits, u);
    }
  }

  lemma PromiseKept(s: System, g: nat, move: Move, i: nat, x: A.Extent)
    requires A.SystemOk(s.c, g) && CanMove(s, g, move) && A.Promised(s.c, i, x)
    ensures A.Promised(Next(s, g, move).c, i, x)
  {
    hide A.SystemOk, A.Next, A.CanMove, A.Promised;
    match move
    case Kernel(e) => A.PromiseStep(s.c, g, A.Kernel(e), i, x);
    case Start(_, _) => A.PromiseStep(s.c, g, A.Enter, i, x);
    case Go(base, limit) => A.PromiseStep(s.c, g, A.Go(base, limit), i, x);
    case Finish =>
      var call := s.call[s.c.k.curr];
      if S.GoodName(call.name) {
        A.PromiseStep(s.c, g, A.Kernel(S.Spawn(call.task)), i, x);
      }
  }

  lemma {:induction false} PromiseRun(s: System, g: nat, moves: seq<Move>, i: nat, x: A.Extent)
    requires A.SystemOk(s.c, g) && CanRun(s, g, moves) && A.Promised(s.c, i, x)
    ensures A.SystemOk(After(s, g, moves).c, g) && A.Promised(After(s, g, moves).c, i, x)
    decreases |moves|
  {
    hide A.SystemOk, A.Promised, CanMove, Next;
    if moves != [] {
      AllocationKept(s, g, moves[0]);
      PromiseKept(s, g, moves[0], i, x);
      PromiseRun(Next(s, g, moves[0]), g, moves[1..], i, x);
    }
  }

  /** The running call has been given a selector and is about to release the lock. */
  predicate GivenSlot(s: System) {
    s.c.k.curr in s.c.at && s.c.at[s.c.k.curr].Release? && s.c.at[s.c.k.curr].result >= 0
  }

  function SlotGiven(s: System): nat
    requires GivenSlot(s)
  {
    s.c.at[s.c.k.curr].result / 8
  }

  /** The call that is given a slot and stores a segment's base and limit finds exactly those in it, in every
      continuation in which nobody is storing to it any more. */
  lemma CallersSegmentStored(s: System, g: nat, base: bv32, limit: bv32, later: seq<Move>)
    requires A.SystemOk(s.c, g) && CanMove(s, g, Go(base, limit)) && GivenSlot(s)
    requires CanRun(Next(s, g, Go(base, limit)), g, later)
    requires !A.Storing(After(Next(s, g, Go(base, limit)), g, later).c, SlotGiven(s))
    ensures A.HoldsSegment(After(Next(s, g, Go(base, limit)), g, later).c.table, SlotGiven(s), base, limit)
  {
    hide A.SystemOk, A.Promised, A.Storing, A.HoldsSegment, Next, CanRun, After;
    var s1 := Next(s, g, Go(base, limit));
    GoRecords(s, g, base, limit);
    A.PromiseMade(s.c, g, base, limit);
    AllocationKept(s, g, Go(base, limit));
    PromiseRun(s1, g, later, SlotGiven(s), A.Extent(base, limit));
    A.PromiseFulfilled(After(s1, g, later).c, g, SlotGiven(s), base, limit);
  }
}
