/** The kernel objects themselves: tasks with embedded list nodes, mutexes, semaphores and the task manager, updated in
    place. Every operation is proved to take the model state to the state `Sched` gives for it. */
module Kernel {
  import opened Seqs
  import opened Lists
  import S = Sched
  import I = SchedInvariant

  /** `uint32_t` */
  type Word = n: int | 0 <= n < S.UINT32

  /** `task_t`, the parts scheduling uses. */
  class Task {
    const addr: S.Tid
    const runNode: Node
    const allNode: Node
    const waitNode: Node
    var state: S.TaskState
    var sliceTicks: int
    var timeTicks: int
    var sleepTicks: int
    var name: string

    constructor (addr: S.Tid)
      ensures this.addr == addr && Embeds()
      ensures fresh(runNode) && fresh(allNode) && fresh(waitNode)
      ensures runNode.list == null && allNode.list == null && waitNode.list == null
    {
      this.addr := addr;
      runNode := new Node(addr);
      allNode := new Node(addr);
      waitNode := new Node(addr);
      state, sliceTicks, timeTicks, sleepTicks, name := S.Created, 0, 0, 0, "";
    }

    /** The part of `task_init` that fills in the struct. */
    method Reset(name: string)
      requires runNode.list == null && allNode.list == null && waitNode.list == null
      modifies this, runNode, allNode, waitNode
      ensures Tcb() == S.NewTcb() && this.name == name
      ensures runNode.list == null && allNode.list == null && waitNode.list == null
      ensures forall l: List :: old(allocated(l)) && old(l.Valid()) ==> l.Valid() && l.nodes == old(l.nodes)
    {
      hide List.Spells;
      this.name := name;
      state := S.Created;
      sleepTicks := 0;
      timeTicks := S.TIME_SLICE;
      sliceTicks := timeTicks;
      allNode.Init();
      runNode.Init();
      waitNode.Init();
    }

    /** The three nodes are parts of this struct and different from each other. */
    ghost predicate Embeds() {
      && runNode.container == addr && allNode.container == addr && waitNode.container == addr
      && runNode != allNode && runNode != waitNode && allNode != waitNode
    }

    ghost function Tcb(): S.Tcb
      reads this
    {
      S.Tcb(state, sliceTicks, timeTicks, sleepTicks)
    }
  }

  /** `rein_mutex_t` */
  class ReinMutex {
    var owner: Task?
    var locker: int
    const waitList: List
    ghost const index: nat

    constructor (ghost index: nat)
      ensures owner == null && locker == 0 && this.index == index
      ensures fresh(waitList) && waitList.Valid() && waitList.nodes == [] && waitList.id == 2 * index + 3
    {
      owner, locker := null, 0;
      waitList := new List(2 * index + 3);
      this.index := index;
    }
  }

  /** `sem_t` */
  class Semaphore {
    var count: int
    const waitList: List
    ghost const index: nat

    constructor (initCount: int, ghost index: nat)
      ensures count == initCount && this.index == index
      ensures fresh(waitList) && waitList.Valid() && waitList.nodes == [] && waitList.id == 2 * index + 4
    {
      count := initCount;
      waitList := new List(2 * index + 4);
      this.index := index;
    }
  }

  ghost function Addr(t: Task?): S.Tid {
    if t == null then S.NULL else t.addr
  }

  /** `l` holds the run nodes of the tasks `ids`, in order. */
  ghost predicate RunQueue(l: List, ids: seq<S.Tid>, tasks: map<S.Tid, Task>)
    reads l, (set a | a in tasks :: tasks[a].runNode)
  {
    && |ids| == |l.nodes|
    && (forall i :: 0 <= i < |ids| ==> ids[i] in tasks && ids[i] != S.IDLE && l.nodes[i] == tasks[ids[i]].runNode)
    && l.Valid()
  }

  ghost predicate WaitQueue(l: List, ids: seq<S.Tid>, tasks: map<S.Tid, Task>)
    reads l, (set a | a in tasks :: tasks[a].waitNode)
  {
    && |ids| == |l.nodes|
    && (forall i :: 0 <= i < |ids| ==> ids[i] in tasks && ids[i] != S.IDLE && l.nodes[i] == tasks[ids[i]].waitNode)
    && l.Valid()
  }

  ghost predicate AllQueue(l: List, ids: seq<S.Tid>, tasks: map<S.Tid, Task>)
    reads l, (set a | a in tasks :: tasks[a].allNode)
  {
    && |ids| == |l.nodes|
    && (forall i :: 0 <= i < |ids| ==> ids[i] in tasks && ids[i] != S.IDLE && l.nodes[i] == tasks[ids[i]].allNode)
    && l.Valid()
  }

  /** `t` is null or stands at its address. */
  ghost predicate Known(t: Task?, tasks: map<S.Tid, Task>) {
    t != null ==> t.addr in tasks && tasks[t.addr] == t
  }

  ghost predicate MutexRep(m: ReinMutex, x: S.Mutex, tasks: map<S.Tid, Task>)
    reads m, m.waitList, (set a | a in tasks :: tasks[a].waitNode)
  {
    && Known(m.owner, tasks) && x.owner == Addr(m.owner) && x.depth == m.locker
    && WaitQueue(m.waitList, x.wait, tasks)
  }

  ghost predicate SemRep(m: Semaphore, x: S.Sem, tasks: map<S.Tid, Task>)
    reads m, m.waitList, (set a | a in tasks :: tasks[a].waitNode)
  {
    x.count == m.count && WaitQueue(m.waitList, x.wait, tasks)
  }

  /** `task_manager_t`, with the mutexes and semaphores made so far. */
  class Manager {
    const readyList: List
    const sleepList: List
    const taskList: List
    const idle: Task
    var curr: Task?
    /** Which struct stands at an address: idle and every registered task. */
    var tasks: map<S.Tid, Task>
    var sysTick: Word
    ghost var mutexes: seq<ReinMutex>
    ghost var sems: seq<Semaphore>
    ghost var model: S.State
    ghost var Repr: set<object>

    /** What does not change except when something is registered. */
    ghost predicate Layout()
      reads `tasks, `mutexes, `sems, `Repr
    {
      && {this, readyList, sleepList, taskList} <= Repr
      && readyList.id == 0 && sleepList.id == 1 && taskList.id == 2
      && S.IDLE in tasks && tasks[S.IDLE] == idle && S.NULL !in tasks
      && (forall a :: a in tasks ==> tasks[a].addr == a && tasks[a].Embeds() && tasks[a] in Repr)
      && (forall a :: a in tasks ==> {tasks[a].runNode, tasks[a].allNode, tasks[a].waitNode} <= Repr)
      && (forall i :: 0 <= i < |mutexes| ==>
            {mutexes[i], mutexes[i].waitList} <= Repr && mutexes[i].index == i && mutexes[i].waitList.id == 2 * i + 3)
      && (forall i :: 0 <= i < |sems| ==>
            {sems[i], sems[i].waitList} <= Repr && sems[i].index == i && sems[i].waitList.id == 2 * i + 4)
    }

    ghost predicate TcbsRep()
      requires Layout()
      reads `tasks, `mutexes, `sems, `Repr, `model, `curr, tasks.Values
    {
      && (forall a :: a in model.tcb <==> a in tasks && a != S.IDLE)
      && (forall a :: a in model.tcb ==> model.tcb[a] == tasks[a].Tcb())
      && Known(curr, tasks) && model.curr == Addr(curr)
    }

    ghost predicate MutexesRep()
      reads `mutexes, `model, `tasks, mutexes, (set i | 0 <= i < |mutexes| :: mutexes[i].waitList)
      reads (set a | a in tasks :: tasks[a].waitNode)
    {
      && |mutexes| == |model.mutexes|
      && forall i :: 0 <= i < |mutexes| ==> MutexRep(mutexes[i], model.mutexes[i], tasks)
    }

    ghost predicate SemsRep()
      reads `sems, `model, `tasks, sems, (set i | 0 <= i < |sems| :: sems[i].waitList)
      reads (set a | a in tasks :: tasks[a].waitNode)
    {
      && |sems| == |model.sems|
      && forall i :: 0 <= i < |sems| ==> SemRep(sems[i], model.sems[i], tasks)
    }

    /** The objects represent the model state. */
    ghost predicate Rep()
      reads `tasks, `mutexes, `sems, `Repr, `model, `curr, tasks.Values
      reads readyList, sleepList, taskList, (set a | a in tasks :: tasks[a].runNode)
      reads (set a | a in tasks :: tasks[a].allNode), (set a | a in tasks :: tasks[a].waitNode)
      reads mutexes, (set i | 0 <= i < |mutexes| :: mutexes[i].waitList)
      reads sems, (set i | 0 <= i < |sems| :: sems[i].waitList)
    {
      && Layout()
      && TcbsRep()
      && RunQueue(readyList, model.ready, tasks)
      && RunQueue(sleepList, model.sleep, tasks)
      && AllQueue(taskList, model.tasks, tasks)
      && MutexesRep()
      && SemsRep()
    }

    ghost predicate Registered(t: Task)
      reads this
    {
      t.addr in tasks && t.addr != S.IDLE && tasks[t.addr] == t
    }

    /** A task is never both on a run queue and on a wait queue. */
    ghost predicate Exclusive()
      reads `tasks, (set a | a in tasks :: tasks[a].runNode)`list, (set a | a in tasks :: tasks[a].waitNode)`list
    {
      forall a :: a in tasks ==> tasks[a].runNode.list == null || tasks[a].waitNode.list == null
    }

    /** The state between operations once the first task runs. */
    ghost predicate Valid()
      reads `tasks, `mutexes, `sems, `Repr, `model, `curr, tasks.Values
      reads readyList, sleepList, taskList, (set a | a in tasks :: tasks[a].runNode)
      reads (set a | a in tasks :: tasks[a].allNode), (set a | a in tasks :: tasks[a].waitNode)
      reads mutexes, (set i | 0 <= i < |mutexes| :: mutexes[i].waitList)
      reads sems, (set i | 0 <= i < |sems| :: sems[i].waitList)
    {
      Rep() && Exclusive() && S.Inv(model)
    }

    /** `task_manager_init` is done and no task runs yet: `curr_task` is null. */
    ghost predicate Booted()
      reads `tasks, `mutexes, `sems, `Repr, `model, `curr, tasks.Values
      reads readyList, sleepList, taskList, (set a | a in tasks :: tasks[a].runNode)
      reads (set a | a in tasks :: tasks[a].allNode), (set a | a in tasks :: tasks[a].waitNode)
      reads mutexes, (set i | 0 <= i < |mutexes| :: mutexes[i].waitList)
      reads sems, (set i | 0 <= i < |sems| :: sems[i].waitList)
    {
      Rep() && Exclusive() && curr == null
    }

    /** The running task is a task, not idle. */
    ghost predicate Busy()
      reads `curr, `tasks
    {
      curr != null && Known(curr, tasks) && curr.addr != S.IDLE
    }

    /** `task_manager_init`: empty lists, no running task, and the idle task, which is on no list. */
    constructor ()
      ensures Rep() && fresh(Repr)
      ensures model == S.State([], [], [], S.NULL, map[], [], [])
      ensures Exclusive() && Booting(model) && sysTick == 0
      ensures curr == null && tasks.Keys == {S.IDLE} && mutexes == [] && sems == []
    {
      hide List.Spells, List.Valid, RunQueue, AllQueue, MutexRep, SemRep;
      hide Layout, TcbsRep, MutexesRep, SemsRep, Rep;
      readyList := new List(0);
      taskList := new List(2);
      sleepList := new List(1);
      curr := null;
      var t := new Task(S.IDLE);
      t.Reset("idle_task");
      idle := t;
      tasks := map[S.IDLE := t];
      sysTick := 0;
      mutexes, sems := [], [];
      model := S.State([], [], [], S.NULL, map[], [], []);
      Repr := {this, readyList, taskList, sleepList, t, t.runNode, t.allNode, t.waitNode};
      new;
      EmptyRep();
    }

    lemma EmptyRep()
      requires readyList.Valid() && sleepList.Valid() && taskList.Valid()
      requires readyList.nodes == [] && sleepList.nodes == [] && taskList.nodes == []
      requires readyList.id == 0 && sleepList.id == 1 && taskList.id == 2
      requires idle.addr == S.IDLE && idle.Embeds() && tasks == map[S.IDLE := idle] && curr == null
      requires mutexes == [] && sems == [] && model == S.State([], [], [], S.NULL, map[], [], [])
      requires Repr == {this, readyList, taskList, sleepList, idle, idle.runNode, idle.allNode, idle.waitNode}
      ensures Rep()
    {
      hide List.Spells, List.Valid;
    }

    /** Nothing is registered or forgotten, and no tick is counted. */
    twostate predicate SameObjects()
      reads this
    {
      && tasks == old(tasks) && mutexes == old(mutexes) && sems == old(sems)
      && Repr == old(Repr) && sysTick == old(sysTick)
    }

    /** Of all run and wait nodes, at most the run node of the task at `a` has moved to or from a list. */
    twostate predicate OnlyRunNode(new a: S.Tid)
      requires tasks == old(tasks)
      reads `tasks, (set a | a in tasks :: tasks[a].runNode)`list, (set a | a in tasks :: tasks[a].waitNode)`list
    {
      forall b :: b in tasks ==>
        tasks[b].waitNode.list == old(tasks[b].waitNode.list) &&
        (b != a ==> tasks[b].runNode.list == old(tasks[b].runNode.list))
    }

    twostate lemma ExclusiveKept(new a: S.Tid)
      requires old(Exclusive()) && tasks == old(tasks) && OnlyRunNode(a)
      requires a in tasks ==> tasks[a].waitNode.list == null
      ensures Exclusive()
    {
    }

    /** Of all run and wait nodes, at most the two of the task at `a` have moved to or from a list. */
    twostate predicate OnlyTask(new a: S.Tid)
      requires tasks == old(tasks)
      reads `tasks, (set a | a in tasks :: tasks[a].runNode)`list, (set a | a in tasks :: tasks[a].waitNode)`list
    {
      forall b :: b in tasks && b != a ==>
        tasks[b].waitNode.list == old(tasks[b].waitNode.list) && tasks[b].runNode.list == old(tasks[b].runNode.list)
    }

    twostate lemma ExclusiveMoved(new a: S.Tid)
      requires old(Exclusive()) && tasks == old(tasks) && OnlyTask(a)
      requires a in tasks ==> tasks[a].runNode.list == null || tasks[a].waitNode.list == null
      ensures Exclusive()
    {
    }

    // ---- what a change to one list leaves alone ----

    /** A change to the list `l` and to the mutex or semaphore that owns it leaves every other queue as it was. */
    twostate lemma QueuesKept(l: List)
      requires old(Rep()) && Layout()
      requires SameObjects()
      requires forall other: List :: other != l && old(allocated(other)) && old(other.Valid()) ==>
                 other.Valid() && other.nodes == old(other.nodes)
      requires forall i :: 0 <= i < |mutexes| && mutexes[i].waitList != l ==> unchanged(mutexes[i])
      requires forall i :: 0 <= i < |sems| && sems[i].waitList != l ==> unchanged(sems[i])
      ensures l != readyList ==> RunQueue(readyList, old(model.ready), tasks)
      ensures l != sleepList ==> RunQueue(sleepList, old(model.sleep), tasks)
      ensures l != taskList ==> AllQueue(taskList, old(model.tasks), tasks)
      ensures |mutexes| == |old(model.mutexes)| && |sems| == |old(model.sems)|
      ensures forall i :: 0 <= i < |mutexes| && mutexes[i].waitList != l ==>
                MutexRep(mutexes[i], old(model.mutexes)[i], tasks)
      ensures forall i :: 0 <= i < |sems| && sems[i].waitList != l ==> SemRep(sems[i], old(model.sems)[i], tasks)
    {
      hide List.Spells;
      hide List.Valid;
    }

    /** A change to a run queue leaves the task list and every wait queue as they were. */
    twostate lemma RunQueueChanged(l: List)
      requires old(Rep()) && Layout() && SameObjects() && 0 <= l.id <= 1
      requires model.tasks == old(model.tasks) && model.mutexes == old(model.mutexes) && model.sems == old(model.sems)
      requires forall other: List :: other != l && old(allocated(other)) && old(other.Valid()) ==>
                 other.Valid() && other.nodes == old(other.nodes)
      requires forall i :: 0 <= i < |mutexes| ==> unchanged(mutexes[i])
      requires forall i :: 0 <= i < |sems| ==> unchanged(sems[i])
      ensures l != readyList && model.ready == old(model.ready) ==> RunQueue(readyList, model.ready, tasks)
      ensures l != sleepList && model.sleep == old(model.sleep) ==> RunQueue(sleepList, model.sleep, tasks)
      ensures AllQueue(taskList, model.tasks, tasks) && MutexesRep() && SemsRep()
    {
      hide List.Spells, List.Valid, RunQueue, AllQueue, MutexRep, SemRep, TcbsRep;
      QueuesKept(l);
    }

    /** Changing the scheduling fields of `t` and nothing else of any task. */
    twostate lemma TcbsKept(t: Task)
      requires old(Rep()) && Layout() && Registered(t)
      requires tasks == old(tasks) && curr == old(curr) && model.curr == old(model.curr)
      requires forall a :: a in tasks && a != t.addr ==> unchanged(tasks[a])
      requires t.addr in old(model.tcb) && model.tcb == old(model.tcb)[t.addr := t.Tcb()]
      ensures TcbsRep()
    {
      hide List.Spells, List.Valid, RunQueue, AllQueue;
    }

    twostate lemma TcbsSame()
      requires old(Rep()) && Layout()
      requires tasks == old(tasks) && curr == old(curr) && model.curr == old(model.curr) && model.tcb == old(model.tcb)
      requires forall a :: a in tasks ==> unchanged(tasks[a])
      ensures TcbsRep()
    {
      hide List.Spells, List.Valid, RunQueue, AllQueue;
    }

    /** Appending the run node of the task at `a` to a run queue. */
    twostate lemma RunAppended(l: List, new ids: seq<S.Tid>, new a: S.Tid)
      requires old(RunQueue(l, ids, tasks)) && a in tasks && a != S.IDLE && tasks == old(tasks)
      requires l.Valid() && l.nodes == old(l.nodes) + [tasks[a].runNode]
      ensures RunQueue(l, ids + [a], tasks)
    {
      hide List.Spells;
    }

    /** The run node of the task at `a` is gone from the first `k` positions of `l`, so `a` is not among `ids[..k]`. */
    lemma NotAmong(l: List, ids: seq<S.Tid>, k: nat, a: S.Tid)
      requires l.Valid() && k <= |ids| && k <= |l.nodes| && a in tasks && tasks[a].runNode.list == null
      requires forall i :: 0 <= i < k ==> ids[i] in tasks && l.nodes[i] == tasks[ids[i]].runNode
      ensures a !in ids[..k]
    {
      hide List.Spells;
      l.Members();
      forall i | 0 <= i < k
        ensures ids[i] != a
      {
        assert l.nodes[i].list == l;
      }
    }

    /** Unlinking the run node of the task at `a` from a run queue. */
    twostate lemma RunRemoved(l: List, new ids: seq<S.Tid>, new a: S.Tid)
      requires old(RunQueue(l, ids, tasks)) && a in tasks && tasks == old(tasks) && Layout()
      requires l.Valid() && tasks[a].runNode in old(l.nodes) && tasks[a].runNode.list == null
      requires forall k :: 0 <= k < |old(l.nodes)| && old(l.nodes)[k] == tasks[a].runNode ==>
                 l.nodes == old(l.nodes)[..k] + old(l.nodes)[k + 1..]
      ensures RunQueue(l, Remove(ids, a), tasks)
    {
      hide List.Spells, List.Valid;
      var q := old(l.nodes);
      var k :| 0 <= k < |q| && q[k] == tasks[a].runNode;
      RunNodeOf(ids[k]);
      RunNodeOf(a);
      assert ids[k] == a;
      assert l.nodes == q[..k] + q[k + 1..];
      NotAmong(l, ids, k, a);
      RemoveAt(ids, k);
      var rest := ids[..k] + ids[k + 1..];
      forall i | 0 <= i < |rest|
        ensures rest[i] in tasks && rest[i] != S.IDLE && l.nodes[i] == tasks[rest[i]].runNode
      {
        var j := if i < k then i else i + 1;
        assert rest[i] == ids[j] && l.nodes[i] == q[j];
      }
    }

    lemma RunNodeOf(a: S.Tid)
      requires Layout() && a in tasks
      ensures tasks[a].runNode.container == a
    {
    }

    // ---- task_set_ready, task_set_block, task_set_sleep, task_set_wakeup, task_dispatch ----

    lemma TaskRep(t: Task)
      requires Rep() && Registered(t)
      ensures t.addr in model.tcb && model.tcb[t.addr] == t.Tcb()
      ensures forall b :: b in tasks ==>
                (b != t.addr ==> tasks[b] != t && tasks[b].runNode != t.runNode && tasks[b].waitNode != t.waitNode)
                && tasks[b].waitNode != t.runNode && tasks[b].runNode != t.waitNode
                && t.allNode !in {tasks[b].runNode, tasks[b].waitNode}
    {
    }

    lemma ListsRep()
      requires Rep()
      ensures Layout() && readyList.Valid() && sleepList.Valid() && readyList.id == 0 && sleepList.id == 1
      ensures taskList.Valid() && taskList.id == 2
      ensures RunQueue(readyList, model.ready, tasks) && RunQueue(sleepList, model.sleep, tasks)
    {
      hide List.Spells, List.Valid;
    }

    /** When no list, mutex or semaphore changes, every queue is as it was. */
    twostate lemma QueuesSame()
      requires old(Rep()) && Layout()
      requires SameObjects()
      requires model == old(model).(curr := model.curr, tcb := model.tcb)
      requires forall l: List :: old(allocated(l)) && old(l.Valid()) ==> l.Valid() && l.nodes == old(l.nodes)
      requires forall i :: 0 <= i < |mutexes| ==> unchanged(mutexes[i])
      requires forall i :: 0 <= i < |sems| ==> unchanged(sems[i])
      ensures TcbsRep() ==> Rep()
    {
      hide List.Spells, List.Valid, RunQueue, WaitQueue, AllQueue, MutexRep, SemRep, Layout, TcbsRep, MutexesRep,
        SemsRep;
      ListsDiffer();
      RunQueueChanged(readyList);
      RunQueueChanged(sleepList);
    }

    lemma ListsDiffer()
      requires Layout()
      ensures readyList.id == 0 && sleepList.id == 1 && taskList.id == 2
    {
    }

    lemma Head()
      requires Rep()
      ensures readyList.first == null <==> model.ready == []
      ensures model.ready != [] ==> HeadAt(model.ready[0])
    {
      hide MutexesRep, SemsRep;
    }

    ghost predicate HeadAt(a: S.Tid)
      reads this, readyList
    {
      && a in model.tcb && a in tasks && a != S.IDLE && tasks[a].addr == a
      && readyList.first == tasks[a].runNode && tasks[a].runNode.container == a
    }

    twostate lemma DispatchTcbs(to: Task)
      requires old(Rep()) && Layout() && tasks == old(tasks) && model == S.Dispatch(old(model))
      requires curr == to && Known(to, tasks) && model.curr == to.addr
      requires forall a :: a in tasks && tasks[a] != to ==> unchanged(tasks[a])
      requires to.addr == S.IDLE || curr == old(curr) ==> unchanged(to)
      requires to.addr != S.IDLE && curr != old(curr) ==> to.Tcb() == old(to.Tcb()).(state := S.Running)
      ensures TcbsRep()
    {
      hide List.Spells, List.Valid, RunQueue, AllQueue, MutexesRep, SemsRep;
    }

    method SetReady(t: Task)
      requires Rep() && Registered(t) && t.runNode.list == null
      modifies `model, readyList, readyList.nodes`pre, readyList.nodes`next, t.runNode, t`state
      ensures Rep() && model == S.SetReady(old(model), t.addr)
      ensures SameObjects() && t.waitNode.list == old(t.waitNode.list)
      ensures old(Exclusive()) && t.waitNode.list == null ==> Exclusive()
      ensures t.runNode.list == readyList
    {
      hide List.Spells, List.Valid, RunQueue, WaitQueue, AllQueue, MutexRep, SemRep;
      hide Layout, TcbsRep, MutexesRep, SemsRep, Task.Embeds;
      ListsRep();
      TaskRep(t);
      readyList.InsertLast(t.runNode);
      t.state := S.Ready;
      model := S.SetReady(model, t.addr);
      RunQueueChanged(readyList);
      ghost var ids := old(model.ready);
      RunAppended(readyList, ids, t.addr);
      TcbsKept(t);
      if old(Exclusive()) && t.waitNode.list == null {
        ExclusiveKept(t.addr);
      }
    }

    method SetBlock(t: Task)
      requires Rep() && Registered(t) && t.runNode in readyList.nodes
      modifies `model, readyList, readyList.nodes`pre, readyList.nodes`next, t.runNode
      ensures Rep() && model == S.SetBlock(old(model), t.addr)
      ensures SameObjects() && t.waitNode.list == old(t.waitNode.list)
      ensures old(Exclusive()) && t.waitNode.list == null ==> Exclusive()
      ensures t.runNode.list == null
    {
      hide List.Spells, List.Valid, RunQueue, WaitQueue, AllQueue, MutexRep, SemRep;
      hide Layout, TcbsRep, MutexesRep, SemsRep, Task.Embeds;
      ListsRep();
      TaskRep(t);
      readyList.Pop(t.runNode);
      model := S.SetBlock(model, t.addr);
      RunQueueChanged(readyList);
      ghost var ids := old(model.ready);
      RunRemoved(readyList, ids, t.addr);
      TcbsSame();
      if old(Exclusive()) && t.waitNode.list == null {
        ExclusiveKept(t.addr);
      }
    }

    method SetSleep(t: Task, ticks: int)
      requires Rep() && Registered(t) && t.runNode.list == null && 0 <= ticks <= S.INT32_MAX
      modifies `model, sleepList, sleepList.nodes`pre, sleepList.nodes`next, t.runNode, t`state, t`sleepTicks
      ensures Rep() && model == S.SetSleep(old(model), t.addr, ticks)
      ensures SameObjects() && t.waitNode.list == old(t.waitNode.list)
      ensures old(Exclusive()) && t.waitNode.list == null ==> Exclusive()
    {
      hide List.Spells, List.Valid, RunQueue, WaitQueue, AllQueue, MutexRep, SemRep;
      hide Layout, TcbsRep, MutexesRep, SemsRep, Task.Embeds;
      ListsRep();
      TaskRep(t);
      if ticks == 0 {
        return;
      }
      t.sleepTicks := ticks;
      t.state := S.Sleeping;
      sleepList.InsertLast(t.runNode);
      model := S.SetSleep(model, t.addr, ticks);
      RunQueueChanged(sleepList);
      ghost var ids := old(model.sleep);
      RunAppended(sleepList, ids, t.addr);
      TcbsKept(t);
      if old(Exclusive()) && t.waitNode.list == null {
        ExclusiveKept(t.addr);
      }
    }

    method SetWakeup(t: Task)
      requires Rep() && Registered(t) && t.runNode in sleepList.nodes
      modifies `model, sleepList, sleepList.nodes`pre, sleepList.nodes`next, t.runNode
      ensures Rep() && model == old(model).(sleep := Remove(old(model).sleep, t.addr))
      ensures forall k :: 0 <= k < |old(sleepList.nodes)| && old(sleepList.nodes)[k] == t.runNode ==>
                sleepList.nodes == old(sleepList.nodes)[..k] + old(sleepList.nodes)[k + 1..]
      ensures SameObjects() && t.waitNode.list == old(t.waitNode.list)
      ensures old(Exclusive()) && t.waitNode.list == null ==> Exclusive()
      ensures t.runNode.list == null
    {
      hide List.Spells, List.Valid, RunQueue, WaitQueue, AllQueue, MutexRep, SemRep;
      hide Layout, TcbsRep, MutexesRep, SemsRep, Task.Embeds;
      ListsRep();
      TaskRep(t);
      sleepList.Pop(t.runNode);
      model := model.(sleep := Remove(model.sleep, t.addr));
      RunQueueChanged(sleepList);
      ghost var ids := old(model.sleep);
      RunRemoved(sleepList, ids, t.addr);
      TcbsSame();
      if old(Exclusive()) && t.waitNode.list == null {
        ExclusiveKept(t.addr);
      }
    }

    method Dispatch()
      requires Rep()
      modifies `model, `curr, tasks.Values`state
      ensures Rep() && model == S.Dispatch(old(model))
      ensures SameObjects() && (old(Exclusive()) ==> Exclusive())
    {
      hide List.Spells, List.Valid, RunQueue, WaitQueue, AllQueue, MutexRep, SemRep;
      hide Layout, TcbsRep, MutexesRep, SemsRep, Task.Embeds;
      ListsRep();
      CurrRep();
      Head();
      var node := readyList.first;
      if node == null {
        if idle != curr {
          curr := idle;
        }
      } else {
        var to := tasks[node.container];
        if to != curr {
          curr := to;
          to.state := S.Running;
        }
      }
      model := S.Dispatch(model);
      DispatchTcbs(curr);
      QueuesSame();
    }

    lemma CurrRep()
      requires Rep()
      ensures Known(curr, tasks) && model.curr == Addr(curr) && Known(idle, tasks) && idle.addr == S.IDLE
    {
    }

    // ---- what the invariant gives an operation at its start ----

    lemma Running()
      requires Valid() && Busy()
      ensures Registered(curr) && model.curr == curr.addr && curr.Embeds()
      ensures curr.runNode in readyList.nodes && curr.runNode.list == readyList && curr.waitNode.list == null
      ensures model.ready != [] && model.ready[0] == curr.addr
    {
      hide List.Spells, List.Valid, MutexesRep, SemsRep, TcbsRep, S.Conserved, S.LocksOk;
      ListsRep();
      CurrRep();
      var ids := model.ready;
      assert readyList.nodes[0] == tasks[ids[0]].runNode;
      readyList.Members();
    }

    lemma InRepr()
      requires Rep()
      ensures this in Repr && {readyList, sleepList, taskList} <= Repr
      ensures forall a :: a in tasks ==>
                tasks[a] in Repr && {tasks[a].runNode, tasks[a].allNode, tasks[a].waitNode} <= Repr
      ensures forall n :: n in readyList.nodes || n in sleepList.nodes || n in taskList.nodes ==> n in Repr
    {
      hide List.Spells, List.Valid, MutexesRep, SemsRep, TcbsRep;
    }

    method Yield()
      requires Valid() && Busy()
      modifies Repr
      ensures Valid() && SameObjects() && model == S.Step(old(model), S.Yield)
    {
      hide List.Spells, List.Valid, RunQueue, WaitQueue, AllQueue, MutexRep, SemRep;
      hide Rep, Exclusive, S.Inv;
      hide S.SetReady, S.SetBlock, S.Dispatch;
      Running();
      InRepr();
      ReadyCount();
      I.StepKeeps(model, S.Yield);
      if readyList.count > 1 {
        var task := curr;
        SetBlock(task);
        InRepr();
        SetReady(task);
        Dispatch();
      }
    }

    lemma ReadyCount()
      requires Rep()
      ensures readyList.count == |model.ready|
    {
      hide MutexesRep, SemsRep, TcbsRep;
    }

    /** `(ms + OS_TICKS_MS - 1) / OS_TICKS_MS + 1`, where the sum is a 32-bit unsigned one */
    static method TicksFor(ms: Word) returns (ticks: int)
      ensures ticks == S.SleepTicks(ms) && 1 <= ticks <= S.INT32_MAX
      ensures ms <= S.UINT32 - S.TICK_MS <==> ms <= S.TICK_MS * (ticks - 1)
      ensures ms <= S.UINT32 - S.TICK_MS ==> S.TICK_MS * (ticks - 1) < ms + S.TICK_MS
    {
      var sum := (ms + S.TICK_MS - 1) % S.UINT32;
      ticks := sum / S.TICK_MS + 1;
    }

    method Sleep(ms: Word)
      requires Valid() && Busy()
      modifies Repr
      ensures Valid() && SameObjects() && model == S.Step(old(model), S.Sleep(ms))
    {
      hide List.Spells, List.Valid, RunQueue, WaitQueue, AllQueue, MutexRep, SemRep;
      hide Rep, Exclusive, S.Inv;
      hide S.SetSleep, S.SetBlock, S.Dispatch, S.SleepTicks;
      Running();
      InRepr();
      I.StepKeeps(model, S.Sleep(ms));
      I.SleepTicksRange(ms);
      var task := curr;
      SetBlock(task);
      InRepr();
      var ticks := TicksFor(ms);
      SetSleep(task, ticks);
      Dispatch();
    }

    // ---- rein_mutex_lock, rein_mutex_unlock ----

    ghost predicate HasMutex(m: ReinMutex)
      reads `mutexes
    {
      m.index < |mutexes| && mutexes[m.index] == m
    }

    lemma MutexParts(m: ReinMutex)
      requires Rep() && HasMutex(m)
      ensures m.index < |model.mutexes| && MutexRep(m, model.mutexes[m.index], tasks)
      ensures WaitQueue(m.waitList, model.mutexes[m.index].wait, tasks)
      ensures m.waitList.Valid() && m in Repr && m.waitList in Repr && m.waitList.id == 2 * m.index + 3
      ensures m.waitList.count == |model.mutexes[m.index].wait| && m.locker == model.mutexes[m.index].depth
      ensures Known(m.owner, tasks) && Addr(m.owner) == model.mutexes[m.index].owner
      ensures forall n :: n in m.waitList.nodes ==> n in Repr
      ensures forall j :: 0 <= j < |mutexes| && j != m.index ==> mutexes[j] != m && mutexes[j].waitList != m.waitList
    {
      hide RunQueue, AllQueue, TcbsRep;
    }

    /** Mutex `i`, its owner, counter or queue, was changed and still represents its model; nothing else was. */
    twostate lemma MutexChanged(new i: nat)
      requires old(Rep()) && Layout()
      requires SameObjects() && curr == old(curr)
      requires i < |mutexes| && i < |old(model.mutexes)| && i < |model.mutexes|
      requires model == S.SetMutex(old(model), i, model.mutexes[i])
      requires MutexRep(mutexes[i], model.mutexes[i], tasks)
      requires forall other: List :: other != mutexes[i].waitList && old(allocated(other)) && old(other.Valid()) ==>
                 other.Valid() && other.nodes == old(other.nodes)
      requires forall j :: 0 <= j < |mutexes| && j != i ==> unchanged(mutexes[j])
      requires forall j :: 0 <= j < |sems| ==> unchanged(sems[j])
      requires forall a :: a in tasks ==> unchanged(tasks[a])
      ensures Rep()
    {
      hide List.Spells, List.Valid, RunQueue, AllQueue, MutexRep, SemRep, TcbsRep;
      TcbsSame();
      QueuesKept(mutexes[i].waitList);
    }

    /** Only the owner and the counter of mutex `i` were changed. */
    twostate lemma MutexCounted(new i: nat)
      requires old(Rep()) && Layout() && SameObjects() && curr == old(curr)
      requires i < |mutexes| && i < |old(model.mutexes)| && Known(mutexes[i].owner, tasks)
      requires model == S.SetMutex(old(model), i,
                          S.Mutex(Addr(mutexes[i].owner), mutexes[i].locker, old(model.mutexes)[i].wait))
      requires forall l: List :: old(allocated(l)) && old(l.Valid()) ==> l.Valid() && l.nodes == old(l.nodes)
      requires forall j :: 0 <= j < |mutexes| && j != i ==> unchanged(mutexes[j])
      requires forall j :: 0 <= j < |sems| ==> unchanged(sems[j])
      requires forall a :: a in tasks ==> unchanged(tasks[a])
      ensures Rep()
    {
      hide List.Spells, List.Valid, RunQueue, AllQueue, SemRep, TcbsRep, Layout;
      assert old(MutexRep(mutexes[i], model.mutexes[i], tasks));
      MutexChanged(i);
    }

    twostate lemma WaitAppended(l: List, new ids: seq<S.Tid>, new a: S.Tid)
      requires old(WaitQueue(l, ids, tasks)) && a in tasks && a != S.IDLE && tasks == old(tasks)
      requires l.Valid() && l.nodes == old(l.nodes) + [tasks[a].waitNode]
      ensures WaitQueue(l, ids + [a], tasks)
    {
      hide List.Spells;
    }

    twostate lemma WaitPopped(l: List, new ids: seq<S.Tid>)
      requires old(WaitQueue(l, ids, tasks)) && tasks == old(tasks)
      requires ids != [] && l.Valid() && l.nodes == old(l.nodes)[1..]
      ensures WaitQueue(l, ids[1..], tasks)
    {
      hide List.Spells;
    }

    /** The running task locks; before the first task runs, the null task may lock a free mutex, as `get_alloc_desc`
        does during boot. */
    method Lock(m: ReinMutex)
      requires HasMutex(m) && ((Valid() && Busy()) || (Booted() && m.locker == 0))
      modifies Repr
      ensures Rep() && Exclusive() && SameObjects() && m.index < |old(model.mutexes)|
      ensures model == S.DoLock(old(model), m.index)
      ensures old(Valid() && Busy()) ==>
                Valid() && S.Enabled(old(model), S.Lock(m.index)) && model == S.Step(old(model), S.Lock(m.index))
      ensures old(curr) == null ==> curr == null
    {
      hide List.Spells, List.Valid, RunQueue, AllQueue, WaitQueue, SemRep, MutexRep;
      hide Rep, Exclusive, S.Inv, Layout;
      hide S.SetBlock, S.Dispatch, Remove, S.Relabel, Task.Embeds;
      InRepr();
      ListsRep();
      MutexParts(m);
      CurrRep();
      if curr != null {
        Running();
        I.StepKeeps(model, S.Lock(m.index));
      }
      AddressesDiffer(m.owner, curr);
      ghost var i, x := m.index, model.mutexes[m.index];
      if m.locker == 0 {
        MutexTake(m, curr);
      } else if m.owner == curr {
        m.locker := m.locker + 1;
        model := S.SetMutex(model, i, x.(depth := x.depth + 1));
        MutexCounted(i);
      } else {
        WaitForMutex(m);
      }
    }

    lemma AddressesDiffer(t: Task?, u: Task?)
      requires Layout() && Known(t, tasks) && Known(u, tasks)
      ensures Addr(t) == Addr(u) <==> t == u
    {
    }

    /** The branch of `rein_mutex_lock` in which the caller has to wait. */
    method WaitForMutex(m: ReinMutex)
      requires Valid() && Busy() && HasMutex(m)
      modifies Repr
      ensures Rep() && Exclusive() && SameObjects() && m.index < |old(model.mutexes)|
      ensures var s, x := old(model), old(model.mutexes)[m.index];
              model == S.Dispatch(S.SetMutex(S.SetBlock(s, s.curr), m.index, x.(wait := x.wait + [s.curr])))
    {
      hide List.Spells, List.Valid, RunQueue, AllQueue, WaitQueue, SemRep, MutexRep;
      hide Rep, Exclusive, S.Inv, Layout;
      hide S.Dispatch, S.SetMutex;
      Running();
      InRepr();
      MutexParts(m);
      var task := curr;
      SetBlock(task);
      MutexParts(m);
      InRepr();
      MutexInsert(m, task);
      Dispatch();
    }

    /** `list_insert_last(&lock->wait_list, &task->wait_node)` */
    method MutexInsert(m: ReinMutex, task: Task)
      requires Rep() && HasMutex(m) && Registered(task) && task.waitNode.list == null
      modifies `model, m.waitList, m.waitList.nodes`pre, m.waitList.nodes`next, task.waitNode
      ensures Rep() && SameObjects() && m.index < |old(model.mutexes)|
      ensures old(Exclusive()) && task.runNode.list == null ==> Exclusive()
      ensures var x := old(model.mutexes)[m.index];
              model == S.SetMutex(old(model), m.index, x.(wait := x.wait + [task.addr]))
    {
      hide List.Spells, List.Valid, RunQueue, AllQueue, WaitQueue, SemRep, Layout, Rep;
      ListsRep();
      TaskRep(task);
      MutexParts(m);
      ghost var i, x := m.index, model.mutexes[m.index];
      m.waitList.InsertLast(task.waitNode);
      WaitAppended(m.waitList, x.wait, task.addr);
      model := S.SetMutex(model, i, x.(wait := x.wait + [task.addr]));
      MutexChanged(i);
      if old(Exclusive()) && task.runNode.list == null {
        ExclusiveMoved(task.addr);
      }
    }

    /** The owner unlocks; before the first task runs, the null task may give back a mutex it took. */
    method Unlock(m: ReinMutex)
      requires HasMutex(m) && m.locker != 0 && m.owner == curr
      requires (Valid() && Busy()) || (Booted() && m.waitList.count == 0)
      modifies Repr
      ensures Rep() && Exclusive() && SameObjects() && m.index < |old(model.mutexes)|
      ensures model == S.DoUnlock(old(model), m.index)
      ensures old(Valid() && Busy()) ==>
                Valid() && S.Enabled(old(model), S.Unlock(m.index)) && model == S.Step(old(model), S.Unlock(m.index))
      ensures old(curr) == null ==> curr == null
    {
      hide List.Spells, List.Valid, RunQueue, AllQueue, WaitQueue, SemRep, MutexRep;
      hide Rep, Exclusive, S.Inv, Layout;
      hide S.SetReady;
      InRepr();
      ListsRep();
      CurrRep();
      MutexParts(m);
      if curr != null {
        Running();
        I.StepKeeps(model, S.Unlock(m.index));
      }
      ghost var i, x := m.index, model.mutexes[m.index];
      if m.owner == curr {
        m.locker := m.locker - 1;
        if m.locker == 0 {
          m.owner := null;
          model := S.SetMutex(model, i, S.Mutex(S.NULL, 0, x.wait));
          MutexCounted(i);
          if m.waitList.count != 0 {
            HandOver(m);
            SetTwice(old(model), i, S.Mutex(S.NULL, 0, x.wait), S.Mutex(x.wait[0], 1, x.wait[1..]));
          } else {
            assert x.wait == [];
          }
        } else {
          model := S.SetMutex(model, i, x.(depth := x.depth - 1));
          MutexCounted(i);
        }
      }
    }

    /** The part of `rein_mutex_unlock` that gives a released mutex to its first waiter. */
    method HandOver(m: ReinMutex)
      requires Rep() && Exclusive() && HasMutex(m) && m.locker == 0 && m.owner == null && m.waitList.count != 0
      modifies Repr
      ensures Rep() && Exclusive() && SameObjects()
      ensures m.index < |old(model.mutexes)| && old(model.mutexes)[m.index].wait != []
      ensures var w := old(model.mutexes)[m.index].wait;
              model == S.SetReady(S.SetMutex(old(model), m.index, S.Mutex(w[0], 1, w[1..])), w[0])
    {
      hide List.Spells, List.Valid, RunQueue, AllQueue, WaitQueue, SemRep, MutexRep;
      hide Rep, Exclusive, Layout, S.SetReady;
      MutexParts(m);
      InRepr();
      ghost var i, x := m.index, model.mutexes[m.index];
      var newOwner := MutexPop(m);
      InRepr();
      SetReady(newOwner);
      MutexTake(m, newOwner);
      HandOverModel(old(model), i, newOwner.addr, x, x.wait[1..]);
    }

    static lemma HandOverModel(s: S.State, i: nat, t: S.Tid, x: S.Mutex, w: seq<S.Tid>)
      requires i < |s.mutexes|
      ensures var s1 := S.SetReady(S.SetMutex(s, i, x.(wait := w)), t);
              && s1.mutexes == s.mutexes[i := x.(wait := w)]
              && S.SetMutex(s1, i, S.Mutex(t, 1, w)) == S.SetReady(S.SetMutex(s, i, S.Mutex(t, 1, w)), t)
    {
      SetTwice(s, i, x.(wait := w), S.Mutex(t, 1, w));
    }

    static lemma SetTwice(s: S.State, i: nat, x: S.Mutex, y: S.Mutex)
      requires i < |s.mutexes|
      ensures S.SetMutex(S.SetMutex(s, i, x), i, y) == S.SetMutex(s, i, y)
    {
      assert s.mutexes[i := x][i := y] == s.mutexes[i := y];
    }

    /** `lock->locker ++` and the assignment to `lock->owner`, on a free mutex. */
    method MutexTake(m: ReinMutex, newOwner: Task?)
      requires Rep() && HasMutex(m) && m.locker == 0 && Known(newOwner, tasks)
      modifies m, `model
      ensures Rep() && SameObjects() && m.index < |old(model).mutexes|
      ensures model == S.SetMutex(old(model), m.index, S.Mutex(Addr(newOwner), 1, old(model).mutexes[m.index].wait))
    {
      hide List.Spells, List.Valid, RunQueue, AllQueue, WaitQueue, SemRep, MutexRep;
      hide Rep, Exclusive, Layout;
      MutexParts(m);
      ListsRep();
      m.owner := newOwner;
      m.locker := m.locker + 1;
      model := S.SetMutex(model, m.index, S.Mutex(Addr(newOwner), 1, model.mutexes[m.index].wait));
      MutexCounted(m.index);
    }

    lemma FirstWaiter(l: List, ids: seq<S.Tid>)
      requires Rep() && WaitQueue(l, ids, tasks) && l.count != 0
      ensures l.Valid() && ids != [] && ids[0] in tasks && l.nodes != [] && l.nodes[0] == tasks[ids[0]].waitNode
      ensures Registered(tasks[ids[0]]) && tasks[ids[0]].addr == ids[0] && tasks[ids[0]].waitNode.container == ids[0]
      ensures Exclusive() ==> tasks[ids[0]].runNode.list == null
    {
      l.Members();
    }

    /** `CONTAINER_OF(list_pop_first(l), task_t, wait_node)` */
    method PopWaiter(l: List, ghost ids: seq<S.Tid>) returns (t: Task)
      requires Rep() && Exclusive() && WaitQueue(l, ids, tasks) && l.count != 0
      modifies l, l.nodes
      ensures ids != [] && Registered(t) && t.addr == ids[0] && WaitQueue(l, ids[1..], tasks)
      ensures t.runNode.list == null && t.waitNode.list == null && Exclusive()
      ensures forall other: List :: other != l && old(allocated(other)) && old(other.Valid()) ==>
                other.Valid() && other.nodes == old(other.nodes)
    {
      hide List.Spells, List.Valid, RunQueue, AllQueue, WaitQueue, SemRep, MutexRep, Layout, Rep, Exclusive;
      FirstWaiter(l, ids);
      TaskRep(tasks[ids[0]]);
      var node := l.PopFirst();
      t := tasks[node.container];
      WaitPopped(l, ids);
      ExclusiveMoved(t.addr);
    }

    method MutexPop(m: ReinMutex) returns (t: Task)
      requires Rep() && HasMutex(m) && m.waitList.count != 0 && Exclusive()
      modifies `model, m.waitList, m.waitList.nodes
      ensures Rep() && SameObjects() && Registered(t) && m.index < |old(model.mutexes)|
      ensures t.runNode.list == null && t.waitNode.list == null && Exclusive()
      ensures var x := old(model.mutexes)[m.index];
              x.wait != [] && t.addr == x.wait[0] && model == S.SetMutex(old(model), m.index, x.(wait := x.wait[1..]))
    {
      hide List.Spells, List.Valid, RunQueue, AllQueue, WaitQueue, SemRep, Layout, Rep, Exclusive;
      ListsRep();
      MutexParts(m);
      ghost var i, x := m.index, model.mutexes[m.index];
      t := PopWaiter(m.waitList, x.wait);
      model := S.SetMutex(model, i, x.(wait := x.wait[1..]));
      MutexChanged(i);
    }

    // ---- sem_wait, sem_notify, sem_count ----

    ghost predicate HasSem(m: Semaphore)
      reads `sems
    {
      m.index < |sems| && sems[m.index] == m
    }

    lemma SemParts(m: Semaphore)
      requires Rep() && HasSem(m)
      ensures m.index < |model.sems| && SemRep(m, model.sems[m.index], tasks)
      ensures WaitQueue(m.waitList, model.sems[m.index].wait, tasks)
      ensures m.waitList.Valid() && m in Repr && m.waitList in Repr && m.waitList.id == 2 * m.index + 4
      ensures m.waitList.count == |model.sems[m.index].wait| && m.count == model.sems[m.index].count
      ensures forall n :: n in m.waitList.nodes ==> n in Repr
      ensures forall j :: 0 <= j < |sems| && j != m.index ==> sems[j] != m && sems[j].waitList != m.waitList
    {
      hide RunQueue, AllQueue, TcbsRep;
    }

    /** Semaphore `i` was changed and still represents its model; nothing else was. */
    twostate lemma SemChanged(new i: nat)
      requires old(Rep()) && Layout()
      requires SameObjects() && curr == old(curr)
      requires i < |sems| && i < |old(model.sems)| && i < |model.sems|
      requires model == S.SetSem(old(model), i, model.sems[i])
      requires SemRep(sems[i], model.sems[i], tasks)
      requires forall other: List :: other != sems[i].waitList && old(allocated(other)) && old(other.Valid()) ==>
                 other.Valid() && other.nodes == old(other.nodes)
      requires forall j :: 0 <= j < |mutexes| ==> unchanged(mutexes[j])
      requires forall j :: 0 <= j < |sems| && j != i ==> unchanged(sems[j])
      requires forall a :: a in tasks ==> unchanged(tasks[a])
      ensures Rep()
    {
      hide List.Spells, List.Valid, RunQueue, AllQueue, MutexRep, SemRep, TcbsRep;
      TcbsSame();
      QueuesKept(sems[i].waitList);
    }

    /** `sem->count += d` */
    method SemAdd(m: Semaphore, d: int)
      requires Rep() && HasSem(m)
      modifies m`count, `model
      ensures Rep() && SameObjects() && m.index < |old(model).sems|
      ensures var x := old(model).sems[m.index]; model == S.SetSem(old(model), m.index, x.(count := x.count + d))
    {
      hide List.Spells, List.Valid, RunQueue, AllQueue, WaitQueue, MutexRep;
      hide Rep, Exclusive, Layout;
      SemParts(m);
      ListsRep();
      ghost var i, x := m.index, model.sems[m.index];
      m.count := m.count + d;
      model := S.SetSem(model, i, x.(count := x.count + d));
      SemChanged(i);
    }

    /** `list_insert_last(&sem->wait_list, &task->wait_node)` */
    method SemInsert(m: Semaphore, task: Task)
      requires Rep() && HasSem(m) && Registered(task) && task.waitNode.list == null
      modifies `model, m.waitList, m.waitList.nodes`pre, m.waitList.nodes`next, task.waitNode
      ensures Rep() && SameObjects() && m.index < |old(model.sems)|
      ensures old(Exclusive()) && task.runNode.list == null ==> Exclusive()
      ensures var x := old(model.sems)[m.index];
              model == S.SetSem(old(model), m.index, x.(wait := x.wait + [task.addr]))
    {
      hide List.Spells, List.Valid, RunQueue, AllQueue, WaitQueue, MutexRep, Layout, Rep;
      ListsRep();
      TaskRep(task);
      SemParts(m);
      ghost var i, x := m.index, model.sems[m.index];
      m.waitList.InsertLast(task.waitNode);
      WaitAppended(m.waitList, x.wait, task.addr);
      model := S.SetSem(model, i, x.(wait := x.wait + [task.addr]));
      SemChanged(i);
      if old(Exclusive()) && task.runNode.list == null {
        ExclusiveMoved(task.addr);
      }
    }

    method SemPop(m: Semaphore) returns (t: Task)
      requires Rep() && HasSem(m) && m.waitList.count != 0 && Exclusive()
      modifies `model, m.waitList, m.waitList.nodes
      ensures Rep() && SameObjects() && Registered(t) && m.index < |old(model.sems)|
      ensures t.runNode.list == null && t.waitNode.list == null && Exclusive()
      ensures var x := old(model.sems)[m.index];
              x.wait != [] && t.addr == x.wait[0] && model == S.SetSem(old(model), m.index, x.(wait := x.wait[1..]))
    {
      hide List.Spells, List.Valid, RunQueue, AllQueue, WaitQueue, MutexRep, Layout, Rep, Exclusive;
      ListsRep();
      SemParts(m);
      ghost var i, x := m.index, model.sems[m.index];
      t := PopWaiter(m.waitList, x.wait);
      model := S.SetSem(model, i, x.(wait := x.wait[1..]));
      SemChanged(i);
    }

    method Wait(m: Semaphore)
      requires Valid() && Busy() && HasSem(m)
      modifies Repr
      ensures Valid() && SameObjects() && S.Enabled(old(model), S.Wait(m.index))
      ensures model == S.Step(old(model), S.Wait(m.index))
    {
      hide List.Spells, List.Valid, RunQueue, AllQueue, WaitQueue, SemRep, MutexRep;
      hide Rep, Exclusive, S.Inv, Layout;
      hide S.Dispatch, S.SetSem;
      Running();
      InRepr();
      SemParts(m);
      I.StepKeeps(model, S.Wait(m.index));
      if m.count > 0 {
        SemAdd(m, -1);
      } else {
        WaitForSem(m);
      }
    }

    /** The branch of `sem_wait` in which the caller has to wait. */
    method WaitForSem(m: Semaphore)
      requires Valid() && Busy() && HasSem(m)
      modifies Repr
      ensures Rep() && Exclusive() && SameObjects() && m.index < |old(model.sems)|
      ensures var s, x := old(model), old(model.sems)[m.index];
              model == S.Dispatch(S.SetSem(S.SetBlock(s, s.curr), m.index, x.(wait := x.wait + [s.curr])))
    {
      hide List.Spells, List.Valid, RunQueue, AllQueue, WaitQueue, SemRep, MutexRep;
      hide Rep, Exclusive, S.Inv, Layout;
      hide S.Dispatch, S.SetSem;
      Running();
      InRepr();
      SemParts(m);
      var task := curr;
      SetBlock(task);
      SemParts(m);
      InRepr();
      SemInsert(m, task);
      Dispatch();
    }

    method Notify(m: Semaphore)
      requires Valid() && Busy() && HasSem(m)
      modifies Repr
      ensures Valid() && SameObjects() && S.Enabled(old(model), S.Notify(m.index))
      ensures model == S.Step(old(model), S.Notify(m.index))
    {
      hide List.Spells, List.Valid, RunQueue, AllQueue, WaitQueue, SemRep, MutexRep;
      hide Rep, Exclusive, S.Inv, Layout;
      hide S.Dispatch, S.SetSem, S.SetReady;
      Running();
      InRepr();
      SemParts(m);
      I.StepKeeps(model, S.Notify(m.index));
      if m.waitList.count != 0 {
        var task := SemPop(m);
        InRepr();
        SetReady(task);
        Dispatch();
      } else {
        SemAdd(m, 1);
      }
    }

    method Count(m: Semaphore) returns (count: int)
      requires Valid() && HasSem(m)
      ensures m.index < |model.sems| && count == model.sems[m.index].count
    {
      hide S.Inv;
      SemParts(m);
      count := m.count;
    }

    // ---- task_time_tick, do_handler_timer ----

    /** `--curr->slice_ticks == 0`, and the refill when it is. */
    method PayTick(task: Task) returns (used: bool)
      requires Rep() && Registered(task)
      modifies `model, task`sliceTicks
      ensures Rep() && SameObjects() && task.addr in old(model).tcb
      ensures var x := old(model).tcb[task.addr];
              && used == (x.slice == 1)
              && model == old(model).(tcb := old(model).tcb[task.addr :=
                                               x.(slice := if used then x.quantum else x.slice - 1)])
    {
      hide List.Spells, List.Valid, RunQueue, AllQueue, WaitQueue, SemRep, MutexRep;
      hide Rep, Layout, TcbsRep;
      TaskRep(task);
      ListsRep();
      task.sliceTicks := task.sliceTicks - 1;
      used := task.sliceTicks == 0;
      if used {
        task.sliceTicks := task.timeTicks;
      }
      model := model.(tcb := model.tcb[task.addr := task.Tcb()]);
      TcbsKept(task);
      QueuesSame();
    }

    /** `curr != &idle_task && --curr->slice_ticks == 0`, and what follows when it is. */
    method ChargeSlice()
      requires Rep() && Exclusive() && curr != null && Known(curr, tasks)
      requires curr != idle ==> curr.runNode in readyList.nodes && curr.waitNode.list == null && curr.addr != S.IDLE
      modifies Repr
      ensures Rep() && Exclusive() && SameObjects() && model == S.ChargeSlice(old(model))
      ensures curr == old(curr) && sysTick == old(sysTick)
    {
      hide List.Spells, List.Valid, RunQueue, AllQueue, WaitQueue, SemRep, MutexRep;
      hide Rep, Exclusive, Layout, TcbsRep, S.SetReady, S.SetBlock;
      InRepr();
      CurrRep();
      if curr != idle {
        var task := curr;
        TaskRep(task);
        ListsRep();
        var used := PayTick(task);
        if used {
          InRepr();
          SetBlock(task);
          InRepr();
          SetReady(task);
        }
      }
    }

    /** `--task->sleep_ticks` */
    method CountDown(task: Task)
      requires Rep() && Registered(task)
      modifies `model, task`sleepTicks
      ensures Rep() && SameObjects() && task.addr in old(model).tcb
      ensures task.sleepTicks == old(task.sleepTicks) - 1 == old(model).tcb[task.addr].sleepTicks - 1
      ensures model == old(model).(tcb := old(model).tcb[task.addr :=
                                            old(model).tcb[task.addr].(sleepTicks := task.sleepTicks)])
    {
      hide List.Spells, List.Valid, RunQueue, AllQueue, WaitQueue, SemRep, MutexRep;
      hide Rep, Layout, TcbsRep;
      TaskRep(task);
      ListsRep();
      task.sleepTicks := task.sleepTicks - 1;
      model := model.(tcb := model.tcb[task.addr := task.Tcb()]);
      TcbsKept(task);
      QueuesSame();
    }

    /** One turn of the loop over the sleep list. */
    method WakeOne(task: Task)
      requires Rep() && Exclusive() && Registered(task)
      requires task.runNode in sleepList.nodes && task.runNode.list != null
      modifies Repr
      ensures Rep() && Exclusive() && SameObjects() && model == S.WakeOne(old(model), task.addr)
      ensures curr == old(curr) && sysTick == old(sysTick)
      ensures old(task.sleepTicks) != 1 ==> sleepList.nodes == old(sleepList.nodes)
      ensures old(task.sleepTicks) == 1 ==>
              forall k :: 0 <= k < |old(sleepList.nodes)| && old(sleepList.nodes)[k] == task.runNode ==>
                sleepList.nodes == old(sleepList.nodes)[..k] + old(sleepList.nodes)[k + 1..]
    {
      hide List.Spells, List.Valid, RunQueue, AllQueue, WaitQueue, SemRep, MutexRep;
      hide Rep, Exclusive, Layout, TcbsRep, S.SetReady;
      InRepr();
      ListsRep();
      RunningElsewhere(task);
      CountDown(task);
      if task.sleepTicks == 0 {
        SetWakeup(task);
        InRepr();
        SetReady(task);
      }
    }

    lemma RunningElsewhere(t: Task)
      requires Exclusive() && Registered(t) && t.runNode.list != null
      ensures t.waitNode.list == null
    {
    }

    /** The sleeper at position `j` of the sleep list, as the loop finds it through its node. */
    lemma SleeperAt(j: nat)
      requires Rep() && j < |sleepList.nodes|
      ensures |model.sleep| == |sleepList.nodes|
      ensures var n, a := sleepList.nodes[j], model.sleep[j];
              && n.container == a && a in tasks && Registered(tasks[a]) && tasks[a].runNode == n && n.list == sleepList
              && tasks[a].addr == a && n.next == if j + 1 == |sleepList.nodes| then null else sleepList.nodes[j + 1]
    {
      hide MutexesRep, SemsRep, TcbsRep;
      sleepList.Members();
    }

    lemma SleepListStart()
      requires Rep()
      ensures sleepList.first == if sleepList.nodes == [] then null else sleepList.nodes[0]
      ensures |model.sleep| == |sleepList.nodes|
    {
      hide MutexesRep, SemsRep, TcbsRep;
    }

    /** The loop of `task_time_tick`: it removes tasks from the list it walks, so it reads the next node first. */
    method WakeSleepers()
      requires Rep() && Exclusive() && Distinct(model.sleep) && forall t :: t in model.sleep ==> t in model.tcb
      modifies Repr
      ensures Rep() && Exclusive() && SameObjects() && model == S.WakeSleepers(old(model))
      ensures curr == old(curr) && sysTick == old(sysTick)
    {
      hide List.Spells, List.Valid, RunQueue, AllQueue, WaitQueue, SemRep, MutexRep;
      hide Rep, Exclusive, Layout, TcbsRep, S.WakeOne, I.AfterTurns, Distinct, S.WakeSleepers, S.WakeEach;
      ghost var s0, q, k := model, sleepList.nodes, 0;
      SleepListStart();
      I.TurnsAtStart(s0);
      var node := sleepList.first;
      while node != null
        invariant 0 <= k <= |q| == |s0.sleep| && node == (if k == |q| then null else q[k])
        invariant Rep() && Exclusive() && SameObjects() && curr == old(curr) && sysTick == old(sysTick)
        invariant model == I.AfterTurns(s0, k)
        invariant |q| - k <= |sleepList.nodes| && sleepList.nodes[|sleepList.nodes| - (|q| - k)..] == q[k..]
        decreases |q| - k
      {
        ghost var j, l := |sleepList.nodes| - (|q| - k), sleepList.nodes;
        SuffixStep(l, j, q, k);
        SleeperAt(j);
        InRepr();
        AfterTurnsSleeper(s0, k);
        var next := node.next;
        assert model.sleep[j] == s0.sleep[k];
        var task := tasks[node.container];
        WakeOne(task);
        I.OneTurn(s0, k);
        node := next;
        k := k + 1;
      }
      I.LoopWakesSleepers(s0);
      I.TurnsSoFar(s0, |q|);
      assert s0.sleep[..|q|] == s0.sleep;
    }

    static lemma SuffixStep(l: seq<Node>, j: nat, q: seq<Node>, k: nat)
      requires j < |l| && k < |q| && l[j..] == q[k..]
      ensures l[j] == q[k] && l[j + 1..] == q[k + 1..] && (l[..j] + l[j + 1..])[j..] == q[k + 1..]
      ensures k + 1 < |q| ==> j + 1 < |l| && l[j + 1] == q[k + 1]
    {
      assert l[j..][0] == q[k..][0];
      assert l[j..][1..] == q[k..][1..];
      assert k + 1 < |q| ==> l[j..][1] == q[k..][1];
    }

    static lemma AfterTurnsSleeper(s: S.State, k: nat)
      requires k < |s.sleep|
      ensures |I.AfterTurns(s, k).sleep| >= |s.sleep| - k
      ensures I.AfterTurns(s, k).sleep[|I.AfterTurns(s, k).sleep| - (|s.sleep| - k)] == s.sleep[k]
    {
    }

    method TimeTick()
      requires Valid()
      modifies Repr
      ensures Valid() && SameObjects() && model == S.Step(old(model), S.Tick) && sysTick == old(sysTick)
    {
      hide List.Spells, List.Valid, RunQueue, AllQueue, WaitQueue, SemRep, MutexRep;
      hide Rep, Exclusive, Layout, TcbsRep, S.Inv, S.ChargeSlice, S.WakeSleepers, S.Dispatch;
      SomeoneRuns();
      InRepr();
      I.StepKeeps(model, S.Tick);
      TickSleepers(model);
      ChargeSlice();
      WakeSleepers();
      InRepr();
      Dispatch();
    }

    static lemma TickSleepers(s: S.State)
      requires S.Inv(s)
      ensures var s1 := S.ChargeSlice(s); Distinct(s1.sleep) && forall t :: t in s1.sleep ==> t in s1.tcb
    {
      I.ChargeSliceRests(s);
      I.SleepersKnown(S.ChargeSlice(s));
    }

    lemma SomeoneRuns()
      requires Valid()
      ensures curr != null && Known(curr, tasks)
      ensures curr != idle ==> curr.runNode in readyList.nodes && curr.waitNode.list == null && curr.addr != S.IDLE
    {
      hide List.Spells, List.Valid, MutexesRep, SemsRep, S.Conserved, S.LocksOk;
      CurrRep();
      ListsRep();
      assert model.ready != [] ==> model.ready[0] in tasks;
      if curr != idle {
        Running();
      }
    }

    lemma StartsInRepr()
      requires Valid()
      ensures this in Repr
    {
    }

    /** `do_handler_timer` */
    method HandleTimer()
      requires Valid()
      modifies Repr
      ensures Valid() && model == S.Step(old(model), S.Tick)
      ensures tasks == old(tasks) && mutexes == old(mutexes) && sems == old(sems) && Repr == old(Repr)
      ensures sysTick == (old(sysTick) + 1) % S.UINT32
    {
      hide Rep, Exclusive, S.Inv, S.Step;
      StartsInRepr();
      sysTick := (sysTick + 1) % S.UINT32;
      TimeTick();
    }

    // ---- task_init, task_main_init, rein_mutex_init, sem_init ----

    /** A task struct that no list and no table of this manager mentions yet. */
    ghost predicate Fresh(t: Task)
      reads `tasks, `Repr, t.runNode, t.allNode, t.waitNode
    {
      && t.addr !in tasks && t.addr != S.NULL && t.Embeds() && {t, t.runNode, t.allNode, t.waitNode} !! Repr
      && t.runNode.list == null && t.allNode.list == null && t.waitNode.list == null
    }

    twostate lemma TasksGrown(t: Task)
      requires old(Rep()) && old(Fresh(t)) && t.Tcb() == S.NewTcb()
      requires tasks == old(tasks)[t.addr := t] && mutexes == old(mutexes) && sems == old(sems) && curr == old(curr)
      requires Repr == old(Repr) + {t, t.runNode, t.allNode, t.waitNode}
      requires model == old(model).(tcb := old(model).tcb[t.addr := S.NewTcb()])
      requires forall l: List :: old(allocated(l)) && old(l.Valid()) ==> l.Valid() && l.nodes == old(l.nodes)
      requires forall i :: 0 <= i < |mutexes| ==> unchanged(mutexes[i])
      requires forall i :: 0 <= i < |sems| ==> unchanged(sems[i])
      requires forall a :: a in old(tasks) ==> unchanged(tasks[a])
      ensures Rep()
    {
      hide List.Spells, List.Valid, Known;
      LayoutGrown(t);
      TcbsGrown(t);
      QueuesGrown(t);
      WaitsGrown(t);
    }

    twostate lemma LayoutGrown(t: Task)
      requires old(Layout()) && old(Fresh(t))
      requires tasks == old(tasks)[t.addr := t] && mutexes == old(mutexes) && sems == old(sems)
      requires Repr == old(Repr) + {t, t.runNode, t.allNode, t.waitNode}
      ensures Layout()
    {
    }

    twostate lemma TcbsGrown(t: Task)
      requires old(Rep()) && old(Fresh(t)) && t.Tcb() == S.NewTcb() && Layout()
      requires tasks == old(tasks)[t.addr := t] && curr == old(curr)
      requires model == old(model).(tcb := old(model).tcb[t.addr := S.NewTcb()])
      requires forall a :: a in old(tasks) ==> unchanged(tasks[a])
      ensures TcbsRep()
    {
      hide List.Spells, List.Valid, RunQueue, AllQueue, WaitQueue, SemRep, MutexRep;
    }

    twostate lemma QueuesGrown(t: Task)
      requires old(Rep()) && old(Fresh(t)) && tasks == old(tasks)[t.addr := t]
      requires model == old(model).(tcb := old(model).tcb[t.addr := S.NewTcb()])
      requires forall l: List :: old(allocated(l)) && old(l.Valid()) ==> l.Valid() && l.nodes == old(l.nodes)
      ensures RunQueue(readyList, model.ready, tasks) && RunQueue(sleepList, model.sleep, tasks)
      ensures AllQueue(taskList, model.tasks, tasks)
    {
      hide List.Spells, List.Valid, SemRep, MutexRep;
    }

    twostate lemma WaitsGrown(t: Task)
      requires old(Rep()) && old(Fresh(t))
      requires tasks == old(tasks)[t.addr := t] && mutexes == old(mutexes) && sems == old(sems)
      requires model == old(model).(tcb := old(model).tcb[t.addr := S.NewTcb()])
      requires forall l: List :: old(allocated(l)) && old(l.Valid()) ==> l.Valid() && l.nodes == old(l.nodes)
      requires forall i :: 0 <= i < |mutexes| ==> unchanged(mutexes[i])
      requires forall i :: 0 <= i < |sems| ==> unchanged(sems[i])
      ensures MutexesRep() && SemsRep()
    {
      hide List.Spells, List.Valid, RunQueue, AllQueue;
    }

    /** `task_init` after `tss_init`. */
    method TaskInit(t: Task, name: string) returns (r: int)
      requires Rep() && Exclusive() && Fresh(t)
      modifies Repr, t, t.runNode, t.allNode, t.waitNode
      ensures 1 <= |name| <= 32 <==> r != -1
      ensures r == -1 ==> Rep() && Exclusive() && Fresh(t) && SameObjects() && model == old(model)
      ensures r != -1 ==> r == 0 && Rep() && Exclusive() && t.name == name && model == S.DoSpawn(old(model), t.addr)
      ensures r != -1 ==> tasks == old(tasks)[t.addr := t] && mutexes == old(mutexes) && sems == old(sems)
      ensures r != -1 ==> Repr == old(Repr) + {t, t.runNode, t.allNode, t.waitNode}
      ensures curr == old(curr) && sysTick == old(sysTick)
      ensures old(Valid()) && old(Busy()) ==> Valid()
    {
      hide List.Spells, List.Valid, RunQueue, AllQueue, WaitQueue, SemRep, MutexRep;
      hide Rep, Exclusive, S.Inv, Layout, TcbsRep, S.SetReady;
      if |name| == 0 || |name| > S.TASK_NAME_MAX_IN_SIZE {
        return -1;
      }
      if old(Valid()) && old(Busy()) {
        Running();
        SpawnAllowed(t.addr);
        I.StepKeeps(model, S.Spawn(t.addr));
      }
      Admit(t, name);
      return 0;
    }

    /** The part of `task_init` for a task with a proper name, up to the end of its protected region. */
    method Admit(t: Task, name: string)
      requires Rep() && Exclusive() && Fresh(t)
      modifies Repr, t, t.runNode, t.allNode, t.waitNode
      ensures Rep() && Exclusive() && t.name == name && model == S.DoSpawn(old(model), t.addr)
      ensures curr == old(curr) && sysTick == old(sysTick)
      ensures tasks == old(tasks)[t.addr := t] && mutexes == old(mutexes) && sems == old(sems)
      ensures Repr == old(Repr) + {t, t.runNode, t.allNode, t.waitNode}
    {
      hide List.Spells, List.Valid, RunQueue, AllQueue, WaitQueue, SemRep, MutexRep;
      hide Rep, Exclusive, S.Inv, Layout, TcbsRep, S.SetReady;
      InRepr();
      Register(t, name);
      InRepr();
      SetReady(t);
      InRepr();
      TaskListInsert(t);
    }

    lemma SpawnAllowed(a: S.Tid)
      requires Rep() && Exclusive() && S.Inv(model) && a !in tasks && model.curr != S.IDLE && a != S.NULL
      ensures S.Enabled(model, S.Spawn(a))
    {
    }

    method Register(t: Task, name: string)
      requires Rep() && Exclusive() && Fresh(t)
      modifies `tasks, `Repr, `model, t, t.runNode, t.allNode, t.waitNode
      ensures Rep() && Exclusive() && Registered(t) && t.name == name && curr == old(curr)
      ensures t.runNode.list == null && t.allNode.list == null && t.waitNode.list == null
      ensures model == old(model).(tcb := old(model).tcb[t.addr := S.NewTcb()])
      ensures tasks == old(tasks)[t.addr := t] && mutexes == old(mutexes) && sems == old(sems)
      ensures Repr == old(Repr) + {t, t.runNode, t.allNode, t.waitNode}
    {
      hide List.Spells, List.Valid, RunQueue, AllQueue, WaitQueue, SemRep, MutexRep;
      hide Rep, Layout, TcbsRep;
      OthersApart(t);
      t.Reset(name);
      tasks := tasks[t.addr := t];
      Repr := Repr + {t, t.runNode, t.allNode, t.waitNode};
      model := model.(tcb := model.tcb[t.addr := S.NewTcb()]);
      TasksGrown(t);
    }

    lemma OthersApart(t: Task)
      requires Rep() && Fresh(t)
      ensures t.addr != S.IDLE
      ensures forall a :: a in tasks ==> tasks[a] != t &&
                                         {tasks[a].runNode, tasks[a].waitNode} !! {t.runNode, t.allNode, t.waitNode}
    {
      hide List.Spells, List.Valid, RunQueue, AllQueue, WaitQueue, SemRep, MutexRep;
    }

    /** `list_insert_last(&task_manager.task_list, &task->all_node)` */
    method TaskListInsert(t: Task)
      requires Rep() && Exclusive() && Registered(t) && t.allNode.list == null
      modifies `model, taskList, taskList.nodes`pre, taskList.nodes`next, t.allNode
      ensures Rep() && Exclusive() && SameObjects() && model == old(model).(tasks := old(model).tasks + [t.addr])
    {
      hide List.Spells, List.Valid, RunQueue, AllQueue, WaitQueue, SemRep, MutexRep;
      hide TcbsRep, Layout, MutexesRep, SemsRep;
      ListsRep();
      TaskRep(t);
      taskList.InsertLast(t.allNode);
      model := model.(tasks := model.tasks + [t.addr]);
      TaskListGrown(t);
    }

    twostate lemma TaskListGrown(t: Task)
      requires old(Rep()) && Layout() && SameObjects() && Registered(t) && curr == old(curr)
      requires model == old(model).(tasks := old(model).tasks + [t.addr])
      requires taskList.Valid() && taskList.nodes == old(taskList.nodes) + [t.allNode]
      requires forall other: List :: other != taskList && old(allocated(other)) && old(other.Valid()) ==>
                 other.Valid() && other.nodes == old(other.nodes)
      requires forall i :: 0 <= i < |mutexes| ==> unchanged(mutexes[i])
      requires forall i :: 0 <= i < |sems| ==> unchanged(sems[i])
      requires forall a :: a in tasks ==> unchanged(tasks[a])
      ensures Rep()
    {
      hide List.Spells, List.Valid, RunQueue, WaitQueue, SemRep, MutexRep, TcbsRep;
      TcbsSame();
      QueuesKept(taskList);
    }

    /** `task_main_init`: the first task is registered and runs. */
    method TaskMainInit(t: Task)
      requires Rep() && Exclusive() && Fresh(t) && curr == null && Booting(model)
      modifies Repr, t, t.runNode, t.allNode, t.waitNode
      ensures Valid() && Busy() && S.Initial(model) && curr == t && t.name == "main"
      ensures model == S.DoSpawn(old(model), t.addr).(curr := t.addr)
      ensures tasks == old(tasks)[t.addr := t] && mutexes == old(mutexes) && sems == old(sems)
      ensures Repr == old(Repr) + {t, t.runNode, t.allNode, t.waitNode} && sysTick == old(sysTick)
    {
      hide List.Spells, List.Valid, RunQueue, AllQueue, WaitQueue, SemRep, MutexRep;
      hide Rep, Exclusive, S.Inv, Layout;
      InRepr();
      OthersApart(t);
      var _ := TaskInit(t, "main");
      InRepr();
      CurrSet(t);
      SpawnFirst(old(model), t.addr);
    }

    /** `task_manager.curr_task = &task_manager.main_task` */
    method CurrSet(t: Task)
      requires Rep() && Registered(t)
      modifies `curr, `model
      ensures Rep() && SameObjects() && curr == t && model == old(model).(curr := t.addr)
    {
      hide List.Spells, List.Valid, RunQueue, AllQueue, WaitQueue, SemRep, MutexRep;
      curr := t;
      model := model.(curr := t.addr);
    }

    /** What `task_manager_init`, and mutexes and semaphores made after it, leave for `task_main_init`. */
    static ghost predicate Booting(s: S.State) {
      && s.tasks == [] && s.ready == [] && s.sleep == [] && s.tcb == map[] && s.curr == S.NULL
      && (forall m :: 0 <= m < |s.mutexes| ==> s.mutexes[m] == S.Mutex(S.NULL, 0, []))
      && (forall i :: 0 <= i < |s.sems| ==> s.sems[i].wait == [])
    }

    static lemma SpawnFirst(s: S.State, a: S.Tid)
      requires Booting(s) && a != S.NULL && a != S.IDLE
      ensures S.Initial(S.DoSpawn(s, a).(curr := a)) && S.Inv(S.DoSpawn(s, a).(curr := a))
    {
      assert S.Initial(S.DoSpawn(s, a).(curr := a));
      I.InitialInv(S.DoSpawn(s, a).(curr := a));
    }

    twostate lemma MutexAdded()
      requires old(Rep()) && tasks == old(tasks) && sems == old(sems) && curr == old(curr)
      requires |mutexes| == |old(mutexes)| + 1 && mutexes[..|old(mutexes)|] == old(mutexes)
      requires var m := mutexes[|old(mutexes)|];
               && m.index == |old(mutexes)| && m.waitList.id == 2 * m.index + 3 && m.owner == null && m.locker == 0
               && m.waitList.Valid() && m.waitList.nodes == [] && Repr == old(Repr) + {m, m.waitList}
      requires model == old(model).(mutexes := old(model).mutexes + [S.Mutex(S.NULL, 0, [])])
      requires forall l: List :: old(allocated(l)) && old(l.Valid()) ==> l.Valid() && l.nodes == old(l.nodes)
      requires forall i :: 0 <= i < |old(mutexes)| ==> unchanged(old(mutexes)[i])
      requires forall i :: 0 <= i < |sems| ==> unchanged(sems[i])
      requires forall a :: a in tasks ==> unchanged(tasks[a])
      ensures Rep()
    {
      hide List.Spells, List.Valid;
      TcbsSame();
    }

    twostate lemma SemAdded()
      requires old(Rep()) && tasks == old(tasks) && mutexes == old(mutexes) && curr == old(curr)
      requires |sems| == |old(sems)| + 1 && sems[..|old(sems)|] == old(sems)
      requires var m := sems[|old(sems)|];
               && m.index == |old(sems)| && m.waitList.id == 2 * m.index + 4
               && m.waitList.Valid() && m.waitList.nodes == [] && Repr == old(Repr) + {m, m.waitList}
      requires model == old(model).(sems := old(model).sems + [S.Sem(sems[|old(sems)|].count, [])])
      requires forall l: List :: old(allocated(l)) && old(l.Valid()) ==> l.Valid() && l.nodes == old(l.nodes)
      requires forall i :: 0 <= i < |mutexes| ==> unchanged(mutexes[i])
      requires forall i :: 0 <= i < |old(sems)| ==> unchanged(old(sems)[i])
      requires forall a :: a in tasks ==> unchanged(tasks[a])
      ensures Rep()
    {
      hide List.Spells, List.Valid;
      TcbsSame();
    }

    /** `rein_mutex_init` on a new mutex. */
    method NewMutex() returns (m: ReinMutex)
      requires Rep() && Exclusive()
      modifies `mutexes, `Repr, `model
      ensures Rep() && Exclusive() && fresh(m) && fresh(m.waitList) && Repr == old(Repr) + {m, m.waitList}
      ensures tasks == old(tasks) && mutexes == old(mutexes) + [m] && sems == old(sems) && curr == old(curr)
      ensures HasMutex(m) && model == old(model).(mutexes := old(model).mutexes + [S.Mutex(S.NULL, 0, [])])
      ensures old(Booting(model)) ==> Booting(model)
      ensures old(Valid()) ==> Valid()
    {
      hide List.Spells, List.Valid, RunQueue, AllQueue, WaitQueue, MutexRep, SemRep, TcbsRep;
      hide S.Inv, Rep, Layout, Exclusive;
      CurrRep();
      if old(Valid()) {
        I.NewKeeps(model, 0);
      }
      m := new ReinMutex(|mutexes|);
      mutexes := mutexes + [m];
      Repr := Repr + {m, m.waitList};
      model := model.(mutexes := model.mutexes + [S.Mutex(S.NULL, 0, [])]);
      MutexAdded();
    }

    /** `sem_init` on a new semaphore. */
    method NewSem(initCount: int) returns (m: Semaphore)
      requires Rep() && Exclusive()
      modifies `sems, `Repr, `model
      ensures Rep() && Exclusive() && fresh(m) && fresh(m.waitList) && Repr == old(Repr) + {m, m.waitList}
      ensures tasks == old(tasks) && mutexes == old(mutexes) && sems == old(sems) + [m] && curr == old(curr)
      ensures HasSem(m) && model == old(model).(sems := old(model).sems + [S.Sem(initCount, [])])
      ensures old(Booting(model)) ==> Booting(model)
      ensures old(Valid()) ==> Valid()
    {
      hide List.Spells, List.Valid, RunQueue, AllQueue, WaitQueue, MutexRep, SemRep, TcbsRep;
      hide S.Inv, Rep, Layout, Exclusive;
      CurrRep();
      if old(Valid()) {
        I.NewKeeps(model, initCount);
      }
      m := new Semaphore(initCount, |sems|);
      sems := sems + [m];
      Repr := Repr + {m, m.waitList};
      model := model.(sems := model.sems + [S.Sem(initCount, [])]);
      SemAdded();
    }
  }
}
