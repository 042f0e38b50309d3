/** The MTX kernel in place (PreLab3/Code/{queue.c, wait.c, t.c}): the table of PROCs, the
    list heads and `running` are updated as the C code updates them.  Each method is proved
    to do to the kernel value `k` what the function of MtxModel for the same task says. */
module MtxKernel {
  import opened MtxModel
  import opened MtxQueues
  import opened MtxInvariant
  import opened MtxRuns
  import opened MtxExitWait
  import opened MtxTable

  /** The progress of the loop in wakeup(), for its invariant. */
  datatype WakeState = WakeState(k: Kernel, event: int, rest: seq<nat>, ready: seq<nat>, temp: seq<nat>, woken: seq<nat>)
  {
    function Procs(): seq<Pcb> {
      MakeReady(k.procs, woken)
    }
  }

  class Mtx {
    const table: int
    const proc: array<Proc>
    var freeList: int
    var readyQueue: int
    var sleepList: int
    var running: int
    ghost var k: Kernel

    ghost predicate Holds()
      reads this, proc
    {
      && Represents(proc[..], k) && k.table == table && running == k.running
      && Chain(proc[..], freeList, k.free)
      && Chain(proc[..], readyQueue, k.ready)
      && Chain(proc[..], sleepList, k.asleep)
    }

    ghost predicate Valid()
      reads this, proc
    {
      Holds() && Inv(k)
    }

    // -------------------------------------------------------------- init() and main()

    /** init() and the kfork() of P1 in main(). */
    constructor (table: int, n: nat)
      requires 2 <= n
      ensures Valid() && k == Boot(table, n) && fresh(proc) && proc.Length == n
    {
      var a := new Proc[n](_ => Proc(NIL, 0, 0, FREE, 0, 0, 0, NIL, NIL, NIL));
      for i := 0 to n
        invariant forall j :: 0 <= j < i ==> a[j] == Proc(j + 1, j, 0, FREE, 0, 0, 0, NIL, NIL, NIL)
        invariant forall j :: i <= j < n ==> a[j] == Proc(NIL, 0, 0, FREE, 0, 0, 0, NIL, NIL, NIL)
      {
        a[i] := a[i].(pid := i);
        a[i] := a[i].(status := FREE, priority := 0);
        a[i] := a[i].(next := i + 1);
      }
      a[n - 1] := a[n - 1].(next := NIL);
      this.table, proc := table, a;
      freeList, readyQueue, sleepList := a[0].next, NIL, NIL;
      running := 0;
      k := Initial(table, n);
      new;
      proc[0] := proc[0].(status := READY);
      InitialTable(proc[..], table, n);
      var _ := Kfork();
      BootHolds(table, n);
    }

    // -------------------------------------------------------------- queue.c

    method Enqueue(queue: int, p: nat, ghost ps: seq<Pcb>, ghost q: seq<nat>) returns (queue': int)
      requires Records(proc[..], ps) && Chain(proc[..], queue, q) && NoDup(q)
      requires p < proc.Length && p !in q
      modifies proc
      ensures Chain(proc[..], queue', Insert(ps, q, p))
      ensures NextOnly(old(proc[..]), proc[..])
      ensures forall y: nat :: y < proc.Length && y !in q && y != p ==> SameNext(old(proc[..]), proc[..], y)
    {

      ghost var t := proc[..];
      assert Record(t, ps, p);
      if queue == NIL || proc[p].priority > proc[queue].priority {
        if q != [] { assert Record(t, ps, q[0]); }
        PosIs(ps, q, p, 0);
        queue' := p;
        proc[p] := proc[p].(next := queue);
      } else {
        queue' := queue;
        var c := queue;
        ghost var i: nat := 0;
        assert Record(t, ps, q[0]);
        while proc[c].next != NIL && proc[p].priority <= proc[proc[c].next].priority
          invariant proc[..] == t && i < |q| && c == q[i]
          invariant forall j :: 0 <= j <= i ==> ps[q[j]].priority >= ps[p].priority
          invariant Next(t, q, i)
          decreases |q| - i
        {
          assert Record(t, ps, q[i + 1]);
          assert Next(t, q, i + 1);
          c, i := proc[c].next, i + 1;
        }
        if i + 1 < |q| { assert Record(t, ps, q[i + 1]); }
        PosIs(ps, q, p, i + 1);
        proc[p] := proc[p].(next := proc[c].next);
        proc[c] := proc[c].(next := p);
        assert c != p && t[c].next == Nth(q, i + 1);
      }
      Spliced(t, proc[..], ps, queue, q, p);
    }

    method Dequeue(queue: int, ghost q: seq<nat>) returns (p: int, queue': int)
      requires Chain(proc[..], queue, q)
      ensures p == Nth(q, 0)
      ensures Chain(proc[..], queue', if q == [] then [] else q[1..])
    {
      p, queue' := queue, queue;
      if p != NIL {
        Popped(proc[..], queue, q);
        queue' := proc[queue].next;
      }
    }

    // -------------------------------------------------------------- scheduler()

    method Scheduler()
      requires Holds() && Separate(k) && ReadyWithRunning(k) != []
      modifies this, proc
      ensures Holds() && k == Schedule(old(k))
    {
      ghost var m, t := k, proc[..];
      assert Record(t, m.procs, m.running);
      if proc[running].status == READY {
        readyQueue := Enqueue(readyQueue, running, m.procs, m.ready);
        ChainApart(t, proc[..], freeList, m.free, m.ready, m.running);
        ChainApart(t, proc[..], sleepList, m.asleep, m.ready, m.running);
      }
      NextOnlyKeeps(t, proc[..], m.procs);
      running, readyQueue := Dequeue(readyQueue, ReadyWithRunning(m));
      k := Schedule(m);
    }

    // -------------------------------------------------------------- wait.c

    /** sleep(), with the switch at its end. */
    method Sleep(event: int)
      requires Holds() && Separate(k) && k.procs[k.running].status == READY
      requires ReadyWithRunning(Doze(k, event)) != []
      modifies this, proc
      ensures Holds() && k == Schedule(Doze(old(k), event))
    {
      ghost var m, t := k, proc[..];
      ghost var m' := Doze(m, event);
      assert Record(t, m.procs, m.running);
      proc[running] := proc[running].(event := event);
      proc[running] := proc[running].(status := SLEEP);
      ghost var t1 := proc[..];
      SetRecord(t, t1, m.procs, m'.procs, m.running);
      assert SameNexts(t, t1);
      ChainSame(t, t1, freeList, m.free);
      ChainSame(t, t1, readyQueue, m.ready);
      ChainSame(t, t1, sleepList, m.asleep);
      sleepList := Enqueue(sleepList, running, m'.procs, m.asleep);
      ChainApart(t1, proc[..], freeList, m.free, m.asleep, m.running);
      ChainApart(t1, proc[..], readyQueue, m.ready, m.asleep, m.running);
      NextOnlyKeeps(t1, proc[..], m'.procs);
      k := m';
      DozeSeparate(m, event);
      Scheduler();
    }

    /** The table in the loop of wakeup(), with `temp` as the list of PROCs that stay asleep. */
    ghost predicate Waking(w: WakeState, temp: int)
      reads this, proc
    {
      && Shape(w.k) && k == w.k && table == w.k.table && running == w.k.running
      && WakeLoop(w.k, w.event, w.rest, w.ready, w.temp, w.woken)
      && Records(proc[..], w.Procs()) && Links(proc[..], w.Procs())
      && Chain(proc[..], freeList, w.k.free) && Chain(proc[..], readyQueue, w.ready)
      && Chain(proc[..], sleepList, w.rest) && Chain(proc[..], temp, w.temp)
    }

    method Wakeup(event: int)
      requires Holds() && Separate(k)
      modifies this, proc
      ensures Holds() && k == MtxModel.Wakeup(old(k), event)
    {
      var temp := NIL;
      ghost var w := WakeState(k, event, k.asleep, k.ready, [], []);
      WakeLoopStart(k, event);
      while sleepList != NIL
        invariant Waking(w, temp) && w.k == old(k) && w.event == event
        decreases |w.rest|
      {
        w, temp := WakeOne(w, event, temp);
      }
      EndWakeup(w, temp);
    }

    /** `sleepList = temp`, behind the loop. */
    method EndWakeup(ghost w: WakeState, temp: int)
      requires Waking(w, temp) && sleepList == NIL
      modifies this`sleepList, this`k
      ensures Holds() && k == MtxModel.Wakeup(w.k, w.event)
    {
      WakeLoopDone(proc[..], w.k, w.event, w.rest, w.ready, w.temp, w.woken);
      ghost var k' := MtxModel.Wakeup(w.k, w.event);
      assert Represents(proc[..], k') && k'.table == table && running == k'.running;
      assert Chain(proc[..], freeList, k'.free) && Chain(proc[..], readyQueue, k'.ready) && Chain(proc[..], temp, k'.asleep);
      hide Waking, Represents, Chain, WakeLoop, MtxModel.Wakeup;
      sleepList := temp;
      k := MtxModel.Wakeup(k, w.event);
    }

    /** One turn of the loop of wakeup(). */
    method WakeOne(ghost w: WakeState, event: int, temp: int) returns (ghost w': WakeState, temp': int)
      requires Waking(w, temp) && w.event == event && sleepList != NIL
      modifies this`sleepList, this`readyQueue, proc
      ensures Waking(w', temp') && w'.k == w.k && w'.event == event && |w'.rest| < |w.rest|
    {
      ghost var t := proc[..];
      HeadRecord(t, w.k, w.event, w.rest, w.ready, w.temp, w.woken);
      hide WakeLoop, MakeReady, Record, Records, Links, Shape;
      var q: int;
      q, sleepList := Dequeue(sleepList, w.rest);
      assert proc[..] == t;
      if proc[q].event == event {
        temp' := temp;
        w' := Rouse(w, q, temp);
      } else {
        w', temp' := LetSleep(w, q, temp);
      }
    }

    ghost predicate Dequeued(w: WakeState, q: int, temp: int)
      reads this, proc
    {
      && Shape(w.k) && k == w.k && table == w.k.table && running == w.k.running
      && w.rest != [] && q == w.rest[0] && q < |w.k.procs|
      && WakeLoop(w.k, w.event, w.rest, w.ready, w.temp, w.woken)
      && Records(proc[..], w.Procs()) && Links(proc[..], w.Procs())
      && Chain(proc[..], freeList, w.k.free) && Chain(proc[..], readyQueue, w.ready)
      && Chain(proc[..], sleepList, w.rest[1..]) && Chain(proc[..], temp, w.temp)
    }

    method Rouse(ghost w: WakeState, q: int, ghost temp: int) returns (ghost w': WakeState)
      requires Dequeued(w, q, temp) && w.k.procs[q].event == w.event
      modifies this`readyQueue, proc
      ensures Waking(w', temp) && w'.k == w.k && w'.event == w.event && w'.rest == w.rest[1..]
    {
      ghost var p: nat := w.rest[0];
      w' := w.(rest := w.rest[1..], ready := Insert(w.k.procs, w.ready, p), woken := w.woken + [p]);
      WakeLoopStep(w.k, w.event, w.rest, w.ready, w.temp, w.woken);
      MakeReadyAndEnqueue(w, q, temp);
    }

    method MakeReadyAndEnqueue(ghost w: WakeState, q: int, ghost temp: int)
      requires Dequeued(w, q, temp)
      modifies this`readyQueue, proc
      ensures Records(proc[..], MakeReady(w.k.procs, w.woken + [w.rest[0]]))
      ensures Links(proc[..], MakeReady(w.k.procs, w.woken + [w.rest[0]]))
      ensures Chain(proc[..], freeList, w.k.free) && Chain(proc[..], temp, w.temp)
      ensures Chain(proc[..], sleepList, w.rest[1..])
      ensures Chain(proc[..], readyQueue, Insert(w.k.procs, w.ready, w.rest[0]))
    {
      ghost var p: nat := w.rest[0];
      ghost var t := proc[..];
      WakeLoopHead(w.k, w.event, w.rest, w.ready, w.temp, w.woken);
      RouseOne(t, w.k.procs, w.woken, p);
      ghost var ps1 := MakeReady(w.k.procs, w.woken + [p]);
      InsertByPriority(ps1, w.k.procs, w.ready, p);
      hide WakeLoop, MakeReady, Insert, Shape, SamePriority, NoDup, Disjoint;
      proc[q] := proc[q].(status := READY);
      ghost var t1 := proc[..];
      assert t1 == t[p := t[p].(status := READY)];
      ChainSame(t, t1, freeList, w.k.free);
      ChainSame(t, t1, readyQueue, w.ready);
      ChainSame(t, t1, sleepList, w.rest[1..]);
      ChainSame(t, t1, temp, w.temp);
      readyQueue := Enqueue(readyQueue, q, ps1, w.ready);
      ChainApart(t1, proc[..], freeList, w.k.free, w.ready, p);
      ChainApart(t1, proc[..], sleepList, w.rest[1..], w.ready, p);
      ChainApart(t1, proc[..], temp, w.temp, w.ready, p);
      NextOnlyKeeps(t1, proc[..], ps1);
    }

    method LetSleep(ghost w: WakeState, q: int, temp: int) returns (ghost w': WakeState, temp': int)
      requires Dequeued(w, q, temp) && w.k.procs[q].event != w.event
      modifies proc
      ensures Waking(w', temp') && w'.k == w.k && w'.event == w.event && w'.rest == w.rest[1..]
    {
      ghost var p: nat := w.rest[0];
      ghost var t := proc[..];
      WakeLoopHead(w.k, w.event, w.rest, w.ready, w.temp, w.woken);
      WakeLoopStep(w.k, w.event, w.rest, w.ready, w.temp, w.woken);
      InsertByPriority(w.Procs(), w.k.procs, w.temp, p);
      hide WakeLoop, MakeReady, Insert, Shape, SamePriority, NoDup, Disjoint;
      temp' := Enqueue(temp, q, w.Procs(), w.temp);
      ChainApart(t, proc[..], freeList, w.k.free, w.temp, p);
      ChainApart(t, proc[..], sleepList, w.rest[1..], w.temp, p);
      ChainApart(t, proc[..], readyQueue, w.ready, w.temp, p);
      NextOnlyKeeps(t, proc[..], w.Procs());
      w' := w.(rest := w.rest[1..], temp := Insert(w.k.procs, w.temp, p));
    }

    // -------------------------------------------------------------- kfork()

    /** The walk to the end of a child list; NIL for an empty one. */
    method LastChild(i: nat, ghost kids: seq<nat>) returns (last: int)
      requires Kids(proc[..], i, kids)
      ensures last == if kids == [] then NIL else kids[|kids| - 1]
    {
      var child := proc[i].child;
      last := NIL;
      ghost var j: nat := 0;
      while child != NIL
        invariant j <= |kids| && child == Nth(kids, j)
        invariant last == if j == 0 then NIL else kids[j - 1]
        decreases |kids| - j
      {
        assert Sibling(proc[..], kids, j);
        last, child, j := child, proc[child].sibling, j + 1;
      }
    }

    method Kfork() returns (pid: int)
      requires Holds() && CanFork(k)
      modifies this, proc
      ensures Holds() && k == Fork(old(k)) && pid == ForkResult(old(k))
    {
      ghost var m, t := k, proc[..];
      var p: int;
      p, freeList := Dequeue(freeList, m.free);
      if p == NIL { return -1; }
      assert p in m.free;
      Forked(t, m);
      assert Record(t, m.procs, p) && Record(t, m.procs, m.running);
      proc[p] := proc[p].(status := READY, priority := 1);
      proc[p] := proc[p].(ppid := proc[running].pid, parent := running);
      proc[p] := proc[p].(child := NIL, sibling := NIL);
      assert proc[..] == t[p := Born(t[p], m.running)];
      var prev := LastChild(running, m.procs[m.running].kids);
      if prev != NIL { proc[prev] := proc[prev].(sibling := p); }
      else { proc[running] := proc[running].(child := p); }
      FinishFork(m, t, p);
      return p;
    }

    method FinishFork(ghost m: Kernel, ghost t: seq<Proc>, p: nat)
      requires Represents(t, m) && CanFork(m) && m.free != [] && p == m.free[0] && k == m
      requires m.table == table && running == m.running
      requires Records(proc[..], Fork(m).procs) && Links(proc[..], Fork(m).procs) && SameNexts(t, proc[..])
      requires Chain(t, freeList, m.free[1..]) && Chain(t, readyQueue, m.ready) && Chain(t, sleepList, m.asleep)
      modifies this, proc
      ensures Holds() && k == Fork(m)
    {
      ghost var t1, ps := proc[..], Fork(m).procs;
      FreeHead(m);
      ChainSame(t, t1, freeList, m.free[1..]);
      ChainSame(t, t1, readyQueue, m.ready);
      ChainSame(t, t1, sleepList, m.asleep);
      readyQueue := Enqueue(readyQueue, p, ps, m.ready);
      ChainApart(t1, proc[..], freeList, m.free[1..], m.ready, p);
      ChainApart(t1, proc[..], sleepList, m.asleep, m.ready, p);
      NextOnlyKeeps(t1, proc[..], ps);
      k := Fork(m);
    }

    // -------------------------------------------------------------- kexit()

    /** kexit() up to its tswitch(), for a PROC other than P1. */
    method Kexit(code: int)
      requires Holds() && Separate(k) && Lists(k.procs) && k.running > 1
      requires Separate(k.(procs := Die(k.procs, k.running, code)))
      requires k.running !in k.procs[k.running].kids
      modifies this, proc
      ensures Holds() && k == Bury(old(k), code)
    {
      ghost var m, t := k, proc[..];
      assert Record(t, m.procs, m.running);
      ExitedRecords(t, m, code);
      ExitedLinks(t, m, code);
      Bequeath();
      RunningKept(t, m, proc[..]);
      var ppa := if proc[running].parent != NIL then proc[running].parent else 1;
      proc[running] := proc[running].(child := NIL);
      proc[running] := proc[running].(exitCode := code);
      proc[running] := proc[running].(status := ZOMBIE);
      assert proc[..] == TableAfterExit(t, m, code);
      DieShape(m, code);
      WakeParent(m, t, code, ppa);
    }

    /** wakeup() of the parent, by its address. */
    method WakeParent(ghost m: Kernel, ghost t: seq<Proc>, ghost code: int, ppa: int)
      requires Shape(m) && m.running > 1 && k == m && m.table == table && running == m.running
      requires ppa == if m.procs[m.running].parent == NIL then 1 else m.procs[m.running].parent
      requires var m' := m.(procs := Die(m.procs, m.running, code));
               Shape(m') && Separate(m') && Records(proc[..], m'.procs) && Links(proc[..], m'.procs)
      requires SameNexts(t, proc[..])
      requires Chain(t, freeList, m.free) && Chain(t, readyQueue, m.ready) && Chain(t, sleepList, m.asleep)
      modifies this, proc
      ensures Holds() && k == Bury(m, code)
    {
      ChainSame(t, proc[..], freeList, m.free);
      ChainSame(t, proc[..], readyQueue, m.ready);
      ChainSame(t, proc[..], sleepList, m.asleep);
      hide Die, Separate;
      k := m.(procs := Die(m.procs, m.running, code));
      var event := table + PROC_SIZE * ppa;
      assert event == ParentEvent(m);
      assert MtxModel.Wakeup(k, event) == Bury(m, code);
      Wakeup(event);
    }

    /** The children of the running PROC, if any, are given to P1. */
    method Bequeath()
      requires Holds() && Lists(k.procs) && k.running > 1
      modifies proc
      ensures proc[..] == Bequest(old(proc[..]), k)
    {
      ghost var t := proc[..];
      ghost var kids1, kids := k.procs[1].kids, k.procs[k.running].kids;
      assert Kids(t, 1, k.procs[1].kids) && Kids(t, k.running, k.procs[k.running].kids);
      var prev := LastChild(1, kids1);
      if prev != NIL { proc[prev] := proc[prev].(sibling := proc[running].child); }
      else { proc[1] := proc[1].(child := proc[running].child); }
      ghost var t1 := proc[..];
      assert t1 == Attach(t, 1, kids1, Nth(kids, 0));
      ChildrenOf(t, k, t1);
      GiveAway(kids);
    }

    /** The loop that makes P1 the parent of the children of the running PROC. */
    method GiveAway(ghost kids: seq<nat>)
      requires 1 < proc.Length && 0 <= running < proc.Length && proc[1].pid == 1
      requires InRange(kids, proc.Length) && proc[running].child == Nth(kids, 0)
      requires forall j: nat {:trigger Sibling(proc[..], kids, j)} :: j < |kids| ==> Sibling(proc[..], kids, j)
      modifies proc
      ensures proc[..] == AdoptAll(old(proc[..]), kids)
    {
      ghost var t := proc[..];
      var child := proc[running].child;
      ghost var j: nat := 0;
      while child != NIL
        invariant j <= |kids| && child == Nth(kids, j)
        invariant proc[..] == AdoptAll(t, kids[..j])
        decreases |kids| - j
      {
        assert Sibling(t, kids, j);
        proc[child] := proc[child].(parent := 1);
        proc[child] := proc[child].(ppid := proc[1].pid);
        assert proc[..] == AdoptAll(t, kids[..j + 1]);
        child, j := proc[child].sibling, j + 1;
      }
      assert kids[..j] == kids;
    }

    // -------------------------------------------------------------- kwait()

    /** The recursion of findZombieChild(): the first ZOMBIE from place j on, or NIL. */
    method FindZombieChild(p: int, ghost ps: seq<Pcb>, ghost i: nat, ghost kids: seq<nat>, ghost j: nat) returns (z: int)
      requires Records(proc[..], ps) && Kids(proc[..], i, kids) && j <= |kids| && p == Nth(kids, j)
      ensures z == Nth(kids, j + ZombieAt(ps, kids[j..]))
      decreases |kids| - j
    {
      if p != NIL {
        assert Record(proc[..], ps, kids[j]) && Sibling(proc[..], kids, j);
        if proc[p].status == ZOMBIE { return p; }
        assert kids[j..][1..] == kids[j + 1..];
        z := FindZombieChild(proc[p].sibling, ps, i, kids, j + 1);
        return z;
      }
      return NIL;
    }

    /** The removal of place `at` from a child list: the walk of kwait() up to the ZOMBIE. */
    method Unlink(i: nat, z: nat, ghost kids: seq<nat>, ghost at: nat)
      requires Kids(proc[..], i, kids) && NoDup(kids) && at < |kids| && kids[at] == z
      modifies proc
      ensures proc[..] == Unlinked(old(proc[..]), i, kids, at)
    {
      ghost var t := proc[..];
      var cur, prev := proc[i].child, NIL;
      ghost var j: nat := 0;
      while cur != z
        invariant j <= at && cur == kids[j]
        invariant prev == if j == 0 then NIL else kids[j - 1]
        decreases at - j
      {
        assert Sibling(t, kids, j);
        prev, cur, j := cur, proc[cur].sibling, j + 1;
      }
      assert j < at ==> Differ(kids, j, at);
      proc[z] := proc[z].(status := FREE);
      if prev != NIL { proc[prev] := proc[prev].(sibling := proc[z].sibling); }
      else { proc[i] := proc[i].(child := proc[z].sibling); }
    }

    /** A ZOMBIE child is buried; its pid and exit code are returned. */
    method Collect(z: nat) returns (pid: int, code: int)
      requires Holds() && Separate(k) && Lists(k.procs) && HasZombie(k) && z == Dead(k)
      requires Dead(k) !in k.free && Dead(k) !in k.ready && Dead(k) !in k.asleep
      modifies this, proc
      ensures Holds() && k == MtxModel.Collect(old(k))
      ensures pid == z && code == old(k).procs[z].exitCode
    {
      ghost var m, t := k, proc[..];
      ghost var kids := m.procs[m.running].kids;
      assert Record(t, m.procs, z) && Kids(t, m.running, m.procs[m.running].kids) && NoDup(m.procs[m.running].kids);
      CollectedTable(t, m);
      pid, code := proc[z].pid, proc[z].exitCode;
      Unlink(running, z, kids, ZombieAt(m.procs, kids));
      FreeZombie(m, t, z);
    }

    method FreeZombie(ghost m: Kernel, ghost t: seq<Proc>, z: nat)
      requires Shape(m) && Separate(m) && HasZombie(m) && z == Dead(m) && k == m
      requires m.table == table && running == m.running
      requires z !in m.free && z !in m.ready && z !in m.asleep
      requires Records(proc[..], MtxModel.Collect(m).procs) && Links(proc[..], MtxModel.Collect(m).procs)
      requires SameNexts(t, proc[..])
      requires Chain(t, freeList, m.free) && Chain(t, readyQueue, m.ready) && Chain(t, sleepList, m.asleep)
      modifies this, proc
      ensures Holds() && k == MtxModel.Collect(m)
    {
      ghost var t1, ps := proc[..], MtxModel.Collect(m).procs;
      ChainSame(t, t1, freeList, m.free);
      ChainSame(t, t1, readyQueue, m.ready);
      ChainSame(t, t1, sleepList, m.asleep);
      freeList := Enqueue(freeList, z, ps, m.free);
      Flip(m.free, m.ready);
      Flip(m.free, m.asleep);
      ChainApart(t1, proc[..], readyQueue, m.ready, m.free, z);
      ChainApart(t1, proc[..], sleepList, m.asleep, m.free, z);
      NextOnlyKeeps(t1, proc[..], ps);
      k := MtxModel.Collect(m);
    }

    // -------------------------------------------------------------- do_jesus()

    method Jesus()
      requires Holds() && Separate(k) && ZombiesApart(k)
      modifies this, proc
      ensures Holds() && k == Raise(old(k))
    {
      ghost var m, ready := k, k.ready;
      ghost var done: seq<nat> := [];
      BeginJesus();
      hide *;
      for i := 1 to proc.Length
        invariant Raising(m, i, ready, done)
      {
        ready, done := RaiseAt(m, i, ready, done);
      }
      EndJesus(m, ready, done);
    }

    ghost method EndJesus(m: Kernel, ready: seq<nat>, done: seq<nat>)
      requires Raising(m, proc.Length, ready, done)
      modifies this`k
      ensures Holds() && k == Raise(m)
    {
      RaiseDone(proc[..], m, ready, done);
      hide RaiseLoop, Records, Links, Next;
      k := Raise(m);
    }

    lemma {:induction false} BeginJesus()
      requires Holds() && Separate(k) && ZombiesApart(k)
      ensures Raising(k, 1, k.ready, []) && 1 <= proc.Length
    {
      RaiseStart(k);
    }

    ghost predicate Raising(m: Kernel, i: nat, ready: seq<nat>, done: seq<nat>)
      reads this, proc
    {
      && Shape(m) && Separate(m) && k == m && table == m.table && running == m.running && proc.Length == |m.procs|
      && RaiseLoop(m, i, ready, done)
      && Records(proc[..], MakeReady(m.procs, done)) && Links(proc[..], MakeReady(m.procs, done))
      && Chain(proc[..], freeList, m.free) && Chain(proc[..], readyQueue, ready)
      && Chain(proc[..], sleepList, m.asleep)
    }

    /** One turn of the loop of do_jesus(). */
    method RaiseAt(ghost m: Kernel, i: nat, ghost ready: seq<nat>, ghost done: seq<nat>)
      returns (ghost ready': seq<nat>, ghost done': seq<nat>)
      requires Raising(m, i, ready, done) && i < proc.Length
      modifies this`readyQueue, proc
      ensures Raising(m, i + 1, ready', done')
    {
      RaiseStep(m, i, ready, done);
      assert Record(proc[..], MakeReady(m.procs, done), i);
      hide RaiseLoop, Separate, MakeReady, Insert;
      if proc[i].status == ZOMBIE {
        RaiseOne(m, i, ready, done);
        return Insert(m.procs, ready, i), done + [i];
      }
      return ready, done;
    }

    method RaiseOne(ghost m: Kernel, i: nat, ghost ready: seq<nat>, ghost done: seq<nat>)
      requires Raising(m, i, ready, done) && i < proc.Length
      requires m.procs[i].status == ZOMBIE && i !in ready && i !in m.free && i !in m.asleep
      requires RaiseLoop(m, i + 1, Insert(m.procs, ready, i), done + [i])
      modifies this`readyQueue, proc
      ensures Raising(m, i + 1, Insert(m.procs, ready, i), done + [i])
    {
      ghost var t, ps1 := proc[..], MakeReady(m.procs, done + [i]);
      RouseOne(t, m.procs, done, i);
      RaiseApart(m, i, ready, done);
      InsertByPriority(ps1, m.procs, ready, i);
      hide MakeReady, Insert, Separate, RaiseLoop, Shape, SamePriority, NoDup, Disjoint;
      proc[i] := proc[i].(status := READY);
      ghost var t1 := proc[..];
      assert t1 == t[i := t[i].(status := READY)];
      ChainSame(t, t1, freeList, m.free);
      ChainSame(t, t1, readyQueue, ready);
      ChainSame(t, t1, sleepList, m.asleep);
      readyQueue := Enqueue(readyQueue, i, ps1, ready);
      ChainApart(t1, proc[..], freeList, m.free, ready, i);
      ChainApart(t1, proc[..], sleepList, m.asleep, ready, i);
      NextOnlyKeeps(t1, proc[..], ps1);
    }

    // -------------------------------------------------------------- body()

    /** One command of the running PROC, up to the point where a PROC reads the next one. */
    method Command(op: Op)
      requires Valid() && Enabled(k, op)
      modifies this, proc
      ensures Valid() && k == Step(old(k), op)
    {
      ghost var m := k;
      StepKeeps(m, op);
      InvSeparate(m);
      InvCanFork(m);
      match op {
        case DoFork => var _ := Kfork();
        case DoSwitch => Switch(m, op);
        case DoExit(code) => ExitCommand(code);
        case DoSleep(event) => SleepCommand(event);
        case DoWakeup(event) => Wakeup(event);
        case DoJesus => Jesus();
        case DoWait => var _ := Kwait();
      }
    }

    method Switch(ghost m: Kernel, ghost op: Op)
      requires Holds() && Inv(m) && Enabled(m, op) && Switches(m, op) && k == Before(m, op)
      modifies this, proc
      ensures Holds() && k == Step(m, op)
    {
      SchedulerFindsProc(m, op);
      BeforeKeeps(m, op);
      CoreSeparate(k);
      Scheduler();
    }

    method SleepCommand(event: int)
      requires Valid() && Enabled(k, DoSleep(event))
      modifies this, proc
      ensures Holds() && k == Step(old(k), DoSleep(event))
    {
      SchedulerFindsProc(k, DoSleep(event));
      InvSeparate(k);
      Sleep(event);
    }

    method ExitCommand(code: int)
      requires Valid() && Enabled(k, DoExit(code))
      modifies this, proc
      ensures Holds() && k == Step(old(k), DoExit(code))
    {
      ghost var m := k;
      if running != 1 {
        InvSeparate(m);
        InvCanFork(m);
        DieSeparate(m, code);
        Kexit(code);
        Switch(m, DoExit(code));
      }
    }

    /** One pass of the loop of kwait(). */
    method Kwait() returns (outcome: WaitResult)
      requires Valid() && Enabled(k, DoWait)
      modifies this, proc
      ensures Holds() && k == Step(old(k), DoWait)
      ensures outcome == WaitOutcome(old(k))
    {
      ghost var m := k;
      ghost var kids := m.procs[m.running].kids;
      InvSeparate(m);
      InvCanFork(m);
      assert Kids(proc[..], m.running, m.procs[m.running].kids);
      if proc[running].child == NIL {
        Reach(AtPrompt);
        return NoChild;
      }
      assert kids[0..] == kids;
      var z := FindZombieChild(proc[running].child, m.procs, m.running, kids, 0);
      if z != NIL {
        DeadApart(m);
        var pid, code := Collect(z);
        return Buried(pid, code);
      }
      BlockInKwait();
      return Blocked;
    }

    /** The running PROC reaches a point of its code; the table does not show it. */
    ghost method Reach(at: Point)
      requires Holds() && Separate(k)
      modifies this`k
      ensures Holds() && k == SetPoint(old(k), at)
    {
      PointHolds(proc[..], k, at);
      hide Separate, Records, Links, Chain, Record, Kids;
      k := SetPoint(k, at);
    }

    /** No child is dead yet: sleep on the own PROC address, inside the loop. */
    method BlockInKwait()
      requires Valid() && Enabled(k, DoWait) && WaitOutcome(k) == Blocked
      modifies this, proc
      ensures Holds() && k == Step(old(k), DoWait)
    {
      ghost var m := k;
      var event := table + PROC_SIZE * running;
      assert Holds() && Inv(m) && event == Addr(m, m.running);
      hide *;
      BlockReady(m);
      Reach(InKwait);
      Sleep(event);
    }
  }

  /** The first pass of kwait() that blocks: what sleep() relies on, and what it does. */
  lemma {:induction false} BlockReady(k: Kernel)
    requires Inv(k) && Enabled(k, DoWait) && WaitOutcome(k) == Blocked
    ensures var p := SetPoint(k, InKwait);
            && Separate(k) && Separate(p) && p.procs[p.running].status == READY
            && ReadyWithRunning(Doze(p, Addr(k, k.running))) != []
            && Step(k, DoWait) == Schedule(Doze(p, Addr(k, k.running)))
  {
    InvSeparate(k);
    SchedulerFindsProc(k, DoWait);
  }
}
