/** What each command of body() (PreLab3/Code/t.c:94-124) does to the whole kernel state. */
module MtxCommands {
  import opened MtxModel
  import opened MtxQueues
  import opened MtxInvariant
  import opened MtxRuns

  /** The members of a list that are in s, in order. */
  function Only(q: seq<nat>, s: set<nat>): seq<nat> {
    if q == [] then [] else (if q[0] in s then [q[0]] else []) + Only(q[1..], s)
  }

  /** The PROCs asleep on an event. */
  function On(k: Kernel, event: int): set<nat> {
    set p: nat | p < |k.procs| && k.procs[p].status == SLEEP && k.procs[p].event == event
  }

  function NotOn(k: Kernel, event: int): set<nat> {
    set p: nat | p < |k.procs| && !(k.procs[p].status == SLEEP && k.procs[p].event == event)
  }

  // ---------------------------------------------------------------- queues under the invariant

  lemma {:induction false} OnlyIsSplit(k: Kernel, q: seq<nat>, event: int)
    requires InRange(q, |k.procs|) && forall x :: x in q ==> k.procs[x].status == SLEEP
    ensures Sleepers(k.procs, q, event) == Only(q, On(k, event))
    ensures Others(k.procs, q, event) == Only(q, NotOn(k, event))
  {
    if q != [] {
      assert q[0] in q && forall x :: x in q[1..] ==> x in q;
      OnlyIsSplit(k, q[1..], event);
    }
  }

  /** The ready queue while a user PROC runs: user PROCs, and P0 behind them. */
  lemma {:induction false} ReadyIs(k: Kernel)
    requires Inv(k) && k.running != 0
    ensures k.ready == Users(k) + [0]
    ensures forall j :: 0 <= j < |Users(k)| ==> k.procs[Users(k)[j]].priority == 1
    ensures k.procs[k.running].priority == 1
  {
    ReadyEndsInP0(k);
    var us := Users(k);
    assert k.ready == us + [0];
    assert InPlace(k, k.running) && InPlace(k, 0);
    forall j | 0 <= j < |us| ensures k.procs[us[j]].priority == 1 {
      assert Differ(k.ready, j, |k.ready| - 1) && k.ready[j] == us[j] && InPlace(k, us[j]);
    }
  }

  /** A user PROC is queued behind the user PROCs and ahead of P0. */
  lemma {:induction false} QueuedBeforeP0(ps: seq<Pcb>, us: seq<nat>, p: nat)
    requires 2 <= |ps| && InRange(us, |ps|) && p < |ps| && ps[0].priority == 0 && ps[p].priority == 1
    requires forall j :: 0 <= j < |us| ==> ps[us[j]].priority == 1
    ensures InRange(us + [0], |ps|) && Insert(ps, us + [0], p) == us + [p] + [0]
  {
    PosIs(ps, us + [0], p, |us|);
    assert (us + [0])[..|us|] == us && (us + [0])[|us|..] == [0];
  }

  /** On the sleep list it is the last. */
  lemma {:induction false} SleepsLast(k: Kernel, ps: seq<Pcb>, p: nat)
    requires Inv(k) && SamePriority(k.procs, ps) && p < |ps| && k.procs[p].status != FREE && p != 0
    ensures Insert(ps, k.asleep, p) == k.asleep + [p]
  {
    forall j | 0 <= j < |k.asleep| ensures k.procs[k.asleep[j]].priority == 1 {
      assert InPlace(k, k.asleep[j]);
    }
    PosIs(ps, k.asleep, p, |k.asleep|);
    assert k.asleep[..|k.asleep|] == k.asleep && k.asleep[|k.asleep|..] == [];
    assert k.asleep + [p] + [] == k.asleep + [p];
  }

  // ---------------------------------------------------------------- switch

  /** tswitch(): the running PROC goes behind the ready user PROCs, P0 stays last, and the first
      in line runs. */
  lemma {:induction false} SwitchDoes(k: Kernel)
    requires Inv(k) && Enabled(k, DoSwitch)
    ensures var k' := Step(k, DoSwitch);
            && [k'.running] + k'.ready == Users(k) + (if k.running == 0 then [] else [k.running]) + [0]
            && k' == k.(running := k'.running, ready := k'.ready)
  {
    LineIs(k);
    hide Inv, Users, Insert;
    var q := ReadyWithRunning(k);
    assert [q[0]] + q[1..] == q;
  }

  /** Who is in line when the running PROC gives way. */
  lemma {:induction false} LineIs(k: Kernel)
    requires Inv(k)
    ensures ReadyWithRunning(k) == Users(k) + (if k.running == 0 then [] else [k.running]) + [0]
  {
    if k.running == 0 {
      P0Last(k);
      assert k.ready + [] + [0] == k.ready + [0];
    } else {
      ReadyIs(k);
      QueuedBeforeP0(k.procs, Users(k), k.running);
    }
  }

  lemma {:induction false} P0Last(k: Kernel)
    requires Inv(k) && k.running == 0
    ensures Insert(k.procs, k.ready, 0) == k.ready + [0]
  {
    assert InPlace(k, 0);
    forall j | 0 <= j < |k.ready| ensures k.procs[k.ready[j]].priority == 1 { assert InPlace(k, k.ready[j]); }
    hide Inv;
    PosIs(k.procs, k.ready, 0, |k.ready|);
    assert k.ready[..|k.ready|] == k.ready && k.ready[|k.ready|..] == [];
    assert k.ready + [0] + [] == k.ready + [0];
  }

  /** A command behind which the running PROC is not READY: the first in line runs. */
  lemma {:induction false} LeavesTo(k: Kernel, op: Op)
    requires Inv(k) && Enabled(k, op) && Switches(k, op) && Before(k, op).procs[Before(k, op).running].status != READY
    ensures var m, k' := Before(k, op), Step(k, op);
            m.ready != [] && [k'.running] + k'.ready == m.ready && k' == m.(running := k'.running, ready := k'.ready)
  {
    SchedulerFindsProc(k, op);
    var m := Before(k, op);
    assert [m.ready[0]] + m.ready[1..] == m.ready;
  }

  // ---------------------------------------------------------------- fork

  /** kfork(): the new PROC is the first of the free list, with this record, the last child of
      the caller and the last user PROC in line. */
  lemma {:induction false} ForkDoes(k: Kernel)
    requires Inv(k) && Enabled(k, DoFork)
    ensures var k', r := Step(k, DoFork), k.running;
            if k.free == [] then k' == k
            else
              var p, was := k.free[0], k.procs[k.free[0]];
              && p != r && was.status == FREE
              && k'.procs == k.procs[p := Pcb(READY, 1, r, was.event, was.exitCode, r, [], AtPrompt)]
                                    [r := k.procs[r].(kids := k.procs[r].kids + [p])]
              && k'.ready == Users(k) + [p] + [0] && k'.free == k.free[1..]
              && k' == k.(procs := k'.procs, ready := k'.ready, free := k'.free)
  {
    if k.free != [] {
      var p := k.free[0];
      ReadyIs(k);
      assert InPlace(k, p) && InPlace(k, k.running);
      forall j | 0 <= j < |Users(k)| ensures Users(k)[j] != p { assert k.ready[j] == Users(k)[j]; }
      QueuedBeforeP0(Fork(k).procs, Users(k), p);
    }
  }

  // ---------------------------------------------------------------- sleep and wakeup

  /** sleep(event): the caller is SLEEP with the event, last on the sleep list, and the first in
      line runs. */
  lemma {:induction false} SleepDoes(k: Kernel, event: int)
    requires Inv(k) && Enabled(k, DoSleep(event))
    ensures var k', r := Step(k, DoSleep(event)), k.running;
            && k'.procs == k.procs[r := k.procs[r].(status := SLEEP, event := event)]
            && k'.asleep == k.asleep + [r] && [k'.running] + k'.ready == Users(k) + [0]
            && k' == k.(procs := k'.procs, asleep := k'.asleep, ready := k'.ready, running := k'.running)
  {
    var r := k.running;
    ReadyIs(k);
    LeavesTo(k, DoSleep(event));
    SleepsLast(k, k.procs[r := k.procs[r].(status := SLEEP, event := event)], r);
  }

  lemma {:induction false} WakeupQueues(k: Kernel, event: int)
    requires Inv(k) && k.running != 0
    ensures var w := Wakeup(k, event);
            w.ready == Users(k) + Only(k.asleep, On(k, event)) + [0] && w.asleep == Only(k.asleep, NotOn(k, event))
  {
    forall x | x in k.asleep ensures k.procs[x].status == SLEEP { assert InPlace(k, x); }
    OnlyIsSplit(k, k.asleep, event);
    WakeupIsStableSplit(k, event);
  }

  /** wakeup(event): exactly the PROCs asleep on the event are READY, in line behind the ready user
      PROCs in the order in which they slept; the others sleep on in order. */
  lemma {:induction false} WakeupDoes(k: Kernel, event: int)
    requires Inv(k) && Enabled(k, DoWakeup(event))
    ensures var k' := Step(k, DoWakeup(event));
            && |k'.procs| == |k.procs|
            && (forall p: nat :: p < |k.procs| ==>
                  k'.procs[p] == if p in On(k, event) then k.procs[p].(status := READY) else k.procs[p])
            && (forall p :: p in On(k, event) ==> p in k'.ready)
            && k'.ready == Users(k) + Only(k.asleep, On(k, event)) + [0] && k'.asleep == Only(k.asleep, NotOn(k, event))
            && k' == k.(procs := k'.procs, ready := k'.ready, asleep := k'.asleep)
  {
    WakeupPlaces(k, event);
    WakeupQueues(k, event);
    hide Users, Only, Sleepers, Others, InsertAll;
    forall p | p in On(k, event) ensures p in Wakeup(k, event).ready { assert InPlace(Wakeup(k, event), p); }
  }

  /** do_jesus(): exactly the ZOMBIEs are READY, in line in table order. */
  lemma {:induction false} JesusDoes(k: Kernel)
    requires Inv(k) && Enabled(k, DoJesus)
    ensures var k' := Step(k, DoJesus);
            && |k'.procs| == |k.procs|
            && (forall p: nat :: p < |k.procs| ==>
                  k'.procs[p] == if k.procs[p].status == ZOMBIE then k.procs[p].(status := READY) else k.procs[p])
            && k'.ready == Users(k) + Only(Fresh(|k.procs|), WithStatus(k, ZOMBIE)) + [0]
            && k' == k.(procs := k'.procs, ready := k'.ready)
  {
    RaisedQueue(k);
    hide Zombies, Fresh, InsertAll, Only, Users;
  }

  lemma {:induction false} RaisedQueue(k: Kernel)
    requires Inv(k) && k.running != 0
    ensures InsertAll(k.procs, k.ready, Zombies(k.procs, 1))
            == Users(k) + Only(Fresh(|k.procs|), WithStatus(k, ZOMBIE)) + [0]
  {
    ReadyIs(k);
    var zs := Zombies(k.procs, 1);
    forall j | 0 <= j < |zs| ensures k.procs[zs[j]].priority == 1 { assert zs[j] in zs; }
    TableOrder(k, 1);
    hide Zombies, Fresh, Only, Users;
    InsertAllBlock(k.procs, Users(k), [0], zs, 1);
  }

  /** The ZOMBIEs of the table from place i on, in table order. */
  lemma {:induction false} TableOrder(k: Kernel, i: nat)
    requires 1 <= i <= |k.procs| && k.procs[0].status != ZOMBIE
    ensures Zombies(k.procs, i) == Only(Fresh(|k.procs|)[i..], WithStatus(k, ZOMBIE))
    ensures i == 1 ==> Only(Fresh(|k.procs|), WithStatus(k, ZOMBIE)) == Zombies(k.procs, 1)
    decreases |k.procs| - i
  {
    var q := Fresh(|k.procs|);
    if i < |k.procs| {
      TableOrder(k, i + 1);
      assert q[i..][0] == i && q[i..][1..] == q[i + 1..];
    }
    assert q[0] == 0;
  }

  // ---------------------------------------------------------------- exit

  /** kexit(): the caller is a ZOMBIE with its code and no children; its children are P1's, behind
      those that P1 had; exactly the PROCs asleep on the address of the parent are READY; every
      other field of every record is as before.  P1 does not exit. */
  lemma {:induction false} ExitDoes(k: Kernel, code: int)
    requires Inv(k) && Enabled(k, DoExit(code))
    ensures k.running == 1 ==> Step(k, DoExit(code)) == k
    ensures k.running != 1 ==>
              var k', r := Step(k, DoExit(code)), k.running;
              var parent := k.table + 4140 * k.procs[r].parent;
              && |k'.procs| == |k.procs|
              && (forall p: nat :: p < |k.procs| ==> k'.procs[p] == AfterExit(k, code, p))
              && [k'.running] + k'.ready == Users(k) + Only(k.asleep, On(k, parent)) + [0]
              && k'.asleep == Only(k.asleep, NotOn(k, parent))
              && k' == k.(procs := k'.procs, ready := k'.ready, asleep := k'.asleep, running := k'.running)
  {
    if k.running != 1 {
      ParentAddress(k);
      forall p: nat | p < |k.procs| { BuriedRecord(k, code, p); }
      BuriedQueues(k, code);
      BuryEffect1(k, code);
      hide Bury, Inv, On, NotOn, Only, Users, ParentEvent;
      LeavesTo(k, DoExit(code));
    }
  }

  lemma {:induction false} ParentAddress(k: Kernel)
    requires Inv(k) && k.running > 1
    ensures ParentEvent(k) == k.table + 4140 * k.procs[k.running].parent
  {
    assert HasParent(k.procs, k.running);
  }

  lemma {:induction false} BuryEffect1(k: Kernel, code: int)
    requires Inv(k) && k.running > 1
    ensures var w := Bury(k, code); w == k.(procs := w.procs, ready := w.ready, asleep := w.asleep) && |w.procs| == |k.procs|
  {
  }

  /** The record of p behind the exit. */
  function AfterExit(k: Kernel, code: int, p: nat): Pcb
    requires Shape(k) && p < |k.procs|
  {
    var r, was := k.running, k.procs[p];
    if p == r then was.(status := ZOMBIE, exitCode := code, kids := [])
    else was.(status := if p in On(k, k.table + 4140 * k.procs[r].parent) then READY else was.status,
              parent := if p in k.procs[r].kids then 1 else was.parent,
              ppid := if p in k.procs[r].kids then 1 else was.ppid,
              kids := if p == 1 then k.procs[1].kids + k.procs[r].kids else was.kids)
  }

  lemma {:induction false} BuriedRecord(k: Kernel, code: int, p: nat)
    requires Inv(k) && k.running > 1 && p < |k.procs|
    ensures Bury(k, code).procs[p] == AfterExit(k, code, p)
  {
    var m := k.(procs := Die(k.procs, k.running, code));
    ParentAddress(k);
    DiePlaces(k, code);
    KidsAreChildren(k.procs, k.running, k.running);
    assert HasParent(k.procs, k.running);
    hide Places, Inv;
    WakeupEffect(m, ParentEvent(k), p);
  }

  lemma {:induction false} BuriedQueues(k: Kernel, code: int)
    requires Inv(k) && k.running > 1
    ensures var w, e := Bury(k, code), ParentEvent(k);
            w.ready == Users(k) + Only(k.asleep, On(k, e)) + [0] && w.asleep == Only(k.asleep, NotOn(k, e))
  {
    var ps, e := Die(k.procs, k.running, code), ParentEvent(k);
    WakeupQueues(k, e);
    assert SamePriority(k.procs, ps) && forall i :: 0 <= i < |ps| ==> ps[i].event == k.procs[i].event;
    hide Die, Inv, On, NotOn, Only, Users, ParentEvent, InsertAll, Sleepers, Others;
    SplitByEvent(k.procs, ps, k.asleep, e);
    InsertAllByPriority(k.procs, ps, k.ready, Sleepers(k.procs, k.asleep, e));
    InsertAllByPriority(k.procs, ps, [], Others(k.procs, k.asleep, e));
  }

  lemma {:induction false} SplitByEvent(ps: seq<Pcb>, ps': seq<Pcb>, q: seq<nat>, event: int)
    requires |ps| == |ps'| && InRange(q, |ps|) && forall i :: 0 <= i < |ps| ==> ps'[i].event == ps[i].event
    ensures Sleepers(ps', q, event) == Sleepers(ps, q, event) && Others(ps', q, event) == Others(ps, q, event)
  {
    if q != [] { SplitByEvent(ps, ps', q[1..], event); }
  }

  // ---------------------------------------------------------------- wait

  /** The free list with p behind every PROC of its priority or a higher one and ahead of all others: a
      PROC that was in use comes behind those freed before and ahead of those never used. */
  predicate QueuedAt(k: Kernel, free: seq<nat>, p: nat)
    requires Shape(k) && p < |k.procs|
  {
    exists j :: 0 <= j <= |k.free| && free == k.free[..j] + [p] + k.free[j..]
      && (forall l :: 0 <= l < j ==> k.procs[k.free[l]].priority >= k.procs[p].priority)
      && (forall l :: j <= l < |k.free| ==> k.procs[k.free[l]].priority < k.procs[p].priority)
  }

  /** Without a child kwait() is over; with a dead one it buries the first of them; otherwise the
      caller sleeps on its own address, inside the loop. */
  lemma {:induction false} WaitDoes(k: Kernel, i: nat)
    requires Inv(k) && Enabled(k, DoWait) && i <= |k.procs[k.running].kids|
    requires var kids := k.procs[k.running].kids;
             && (forall j :: 0 <= j < i ==> k.procs[kids[j]].status != ZOMBIE)
             && (i < |kids| ==> k.procs[kids[i]].status == ZOMBIE)
    ensures var k', r, kids := Step(k, DoWait), k.running, k.procs[k.running].kids;
            if kids == [] then k' == k.(procs := k.procs[r := k.procs[r].(point := AtPrompt)])
            else if i < |kids| then
              && kids[i] != r
              && k'.procs == k.procs[kids[i] := k.procs[kids[i]].(status := FREE)]
                                    [r := k.procs[r].(kids := kids[..i] + kids[i + 1..], point := AtPrompt)]
              && QueuedAt(k, k'.free, kids[i])
              && k' == k.(procs := k'.procs, free := k'.free)
            else
              && k'.procs == k.procs[r := k.procs[r].(status := SLEEP, event := k.table + 4140 * r, point := InKwait)]
              && k'.asleep == k.asleep + [r] && [k'.running] + k'.ready == Users(k) + [0]
              && k' == k.(procs := k'.procs, asleep := k'.asleep, ready := k'.ready, running := k'.running)
  {
    var r, kids := k.running, k.procs[k.running].kids;
    FirstZombieIs(k.procs, kids, i);
    if kids != [] && i < |kids| {
      BurialDoes(k, i);
    } else if kids != [] {
      BlockDoes(k);
    }
  }

  lemma {:induction false} BurialDoes(k: Kernel, i: nat)
    requires Inv(k) && HasZombie(k) && i == ZombieAt(k.procs, k.procs[k.running].kids)
    ensures var k', r, kids := Collect(k), k.running, k.procs[k.running].kids;
            && kids[i] != r
            && k'.procs == k.procs[kids[i] := k.procs[kids[i]].(status := FREE)]
                                  [r := k.procs[r].(kids := kids[..i] + kids[i + 1..], point := AtPrompt)]
            && QueuedAt(k, k'.free, kids[i])
            && k' == k.(procs := k'.procs, free := k'.free)
  {
    var r, kids := k.running, k.procs[k.running].kids;
    KidsAreChildren(k.procs, r, kids[i]);
    assert kids[i] in kids;
    QueuesSorted(k, Collect(k).procs);
    assert SamePriority(k.procs, Collect(k).procs);
    hide Inv;
    var j := InsertIsStable(Collect(k).procs, k.free, kids[i]);
    assert forall l :: 0 <= l < |k.free| ==> Collect(k).procs[k.free[l]].priority == k.procs[k.free[l]].priority;
  }

  lemma {:induction false} BlockDoes(k: Kernel)
    requires Inv(k) && Enabled(k, DoWait) && k.procs[k.running].kids != [] && !HasZombie(k)
    ensures var k', r := Step(k, DoWait), k.running;
            && k'.procs == k.procs[r := k.procs[r].(status := SLEEP, event := k.table + 4140 * r, point := InKwait)]
            && k'.asleep == k.asleep + [r] && [k'.running] + k'.ready == Users(k) + [0]
            && k' == k.(procs := k'.procs, asleep := k'.asleep, ready := k'.ready, running := k'.running)
  {
    ReadyIs(k);
    var m, r := SetPoint(k, InKwait), k.running;
    PointKeeps(k, InKwait);
    var ps := m.procs[r := m.procs[r].(status := SLEEP, event := Addr(k, r))];
    assert ps == k.procs[r := k.procs[r].(status := SLEEP, event := Addr(k, r), point := InKwait)];
    SleepsLast(m, ps, r);
    LeavesTo(k, DoWait);
    hide Inv, Users, Insert;
  }

  lemma {:induction false} FirstZombieIs(ps: seq<Pcb>, kids: seq<nat>, i: nat)
    requires InRange(kids, |ps|) && i <= |kids|
    requires forall j :: 0 <= j < i ==> ps[kids[j]].status != ZOMBIE
    requires i < |kids| ==> ps[kids[i]].status == ZOMBIE
    ensures ZombieAt(ps, kids) == i
  {
    var z := ZombieAt(ps, kids);
  }

  // ---------------------------------------------------------------- runs

  /** main(): P0 runs and P1, its only child, is ready; every other PROC is free, in order. */
  lemma {:induction false} BootIs(table: int, n: nat)
    requires 2 <= n
    ensures var k, blank := Boot(table, n), Pcb(FREE, 0, 0, 0, 0, NIL, [], AtPrompt);
            && |k.procs| == n
            && k.procs[0] == blank.(status := READY, kids := [1])
            && k.procs[1] == Pcb(READY, 1, 0, 0, 0, 0, [], AtPrompt)
            && (forall p :: 2 <= p < n ==> k.procs[p] == blank)
            && |k.free| == n - 2 && (forall j :: 0 <= j < n - 2 ==> k.free[j] == j + 2)
            && k == Kernel(table, k.procs, k.free, [1], [], 0)
  {
    assert Initial(table, n).free[0] == 1 && [] + [1] == [1];
  }

  /** A run goes on where its first part ended. */
  lemma {:induction false} ExecAppend(k: Kernel, a: seq<Op>, b: seq<Op>)
    requires Shape(k)
    ensures Exec(k, a + b) == Exec(Exec(k, a), b)
    ensures ValidRun(k, a + b) <==> ValidRun(k, a) && ValidRun(Exec(k, a), b)
    ensures |a| == 1 ==> Exec(k, a) == Step(k, a[0]) && (ValidRun(k, a) <==> Enabled(k, a[0]))
    decreases |a|
  {
    if a == [] {
      assert a + b == b;
    } else {
      assert (a + b)[1..] == a[1..] + b;
      ExecAppend(Step(k, a[0]), a[1..], b);
      if |a| == 1 { assert a[1..] == []; }
    }
  }
}
