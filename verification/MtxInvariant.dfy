/** What every command of the MTX kernel keeps. */
module MtxInvariant {
  import opened MtxModel
  import opened MtxQueues

  /** Each PROC is in exactly the one place that its status names. */
  predicate InPlace(k: Kernel, p: nat)
    requires p < |k.procs|
  {
    && (p in k.free <==> k.procs[p].status == FREE)
    && (p in k.asleep <==> k.procs[p].status == SLEEP)
    && (p in k.ready <==> k.procs[p].status == READY && p != k.running)
  }

  predicate Places(k: Kernel) {
    && NoDup(k.free) && NoDup(k.ready) && NoDup(k.asleep)
    && (forall p: nat :: p < |k.procs| ==> InPlace(k, p))
  }

  /** P0 has priority 0 and every other PROC in use has priority 1; queues are in order. */
  predicate Priorities(k: Kernel)
    requires Shape(k)
  {
    && k.procs[0].priority == 0
    && (forall p :: 1 <= p < |k.procs| && k.procs[p].status != FREE ==> k.procs[p].priority == 1)
    && Sorted(k.procs, k.free) && Sorted(k.procs, k.ready) && Sorted(k.procs, k.asleep)
  }

  /** P0 is READY for ever; P1 never dies. */
  predicate Immortals(k: Kernel)
    requires Shape(k)
  {
    k.procs[0].status == READY && k.procs[1].status in {READY, SLEEP}
  }

  predicate Alive(p: Pcb) {
    p.status == READY || p.status == SLEEP
  }

  /** c has a live parent that lists it, and its ppid is that parent's pid. */
  predicate HasParent(ps: seq<Pcb>, c: nat)
    requires c < |ps|
  {
    && 0 <= ps[c].parent < |ps| && ps[c].parent != c
    && ps[c].ppid == ps[c].parent
    && Alive(ps[ps[c].parent])
    && c in ps[ps[c].parent].kids
  }

  /** The j-th child of i is a PROC in use whose parent is i. */
  predicate IsChild(ps: seq<Pcb>, i: nat, j: nat)
    requires i < |ps| && j < |ps[i].kids|
  {
    var c := ps[i].kids[j];
    1 <= c < |ps| && ps[c].status != FREE && ps[c].parent == i
  }

  /** Child lists hold exactly the PROCs in use with that parent, once each. */
  predicate Family(ps: seq<Pcb>) {
    && 2 <= |ps|
    && ps[1].parent == 0
    && (forall c: nat {:trigger HasParent(ps, c)} :: 1 <= c < |ps| && ps[c].status != FREE ==> HasParent(ps, c))
    && (forall i: nat, j: nat :: i < |ps| && j < |ps[i].kids| ==> IsChild(ps, i, j))
    && (forall i: nat {:trigger NoDup(ps[i].kids)} :: i < |ps| ==> NoDup(ps[i].kids))
  }

  predicate NoZombieChild(ps: seq<Pcb>, p: nat)
    requires p < |ps|
  {
    forall c: nat {:trigger c in ps[p].kids} :: c in ps[p].kids && c < |ps| ==> ps[c].status != ZOMBIE
  }

  /** A PROC inside kwait() has a child; asleep there, it sleeps on its own address and,
      unless it is P1, none of its children is a ZOMBIE. */
  predicate WaitsWell(k: Kernel, p: nat)
    requires p < |k.procs|
  {
    var pcb := k.procs[p];
    pcb.point == InKwait ==>
      && p != 0 && Alive(pcb) && pcb.kids != []
      && (pcb.status == SLEEP ==> pcb.event == Addr(k, p) && (p != 1 ==> NoZombieChild(k.procs, p)))
  }

  predicate Waiting(k: Kernel) {
    forall p: nat :: p < |k.procs| ==> WaitsWell(k, p)
  }

  /** What holds at every call of scheduler(). */
  predicate Core(k: Kernel) {
    Shape(k) && Places(k) && Priorities(k) && Immortals(k) && Family(k.procs) && Waiting(k)
  }

  /** What holds between commands. */
  predicate Inv(k: Kernel) {
    Core(k) && k.procs[k.running].status == READY
  }

  // ---------------------------------------------------------------- frames

  /** Family looks at links and at who is FREE or ZOMBIE only. */
  predicate SameLinks(ps: seq<Pcb>, ps': seq<Pcb>) {
    && |ps| == |ps'|
    && forall i :: 0 <= i < |ps| ==>
         && ps'[i].kids == ps[i].kids && ps'[i].parent == ps[i].parent && ps'[i].ppid == ps[i].ppid
         && (ps'[i].status == FREE <==> ps[i].status == FREE)
         && (ps'[i].status == ZOMBIE ==> ps[i].status == ZOMBIE)
  }

  lemma {:induction false} FamilyKept(ps: seq<Pcb>, ps': seq<Pcb>)
    requires Family(ps) && SameLinks(ps, ps')
    ensures Family(ps')
  {
    forall c: nat | 1 <= c < |ps'| && ps'[c].status != FREE ensures HasParent(ps', c) {
      assert HasParent(ps, c);
    }
    forall i: nat, j: nat | i < |ps'| && j < |ps'[i].kids| ensures IsChild(ps', i, j) {
      assert IsChild(ps, i, j);
    }
  }

  // ---------------------------------------------------------------- scheduler()

  /** Unless P0 runs, the ready queue ends in P0. */
  lemma {:induction false} ReadyEndsInP0(k: Kernel)
    requires Core(k)
    ensures forall j :: 0 <= j < |k.ready| && k.ready[j] != 0 ==> k.procs[k.ready[j]].priority == 1
    ensures k.running != 0 ==> k.ready != [] && k.ready[|k.ready| - 1] == 0
  {
    forall j | 0 <= j < |k.ready| && k.ready[j] != 0 ensures k.procs[k.ready[j]].priority == 1 {
      assert InPlace(k, k.ready[j]);
    }
    if k.running != 0 {
      assert InPlace(k, 0);
      var j :| 0 <= j < |k.ready| && k.ready[j] == 0;
      var last := k.ready[|k.ready| - 1];
      assert InPlace(k, last);
      if j < |k.ready| - 1 { assert NotBelow(k.procs, k.ready, j, |k.ready| - 1); }
    }
  }

  lemma {:induction false} SchedulePlaces(m: Kernel)
    requires Core(m) && ReadyWithRunning(m) != []
    ensures Places(Schedule(m)) && m.procs[Schedule(m).running].status == READY
  {
    var q := ReadyWithRunning(m);
    var k := Schedule(m);
    assert InPlace(m, m.running);
    if m.procs[m.running].status == READY { InsertMembers(m.procs, m.ready, m.running); }
    forall p: nat | p < |m.procs|
      ensures InPlace(k, p) && (p in q <==> m.procs[p].status == READY)
    {
      assert InPlace(m, p);
      TailMembers(q, p);
    }
    TailMembers(q, 0);
    assert q[0] in q;
  }

  lemma {:induction false} SchedulePriorities(m: Kernel)
    requires Core(m) && ReadyWithRunning(m) != []
    ensures Priorities(Schedule(m))
  {
    if m.procs[m.running].status == READY { var _ := InsertIsStable(m.procs, m.ready, m.running); }
    SortedTail(m.procs, ReadyWithRunning(m));
  }

  lemma {:induction false} ScheduleKeeps(m: Kernel)
    requires Core(m) && ReadyWithRunning(m) != []
    ensures Inv(Schedule(m))
  {
    SchedulePlaces(m);
    SchedulePriorities(m);
    var k := Schedule(m);
    forall p: nat | p < |k.procs| ensures WaitsWell(k, p) { assert WaitsWell(m, p); }
  }

  // ---------------------------------------------------------------- sleep() and wakeup()

  /** A PROC goes to sleep: at the prompt on any event, in kwait() on its own address with
      no ZOMBIE child. */
  lemma {:induction false} DozeKeeps(k: Kernel, event: int)
    requires Inv(k) && k.running != 0
    requires k.procs[k.running].point == InKwait ==>
               event == Addr(k, k.running) && NoZombieChild(k.procs, k.running)
    ensures Core(Doze(k, event))
  {
    DozeQueues(k, event);
    var m := Doze(k, event);
    FamilyKept(k.procs, m.procs);
    forall p: nat | p < |k.procs| ensures WaitsWell(m, p) { assert WaitsWell(k, p); }
  }

  lemma {:induction false} DozeQueues(k: Kernel, event: int)
    requires Inv(k) && k.running != 0
    ensures Places(Doze(k, event)) && Priorities(Doze(k, event))
  {
    var r := k.running;
    var m := Doze(k, event);
    assert InPlace(k, r);
    InsertMembers(m.procs, k.asleep, r);
    assert SamePriority(k.procs, m.procs);
    QueuesSorted(k, m.procs);
    var _ := InsertIsStable(m.procs, k.asleep, r);
    forall p: nat | p < |k.procs| ensures InPlace(m, p) { assert InPlace(k, p); }
  }

  /** A sleeper that wakeup(event) is about to wake need not be waiting well. */
  predicate WakesOrWaits(k: Kernel, event: int, p: nat)
    requires p < |k.procs|
  {
    var pcb := k.procs[p];
    || WaitsWell(k, p)
    || (pcb.status == SLEEP && pcb.event == event && p != 0 && pcb.kids != [])
  }

  lemma {:induction false} WakeupEffect(k: Kernel, event: int, p: nat)
    requires Shape(k) && Places(k) && p < |k.procs|
    ensures Wakeup(k, event).procs[p] ==
              if k.procs[p].status == SLEEP && k.procs[p].event == event
              then k.procs[p].(status := READY) else k.procs[p]
  {
    assert InPlace(k, p);
    SplitMembers(k.procs, k.asleep, event);
  }

  lemma {:induction false} WakeupNoDup(k: Kernel, event: int)
    requires Shape(k) && Places(k)
    ensures NoDup(Wakeup(k, event).ready) && NoDup(Wakeup(k, event).asleep)
  {
    var ws, os := Sleepers(k.procs, k.asleep, event), Others(k.procs, k.asleep, event);
    SplitNoDup(k.procs, k.asleep, event);
    forall x | x in ws ensures x !in k.ready {
      SplitMembers(k.procs, k.asleep, event);
      assert InPlace(k, x);
    }
    InsertAllMembers(k.procs, k.ready, ws);
    InsertAllMembers(k.procs, [], os);
  }

  lemma {:induction false} WakeupInPlace(k: Kernel, event: int, p: nat)
    requires Shape(k) && Places(k) && k.procs[k.running].status != SLEEP && p < |k.procs|
    ensures InPlace(Wakeup(k, event), p)
  {
    var ws, os := Sleepers(k.procs, k.asleep, event), Others(k.procs, k.asleep, event);
    assert InPlace(k, p);
    SplitMembers(k.procs, k.asleep, event);
    WakeupEffect(k, event, p);
    InsertAllMembers(k.procs, k.ready, ws);
    InsertAllMembers(k.procs, [], os);
  }

  lemma {:induction false} WakeupPlaces(k: Kernel, event: int)
    requires Shape(k) && Places(k) && k.procs[k.running].status != SLEEP
    ensures Places(Wakeup(k, event))
    ensures forall p: nat :: p < |k.procs| ==>
              Wakeup(k, event).procs[p] ==
              if k.procs[p].status == SLEEP && k.procs[p].event == event
              then k.procs[p].(status := READY) else k.procs[p]
  {
    WakeupNoDup(k, event);
    forall p: nat | p < |k.procs|
      ensures InPlace(Wakeup(k, event), p)
      ensures Wakeup(k, event).procs[p] ==
              if k.procs[p].status == SLEEP && k.procs[p].event == event
              then k.procs[p].(status := READY) else k.procs[p]
    {
      WakeupInPlace(k, event, p);
      WakeupEffect(k, event, p);
    }
  }

  /** Woken PROCs change no priority, so a queue in order stays in order. */
  lemma {:induction false} SortedKept(ps: seq<Pcb>, ps': seq<Pcb>, q: seq<nat>)
    requires InRange(q, |ps|) && Sorted(ps, q) && SamePriority(ps, ps')
    ensures Sorted(ps', q)
  {
    forall i: nat, j: nat | i < j < |q| ensures NotBelow(ps', q, i, j) { assert NotBelow(ps, q, i, j); }
  }

  lemma {:induction false} QueuesSorted(k: Kernel, ps: seq<Pcb>)
    requires Shape(k) && Priorities(k) && SamePriority(k.procs, ps)
    ensures |ps| == |k.procs| && Sorted(ps, k.ready) && Sorted(ps, k.asleep) && Sorted(ps, k.free)
  {
    SortedKept(k.procs, ps, k.ready);
    SortedKept(k.procs, ps, k.asleep);
    SortedKept(k.procs, ps, k.free);
  }

  lemma {:induction false} WakeupPriorities(k: Kernel, event: int)
    requires Shape(k) && Places(k) && Priorities(k) && k.procs[k.running].status != SLEEP
    ensures Priorities(Wakeup(k, event))
  {
    var m := Wakeup(k, event);
    var ws, os := Sleepers(k.procs, k.asleep, event), Others(k.procs, k.asleep, event);
    WakeupPlaces(k, event);
    InsertAllMembers(k.procs, k.ready, ws);
    InsertAllMembers(k.procs, [], os);
    assert SamePriority(k.procs, m.procs);
    QueuesSorted(k, m.procs);
    SortedKept(k.procs, m.procs, m.ready);
    SortedKept(k.procs, m.procs, m.asleep);
  }

  lemma {:induction false} WakeupKeeps(k: Kernel, event: int)
    requires Shape(k) && Places(k) && Priorities(k) && Immortals(k) && Family(k.procs)
    requires k.procs[k.running].status != SLEEP
    requires forall p: nat :: p < |k.procs| ==> WakesOrWaits(k, event, p)
    ensures Core(Wakeup(k, event))
  {
    WakeupPlaces(k, event);
    WakeupPriorities(k, event);
    WakeupWaiting(k, Wakeup(k, event), event);
    FamilyKept(k.procs, Wakeup(k, event).procs);
  }

  lemma {:induction false} WakeupWaiting(k: Kernel, m: Kernel, event: int)
    requires |m.procs| == |k.procs| && m.table == k.table
    requires forall p: nat :: p < |k.procs| ==> WakesOrWaits(k, event, p)
    requires forall p: nat :: p < |k.procs| ==>
              m.procs[p] == if k.procs[p].status == SLEEP && k.procs[p].event == event
                            then k.procs[p].(status := READY) else k.procs[p]
    ensures Waiting(m)
  {
    forall p: nat | p < |k.procs| ensures WaitsWell(m, p) {
      assert WakesOrWaits(k, event, p);
    }
  }

  // ---------------------------------------------------------------- do_jesus()

  lemma {:induction false} ZombiesNoDup(ps: seq<Pcb>, i: nat)
    requires i <= |ps|
    ensures NoDup(Zombies(ps, i))
    decreases |ps| - i
  {
    if i < |ps| {
      ZombiesNoDup(ps, i + 1);
      if ps[i].status == ZOMBIE { ConcatNoDup([i], Zombies(ps, i + 1)); }
      else { assert Zombies(ps, i) == Zombies(ps, i + 1); }
    }
  }

  lemma {:induction false} RaiseQueues(k: Kernel)
    requires Inv(k)
    ensures Places(Raise(k)) && Sorted(k.procs, Raise(k).ready)
  {
    var m := Raise(k);
    var zs := Zombies(k.procs, 1);
    ZombiesNoDup(k.procs, 1);
    forall x | x in zs ensures x !in k.ready { assert InPlace(k, x); }
    InsertAllMembers(k.procs, k.ready, zs);
    forall p: nat | p < |k.procs| ensures InPlace(m, p) { assert InPlace(k, p); }
  }

  lemma {:induction false} RaiseKeeps(k: Kernel)
    requires Inv(k)
    ensures Inv(Raise(k))
  {
    var m := Raise(k);
    RaiseQueues(k);
    assert InPlace(k, k.running);
    assert SamePriority(k.procs, m.procs);
    QueuesSorted(k, m.procs);
    SortedKept(k.procs, m.procs, m.ready);
    SortedKept(k.procs, m.procs, m.asleep);
    FamilyKept(k.procs, m.procs);
    forall p: nat | p < |k.procs| ensures WaitsWell(m, p) { assert WaitsWell(k, p); }
  }

  // ---------------------------------------------------------------- kfork()

  /** A FREE PROC is nobody's child and has no children. */
  lemma {:induction false} FreeIsAlone(k: Kernel, p: nat)
    requires Core(k) && p < |k.procs| && k.procs[p].status == FREE
    ensures k.procs[p].kids == []
    ensures forall i: nat :: i < |k.procs| ==> p !in k.procs[i].kids
  {
    if k.procs[p].kids != [] {
      var c := k.procs[p].kids[0];
      var _ := IsChild(k.procs, p, 0);
      var _ := HasParent(k.procs, c);
      assert false;
    }
    forall i: nat | i < |k.procs| ensures p !in k.procs[i].kids {
      KidsAreChildren(k.procs, i, p);
    }
  }

  lemma {:induction false} KidsAreChildren(ps: seq<Pcb>, i: nat, c: nat)
    requires Family(ps) && i < |ps|
    ensures c in ps[i].kids ==> 1 <= c < |ps| && ps[c].status != FREE && ps[c].parent == i
  {
    if c in ps[i].kids {
      var j :| 0 <= j < |ps[i].kids| && ps[i].kids[j] == c;
      assert IsChild(ps, i, j);
    }
  }

  lemma {:induction false} ForkFamily(k: Kernel)
    requires Inv(k) && k.free != []
    ensures Family(Fork(k).procs)
  {
    var p, r := k.free[0], k.running;
    var ps, ps' := k.procs, Fork(k).procs;
    assert InPlace(k, p);
    FreeIsAlone(k, p);
    assert ps'[r].kids == ps[r].kids + [p];
    assert ps'[r].kids[|ps[r].kids|] == p;
    forall c: nat | 1 <= c < |ps'| && ps'[c].status != FREE ensures HasParent(ps', c) {
      if c != p { assert HasParent(ps, c); }
    }
    forall i: nat, j: nat | i < |ps'| && j < |ps'[i].kids| ensures IsChild(ps', i, j) {
      if i != p && j < |ps[i].kids| { assert IsChild(ps, i, j); }
    }
    forall i: nat | i < |ps'| ensures NoDup(ps'[i].kids) {
      if i == r { ConcatNoDup(ps[r].kids, [p]); } else { assert NoDup(ps[i].kids); }
    }
  }

  lemma {:induction false} ForkPlaces(k: Kernel)
    requires Inv(k) && k.free != []
    ensures Places(Fork(k))
  {
    var p, m := k.free[0], Fork(k);
    assert InPlace(k, p);
    InsertMembers(m.procs, k.ready, p);
    TailMembers(k.free, p);
    forall x: nat | x < |k.procs| ensures InPlace(m, x) {
      assert InPlace(k, x);
      TailMembers(k.free, x);
    }
  }

  lemma {:induction false} ForkPriorities(k: Kernel)
    requires Inv(k) && k.free != []
    ensures Priorities(Fork(k))
  {
    var p, m := k.free[0], Fork(k);
    assert InPlace(k, p) && InPlace(k, 0);
    TailMembers(k.free, p);
    SortedTail(k.procs, k.free);
    PriorityKept(k, m.procs, k.ready, p);
    PriorityKept(k, m.procs, k.asleep, p);
    PriorityKept(k, m.procs, k.free[1..], p);
    var _ := InsertIsStable(m.procs, k.ready, p);
  }

  /** Only p changes priority, so a sorted list without p stays sorted. */
  lemma {:induction false} PriorityKept(k: Kernel, ps: seq<Pcb>, q: seq<nat>, p: nat)
    requires InRange(q, |k.procs|) && |ps| == |k.procs| && p !in q
    requires forall i :: 0 <= i < |ps| && i != p ==> ps[i].priority == k.procs[i].priority
    requires Sorted(k.procs, q)
    ensures Sorted(ps, q)
  {
    forall i: nat, j: nat | i < j < |q| ensures NotBelow(ps, q, i, j) {
      assert q[i] in q && q[j] in q && NotBelow(k.procs, q, i, j);
    }
  }

  lemma {:induction false} ForkWaiting(k: Kernel)
    requires Inv(k) && k.free != []
    ensures Waiting(Fork(k))
  {
    var p, m := k.free[0], Fork(k);
    assert InPlace(k, p);
    FreeIsAlone(k, p);
    forall x: nat | x < |k.procs| ensures WaitsWell(m, x) { assert WaitsWell(k, x); }
  }

  lemma {:induction false} ForkKeeps(k: Kernel)
    requires Inv(k)
    ensures Inv(Fork(k))
  {
    if k.free != [] {
      assert InPlace(k, k.free[0]);
      ForkPlaces(k);
      ForkPriorities(k);
      ForkFamily(k);
      ForkWaiting(k);
    }
  }

  // ---------------------------------------------------------------- kexit()

  lemma {:induction false} DieFamily(k: Kernel, code: int)
    requires Inv(k) && k.running > 1
    ensures Family(Die(k.procs, k.running, code))
  {
    var r := k.running;
    var ps, ps' := k.procs, Die(k.procs, r, code);
    forall i: nat, c: nat | i < |ps| && c in ps[i].kids
      ensures 1 <= c < |ps| && ps[c].status != FREE && ps[c].parent == i
    {
      KidsAreChildren(ps, i, c);
    }
    assert 1 !in ps[r].kids;
    forall c: nat | 1 <= c < |ps'| && ps'[c].status != FREE ensures HasParent(ps', c) {
      assert HasParent(ps, c);
    }
    forall i: nat, j: nat | i < |ps'| && j < |ps'[i].kids| ensures IsChild(ps', i, j) {
      var c := ps'[i].kids[j];
      assert c in ps[i].kids || (i == 1 && c in ps[r].kids);
    }
    forall i: nat | i < |ps'| ensures NoDup(ps'[i].kids) {
      assert NoDup(ps[i].kids) && NoDup(ps[r].kids);
      if i == 1 { ConcatNoDup(ps[1].kids, ps[r].kids); }
    }
  }

  /** After the exit of r only a parent of r that sleeps in kwait() is not waiting well. */
  lemma {:induction false} DieWaiting(k: Kernel, code: int, p: nat)
    requires Inv(k) && k.running > 1 && k.procs[k.running].point == AtPrompt && p < |k.procs|
    ensures WakesOrWaits(k.(procs := Die(k.procs, k.running, code)), ParentEvent(k), p)
  {
    var r := k.running;
    var m := k.(procs := Die(k.procs, r, code));
    assert WaitsWell(k, p) && HasParent(k.procs, r);
    var pcb := k.procs[p];
    if p != r && p != 1 && pcb.point == InKwait && pcb.status == SLEEP && k.procs[r].parent != p {
      forall c: nat | c in m.procs[p].kids && c < |m.procs| ensures m.procs[c].status != ZOMBIE {
        KidsAreChildren(k.procs, p, c);
      }
    }
  }

  lemma {:induction false} DiePlaces(k: Kernel, code: int)
    requires Inv(k) && k.running > 1
    ensures Places(k.(procs := Die(k.procs, k.running, code)))
  {
    var m := k.(procs := Die(k.procs, k.running, code));
    forall p: nat | p < |k.procs| ensures InPlace(m, p) { assert InPlace(k, p); }
  }

  lemma {:induction false} BuryKeeps(k: Kernel, code: int)
    requires Inv(k) && k.running > 1 && k.procs[k.running].point == AtPrompt
    ensures Core(Bury(k, code))
  {
    var m := k.(procs := Die(k.procs, k.running, code));
    DieFamily(k, code);
    DiePlaces(k, code);
    assert SamePriority(k.procs, m.procs);
    QueuesSorted(k, m.procs);
    forall p: nat | p < |k.procs| ensures WakesOrWaits(m, ParentEvent(k), p) { DieWaiting(k, code, p); }
    WakeupKeeps(m, ParentEvent(k));
  }

  // ---------------------------------------------------------------- kwait()

  lemma {:induction false} CollectFamily(k: Kernel)
    requires Inv(k) && HasZombie(k)
    ensures Family(Collect(k).procs)
  {
    var r, z := k.running, Dead(k);
    var ps, ps' := k.procs, Collect(k).procs;
    var at := ZombieAt(ps, ps[r].kids);
    assert IsChild(ps, r, at);
    forall c: nat | 1 <= c < |ps'| && ps'[c].status != FREE ensures HasParent(ps', c) {
      assert HasParent(ps, c);
      RemoveAt(ps[r].kids, at, c);
    }
    forall i: nat, j: nat | i < |ps'| && j < |ps'[i].kids| ensures IsChild(ps', i, j) {
      var c := ps'[i].kids[j];
      assert c in ps'[i].kids;
      if i == r { RemoveAt(ps[r].kids, at, c); }
      var j' :| 0 <= j' < |ps[i].kids| && ps[i].kids[j'] == c;
      assert IsChild(ps, i, j');
    }
    forall i: nat | i < |ps'| ensures NoDup(ps'[i].kids) {
      RemoveAt(ps[r].kids, at, 0);
    }
  }

  lemma {:induction false} CollectQueues(k: Kernel)
    requires Inv(k) && HasZombie(k)
    ensures Places(Collect(k)) && Priorities(Collect(k))
  {
    var z, m := Dead(k), Collect(k);
    assert InPlace(k, z);
    InsertMembers(m.procs, k.free, z);
    assert SamePriority(k.procs, m.procs);
    QueuesSorted(k, m.procs);
    var _ := InsertIsStable(m.procs, k.free, z);
    forall x: nat | x < |k.procs| ensures InPlace(m, x) { assert InPlace(k, x); }
  }

  lemma {:induction false} CollectWaiting(k: Kernel)
    requires Inv(k) && HasZombie(k)
    ensures Waiting(Collect(k))
  {
    var m := Collect(k);
    forall x: nat | x < |k.procs| ensures WaitsWell(m, x) { assert WaitsWell(k, x); }
  }

  lemma {:induction false} CollectKeeps(k: Kernel)
    requires Inv(k) && HasZombie(k)
    ensures Inv(Collect(k))
  {
    CollectQueues(k);
    CollectFamily(k);
    CollectWaiting(k);
  }

  /** kwait() without a ZOMBIE child: the caller enters the loop and sleeps. */
  lemma {:induction false} BlockKeeps(k: Kernel)
    requires Inv(k) && k.running != 0 && k.procs[k.running].kids != [] && !HasZombie(k)
    ensures Core(Doze(SetPoint(k, InKwait), Addr(k, k.running)))
  {
    var m := SetPoint(k, InKwait);
    PointKeeps(k, InKwait);
    assert Inv(m);
    DozeKeeps(m, Addr(k, k.running));
  }

  lemma {:induction false} PointKeeps(k: Kernel, at: Point)
    requires Inv(k) && k.running != 0 && (at == InKwait ==> k.procs[k.running].kids != [])
    ensures Inv(SetPoint(k, at))
  {
    var m := SetPoint(k, at);
    QueuesSorted(k, m.procs);
    forall p: nat | p < |k.procs| ensures InPlace(m, p) { assert InPlace(k, p); }
    FamilyKept(k.procs, m.procs);
    forall p: nat | p < |k.procs| ensures WaitsWell(m, p) { assert WaitsWell(k, p); }
  }
}
