/** Theorems about every run of the MTX kernel from boot. */
module MtxRuns {
  import opened MtxModel
  import opened MtxQueues
  import opened MtxInvariant

  /** A command sequence in which each command is enabled when it comes. */
  predicate ValidRun(k: Kernel, ops: seq<Op>)
    requires Shape(k)
    decreases |ops|
  {
    ops == [] || (Enabled(k, ops[0]) && ValidRun(Step(k, ops[0]), ops[1..]))
  }

  function Exec(k: Kernel, ops: seq<Op>): (k': Kernel)
    requires Shape(k)
    ensures Shape(k')
    decreases |ops|
  {
    if ops == [] then k else Exec(Step(k, ops[0]), ops[1..])
  }

  // ---------------------------------------------------------------- the invariant

  lemma {:induction false} BeforeKeeps(k: Kernel, op: Op)
    requires Inv(k) && Enabled(k, op)
    ensures Core(Before(k, op))
    ensures !Switches(k, op) ==> Inv(Before(k, op))
  {
    match op
    case DoFork => ForkKeeps(k);
    case DoSwitch =>
    case DoExit(code) => if k.running != 1 { BuryKeeps(k, code); }
    case DoSleep(event) => DozeKeeps(k, event);
    case DoWakeup(event) => WakeupKeeps(k, event); WakeupEffect(k, event, k.running);
    case DoJesus => RaiseKeeps(k);
    case DoWait =>
      if k.procs[k.running].kids == [] { PointKeeps(k, AtPrompt); }
      else if HasZombie(k) { CollectKeeps(k); }
      else { BlockKeeps(k); }
  }

  /** scheduler() never dequeues from an empty ready queue: P0 runs or is ready. */
  lemma {:induction false} SchedulerFindsProc(k: Kernel, op: Op)
    requires Inv(k) && Enabled(k, op) && Switches(k, op)
    ensures ReadyWithRunning(Before(k, op)) != []
    ensures Step(k, op) == Schedule(Before(k, op))
    ensures 0 in Step(k, op).ready || Step(k, op).running == 0
  {
    var m := Before(k, op);
    BeforeKeeps(k, op);
    ReadyEndsInP0(m);
    if ReadyWithRunning(m) != [] {
      ScheduleKeeps(m);
      assert InPlace(Step(k, op), 0);
    }
  }

  lemma {:induction false} StepKeeps(k: Kernel, op: Op)
    requires Inv(k) && Enabled(k, op)
    ensures Inv(Step(k, op))
  {
    BeforeKeeps(k, op);
    if Switches(k, op) {
      SchedulerFindsProc(k, op);
      ScheduleKeeps(Before(k, op));
    }
  }

  lemma {:induction false} BootQueues(table: int, n: nat)
    requires 2 <= n
    ensures Places(Boot(table, n)) && Priorities(Boot(table, n))
  {
    var i, k := Initial(table, n), Boot(table, n);
    assert i.free[0] == 1 && k.ready == [1];
    forall p: nat | p < n ensures InPlace(k, p) {
      if 2 <= p { assert k.free[p - 2] == p; }
    }
  }

  lemma {:induction false} BootHolds(table: int, n: nat)
    requires 2 <= n
    ensures Inv(Boot(table, n))
  {
    var i, k := Initial(table, n), Boot(table, n);
    BootQueues(table, n);
    assert i.free[0] == 1;
    assert k.procs[0].kids == [1];
    forall c: nat | 1 <= c < n && k.procs[c].status != FREE ensures HasParent(k.procs, c) {
      assert c == 1;
    }
    forall i: nat, j: nat | i < n && j < |k.procs[i].kids| ensures IsChild(k.procs, i, j) {
    }
    forall p: nat | p < n ensures WaitsWell(k, p) {
    }
  }

  lemma {:induction false} ExecKeeps(k: Kernel, ops: seq<Op>)
    requires Inv(k) && ValidRun(k, ops)
    ensures Inv(Exec(k, ops))
    decreases |ops|
  {
    if ops != [] {
      StepKeeps(k, ops[0]);
      ExecKeeps(Step(k, ops[0]), ops[1..]);
    }
  }

  /** The invariant holds in every state that the kernel can reach, for every NPROC. */
  lemma {:induction false} EveryReachableState(table: int, n: nat, ops: seq<Op>)
    requires 2 <= n && ValidRun(Boot(table, n), ops)
    ensures Inv(Exec(Boot(table, n), ops))
  {
    BootHolds(table, n);
    ExecKeeps(Boot(table, n), ops);
  }

  // ---------------------------------------------------------------- conservation

  function WithStatus(k: Kernel, s: Status): set<nat> {
    set p: nat | p < |k.procs| && k.procs[p].status == s
  }

  lemma {:induction false} PlacesCover(k: Kernel)
    requires Inv(k)
    ensures Members(k.free) + Members(k.ready) + {k.running} + Members(k.asleep) + WithStatus(k, ZOMBIE)
            == Members(Fresh(|k.procs|))
  {
    forall p: nat
      ensures p in Members(Fresh(|k.procs|)) <==>
              p in Members(k.free) + Members(k.ready) + {k.running} + Members(k.asleep) + WithStatus(k, ZOMBIE)
    {
      if p < |k.procs| { assert InPlace(k, p) && Fresh(|k.procs|)[p] == p; }
    }
  }

  lemma {:induction false} PlacesDisjoint(k: Kernel)
    requires Inv(k)
    ensures Members(k.free) !! Members(k.ready) + {k.running} + Members(k.asleep) + WithStatus(k, ZOMBIE)
    ensures Members(k.ready) !! {k.running} + Members(k.asleep) + WithStatus(k, ZOMBIE)
    ensures {k.running} !! Members(k.asleep) + WithStatus(k, ZOMBIE)
    ensures Members(k.asleep) !! WithStatus(k, ZOMBIE)
  {
    assert InPlace(k, k.running);
    forall p | p in Members(k.free) ensures p !in Members(k.ready) + {k.running} + Members(k.asleep) + WithStatus(k, ZOMBIE) {
      assert InPlace(k, p);
    }
    forall p | p in Members(k.ready) ensures p !in {k.running} + Members(k.asleep) + WithStatus(k, ZOMBIE) {
      assert InPlace(k, p);
    }
    forall p | p in Members(k.asleep) ensures p !in WithStatus(k, ZOMBIE) {
      assert InPlace(k, p);
    }
  }

  /** Nothing is lost: the queues, the running PROC and the ZOMBIEs make up the table. */
  lemma {:induction false} CountsSumToTable(k: Kernel)
    requires Inv(k)
    ensures |k.free| + |k.ready| + 1 + |k.asleep| + |WithStatus(k, ZOMBIE)| == |k.procs|
  {
    NoDupCount(k.free); NoDupCount(k.ready); NoDupCount(k.asleep); NoDupCount(Fresh(|k.procs|));
    PlacesCover(k);
    PlacesDisjoint(k);
    DisjointSum(Members(k.free), Members(k.ready), {k.running}, Members(k.asleep), WithStatus(k, ZOMBIE));
  }

  lemma {:induction false} DisjointSum(a: set<nat>, b: set<nat>, c: set<nat>, d: set<nat>, e: set<nat>)
    requires a !! b + c + d + e && b !! c + d + e && c !! d + e && d !! e
    ensures |a + b + c + d + e| == |a| + |b| + |c| + |d| + |e|
  {
    assert a + b + c + d + e == a + (b + (c + (d + e)));
    assert |d + e| == |d| + |e| && |c + (d + e)| == |c| + |d + e|;
  }

  /** kfork() fails exactly when every PROC is in use; otherwise it returns a PROC that was
      FREE, now the caller's youngest child. */
  lemma {:induction false} ForkFailsIffFull(k: Kernel)
    requires Inv(k)
    ensures ForkResult(k) == -1 <==> forall p: nat :: p < |k.procs| ==> k.procs[p].status != FREE
    ensures ForkResult(k) == -1 ==> Fork(k) == k
    ensures ForkResult(k) != -1 ==>
              var p := ForkResult(k);
              && 0 <= p < |k.procs| && k.procs[p].status == FREE
              && Fork(k).procs[p].status == READY
              && Fork(k).procs[k.running].kids == k.procs[k.running].kids + [p]
  {
    forall p: nat | p < |k.procs| ensures k.procs[p].status == FREE <==> p in k.free {
      assert InPlace(k, p);
    }
    if k.free != [] {
      assert InPlace(k, k.free[0]);
      FreeIsAlone(k, k.free[0]);
    }
  }

  // ---------------------------------------------------------------- the family tree

  /** c reaches P1 by following at most d parent links, without passing P0. */
  predicate ReachesP1(ps: seq<Pcb>, c: nat, d: nat)
    requires c < |ps|
    decreases d
  {
    c == 1 || (d > 0 && c != 0 && 0 <= ps[c].parent < |ps| && ReachesP1(ps, ps[c].parent, d - 1))
  }

  /** A rank that grows from parent to child, with P1 at the bottom. */
  predicate Ranked(ps: seq<Pcb>, rank: seq<nat>) {
    && |rank| == |ps| && 2 <= |ps| && rank[1] == 0
    && forall c :: 2 <= c < |ps| && ps[c].status != FREE ==>
         1 <= ps[c].parent < |ps| && rank[c] > rank[ps[c].parent]
  }

  lemma {:induction false} RankKept(ps: seq<Pcb>, ps': seq<Pcb>, rank: seq<nat>)
    requires Ranked(ps, rank) && |ps'| == |ps|
    requires forall c :: 2 <= c < |ps| && ps'[c].status != FREE ==>
               ps[c].status != FREE && (ps'[c].parent == ps[c].parent || (ps'[c].parent == 1 && rank[c] > 0))
    ensures Ranked(ps', rank)
  {
  }

  lemma {:induction false} RankFork(k: Kernel, rank: seq<nat>) returns (rank': seq<nat>)
    requires Inv(k) && Enabled(k, DoFork) && Ranked(k.procs, rank)
    ensures Ranked(Fork(k).procs, rank')
  {
    rank' := rank;
    if k.free != [] {
      var p := k.free[0];
      rank' := rank[p := rank[k.running] + 1];
      assert InPlace(k, p) && InPlace(k, 1);
      forall c: nat | 2 <= c < |k.procs| && k.procs[c].status != FREE ensures k.procs[c].parent != p {
        assert HasParent(k.procs, c);
      }
    }
  }

  lemma {:induction false} RankDie(k: Kernel, code: int, rank: seq<nat>)
    requires Inv(k) && k.running > 1 && Ranked(k.procs, rank)
    ensures Ranked(Die(k.procs, k.running, code), rank)
  {
    RankKept(k.procs, Die(k.procs, k.running, code), rank);
  }

  lemma {:induction false} RankWakeup(k: Kernel, event: int, rank: seq<nat>)
    requires Shape(k) && Places(k) && k.procs[k.running].status != SLEEP && Ranked(k.procs, rank)
    ensures Ranked(Wakeup(k, event).procs, rank)
  {
    WakeupPlaces(k, event);
    RankKept(k.procs, Wakeup(k, event).procs, rank);
  }

  lemma {:induction false} RankBury(k: Kernel, code: int, rank: seq<nat>)
    requires Inv(k) && k.running > 1 && Ranked(k.procs, rank)
    ensures Ranked(Bury(k, code).procs, rank)
  {
    RankDie(k, code, rank);
    DiePlaces(k, code);
    RankWakeup(k.(procs := Die(k.procs, k.running, code)), ParentEvent(k), rank);
  }

  lemma {:induction false} StepProcs(k: Kernel, op: Op)
    requires Shape(k)
    ensures Step(k, op).procs == Before(k, op).procs
  {
  }

  lemma {:induction false} RankStep(k: Kernel, op: Op, rank: seq<nat>) returns (rank': seq<nat>)
    requires Inv(k) && Enabled(k, op) && Ranked(k.procs, rank)
    ensures Ranked(Step(k, op).procs, rank')
  {
    rank' := rank;
    StepProcs(k, op);
    match op
    case DoFork => rank' := RankFork(k, rank);
    case DoExit(code) =>
      if k.running != 1 { RankBury(k, code, rank); }
    case DoWakeup(event) => RankWakeup(k, event, rank);
    case _ =>
      ParentsKept(k, op);
      RankKept(k.procs, Before(k, op).procs, rank);
  }

  lemma {:induction false} ParentsKept(k: Kernel, op: Op)
    requires Shape(k) && (op.DoWait? || op.DoJesus? || op.DoSleep? || op.DoSwitch?)
    requires k.procs[k.running].status != FREE
    ensures |Before(k, op).procs| == |k.procs|
    ensures forall c :: 0 <= c < |k.procs| && Before(k, op).procs[c].status != FREE ==>
              k.procs[c].status != FREE && Before(k, op).procs[c].parent == k.procs[c].parent
  {
  }

  lemma {:induction false} RankRun(k: Kernel, ops: seq<Op>, rank: seq<nat>) returns (rank': seq<nat>)
    requires Inv(k) && ValidRun(k, ops) && Ranked(k.procs, rank)
    ensures Ranked(Exec(k, ops).procs, rank')
    decreases |ops|
  {
    rank' := rank;
    if ops != [] {
      rank' := RankStep(k, ops[0], rank);
      StepKeeps(k, ops[0]);
      rank' := RankRun(Step(k, ops[0]), ops[1..], rank');
    }
  }

  lemma {:induction false} RankGivesPath(ps: seq<Pcb>, rank: seq<nat>, c: nat)
    requires Family(ps) && Ranked(ps, rank) && 1 <= c < |ps| && ps[c].status != FREE
    ensures ReachesP1(ps, c, rank[c])
    decreases rank[c]
  {
    if c != 1 {
      var p := ps[c].parent;
      assert HasParent(ps, c);
      RankGivesPath(ps, rank, p);
      ReachesMore(ps, p, rank[p], rank[c] - 1);
    }
  }

  lemma {:induction false} ReachesMore(ps: seq<Pcb>, c: nat, d: nat, d': nat)
    requires c < |ps| && ReachesP1(ps, c, d) && d <= d'
    ensures ReachesP1(ps, c, d')
    decreases d
  {
    if c != 1 { ReachesMore(ps, ps[c].parent, d - 1, d' - 1); }
  }

  /** In every reachable state the family is one tree: P1 is the child of P0, and every other
      PROC in use reaches P1 through parents that are alive. */
  lemma {:induction false} FamilyIsATree(table: int, n: nat, ops: seq<Op>, c: nat)
    requires 2 <= n && ValidRun(Boot(table, n), ops)
    requires 1 <= c < n && c < |Exec(Boot(table, n), ops).procs|
    requires Exec(Boot(table, n), ops).procs[c].status != FREE
    ensures var ps := Exec(Boot(table, n), ops).procs;
            HasParent(ps, c) && ps[1].parent == 0 && exists d: nat :: ReachesP1(ps, c, d)
  {
    var k := Boot(table, n);
    BootHolds(table, n);
    assert Initial(table, n).free[0] == 1;
    var rank := RankRun(k, ops, seq(n, i => 0));
    ExecKeeps(k, ops);
    RankGivesPath(Exec(k, ops).procs, rank, c);
    assert HasParent(Exec(k, ops).procs, c);
  }

  // ---------------------------------------------------------------- wakeup()

  /** The ready user PROCs, in queue order. */
  function Users(k: Kernel): seq<nat> {
    if k.running == 0 || k.ready == [] then k.ready else k.ready[..|k.ready| - 1]
  }

  /** wakeup() is a stable split: the sleepers on the event join the ready queue behind the
      ready user PROCs and ahead of P0, in their old order; the others stay in order. */
  lemma {:induction false} WakeupIsStableSplit(k: Kernel, event: int)
    requires Inv(k)
    ensures var w := Wakeup(k, event);
            && k.ready == Users(k) + (if k.running == 0 then [] else [0])
            && w.ready == Users(k) + Sleepers(k.procs, k.asleep, event) + (if k.running == 0 then [] else [0])
            && w.asleep == Others(k.procs, k.asleep, event)
  {
    ReadyEndsInP0(k);
    var ws := Sleepers(k.procs, k.asleep, event);
    var us := Users(k);
    var tail := if k.running == 0 then [] else [0];
    assert k.ready == us + tail;
    forall j | 0 <= j < |us| ensures k.procs[us[j]].priority == 1 {
      if k.running != 0 { assert Differ(k.ready, j, |k.ready| - 1); }
      assert k.ready[j] == us[j] && InPlace(k, us[j]) && InPlace(k, 0);
    }
    forall j | 0 <= j < |ws| ensures k.procs[ws[j]].priority == 1 {
      SplitMembers(k.procs, k.asleep, event);
      assert ws[j] in ws && InPlace(k, ws[j]) && InPlace(k, 0);
    }
    InsertAllBlock(k.procs, us, tail, ws, 1);
    SplitSorted(k.procs, k.asleep, event);
    var os := Others(k.procs, k.asleep, event);
    assert [] + os == os;
    InsertAllSorted(k.procs, [], os);
  }
}
