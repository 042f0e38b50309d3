/** Scheduling in the MTX kernel is round robin among user PROCs, with P0 as idle PROC. */
module MtxScheduling {
  import opened MtxModel
  import opened MtxQueues
  import opened MtxInvariant
  import opened MtxRuns

  lemma {:induction false} InsertAllPrefix(ps: seq<Pcb>, q: seq<nat>, ws: seq<nat>, n: nat)
    requires InRange(q, |ps|) && InRange(ws, |ps|) && n <= |q|
    requires forall j, w :: 0 <= j < n && 0 <= w < |ws| ==> ps[q[j]].priority >= ps[ws[w]].priority
    ensures InsertAll(ps, q, ws)[..n] == q[..n]
    decreases |ws|
  {
    if ws != [] {
      var i := Pos(ps, q, ws[0]);
      assert n <= i;
      var q' := Insert(ps, q, ws[0]);
      assert q'[..n] == q[..n];
      forall j, w | 0 <= j < n && 0 <= w < |ws[1..]| ensures ps[q'[j]].priority >= ps[ws[1..][w]].priority {
        assert q'[j] == q'[..n][j] && q[..n][j] == q[j] && ws[1..][w] == ws[w + 1];
      }
      InsertAllPrefix(ps, q', ws[1..], n);
    }
  }

  /** The ready PROCs up to a user PROC have priority 1. */
  lemma {:induction false} UserPrefix(k: Kernel, i: nat)
    requires Core(k) && i < |k.ready| && k.ready[i] != 0
    ensures forall j :: 0 <= j <= i ==> k.procs[k.ready[j]].priority == 1
  {
    assert InPlace(k, k.ready[i]);
    forall j | 0 <= j <= i ensures k.procs[k.ready[j]].priority == 1 {
      assert InPlace(k, k.ready[j]);
      if j < i { assert NotBelow(k.procs, k.ready, j, i); }
    }
  }

  lemma {:induction false} PriorityAtMostOne(k: Kernel, p: nat)
    requires Core(k) && p < |k.procs| && k.procs[p].status != FREE
    ensures k.procs[p].priority <= 1
  {
  }

  lemma {:induction false} SleeperPriority(k: Kernel, m: Kernel, event: int, w: nat)
    requires Core(k) && Shape(m) && m.asleep == k.asleep && SamePriority(k.procs, m.procs)
    requires w < |Sleepers(m.procs, m.asleep, event)|
    ensures m.procs[Sleepers(m.procs, m.asleep, event)[w]].priority <= 1
  {
    var p := Sleepers(m.procs, m.asleep, event)[w];
    SplitMembers(m.procs, m.asleep, event);
    assert p in k.asleep;
    assert InPlace(k, p);
    PriorityAtMostOne(k, p);
  }

  lemma {:induction false} WakeupPrefix(k: Kernel, m: Kernel, event: int, i: nat)
    requires Core(k) && i < |k.ready| && k.ready[i] != 0
    requires Shape(m) && SamePriority(k.procs, m.procs) && m.ready == k.ready && m.asleep == k.asleep
    ensures Wakeup(m, event).ready[..i + 1] == k.ready[..i + 1]
  {
    UserPrefix(k, i);
    var ws := Sleepers(m.procs, m.asleep, event);
    hide Core;
    forall j, w | 0 <= j < i + 1 && 0 <= w < |ws| ensures m.procs[m.ready[j]].priority >= m.procs[ws[w]].priority {
      SleeperPriority(k, m, event, w);
    }
    InsertAllPrefix(m.procs, m.ready, ws, i + 1);
  }

  lemma {:induction false} RaisePrefix(k: Kernel, i: nat)
    requires Core(k) && i < |k.ready| && k.ready[i] != 0
    ensures Raise(k).ready[..i + 1] == k.ready[..i + 1]
  {
    UserPrefix(k, i);
    var zs := Zombies(k.procs, 1);
    forall w | 0 <= w < |zs| ensures k.procs[zs[w]].priority <= 1 {
      assert zs[w] in zs;
      PriorityAtMostOne(k, zs[w]);
    }
    InsertAllPrefix(k.procs, k.ready, zs, i + 1);
  }

  lemma {:induction false} ForkPrefix(k: Kernel, i: nat)
    requires Inv(k) && i < |k.ready| && k.ready[i] != 0
    ensures Fork(k).ready[..i + 1] == k.ready[..i + 1]
  {
    if k.free != [] {
      var p, m := k.free[0], Fork(k);
      assert InPlace(k, p);
      UserPrefix(k, i);
      forall j | 0 <= j <= i ensures m.procs[k.ready[j]].priority == 1 { assert InPlace(k, k.ready[j]); }
      assert i + 1 <= Pos(m.procs, k.ready, p);
    }
  }

  /** Whatever a command does before scheduler(), the ready PROCs up to a user PROC stay
      where they are. */
  lemma {:induction false} BeforeKeepsPrefix(k: Kernel, op: Op, i: nat)
    requires Inv(k) && Enabled(k, op) && i < |k.ready| && k.ready[i] != 0
    ensures i < |Before(k, op).ready| && Before(k, op).ready[..i + 1] == k.ready[..i + 1]
  {
    match op
    case DoFork => ForkPrefix(k, i);
    case DoExit(code) =>
      if k.running != 1 {
        WakeupPrefix(k, k.(procs := Die(k.procs, k.running, code)), ParentEvent(k), i);
      }
    case DoWakeup(event) => WakeupPrefix(k, k, event, i);
    case DoJesus => RaisePrefix(k, i);
    case _ =>
  }

  /** One scheduler() call brings a ready user PROC exactly one place closer to the CPU. */
  lemma {:induction false} ScheduleAdvances(m: Kernel, i: nat)
    requires Core(m) && i < |m.ready| && m.ready[i] != 0
    ensures ReadyWithRunning(m) != []
    ensures i == 0 ==> Schedule(m).running == m.ready[0]
    ensures i > 0 ==> i - 1 < |Schedule(m).ready| && Schedule(m).ready[i - 1] == m.ready[i]
  {
    UserPrefix(m, i);
    if m.procs[m.running].status == READY { PriorityAtMostOne(m, m.running); }
  }

  /** The user PROC at place i of the ready queue: a command that does not switch leaves it
      there, a command that switches moves it to place i - 1, or runs it if i is 0. */
  lemma {:induction false} StepAdvances(k: Kernel, op: Op, i: nat)
    requires Inv(k) && Enabled(k, op) && i < |k.ready| && k.ready[i] != 0
    ensures !Switches(k, op) ==> i < |Step(k, op).ready| && Step(k, op).ready[i] == k.ready[i]
    ensures Switches(k, op) && i == 0 ==> Step(k, op).running == k.ready[0]
    ensures Switches(k, op) && i > 0 ==>
              i - 1 < |Step(k, op).ready| && Step(k, op).ready[i - 1] == k.ready[i]
  {
    var m := Before(k, op);
    BeforeKeeps(k, op);
    BeforeKeepsPrefix(k, op, i);
    assert m.ready[..i + 1][i] == k.ready[..i + 1][i];
    if Switches(k, op) { ScheduleAdvances(m, i); }
  }

  /** The number of scheduler() calls in a run. */
  function Calls(k: Kernel, ops: seq<Op>): nat
    requires Shape(k)
    decreases |ops|
  {
    if ops == [] then 0
    else (if Switches(k, ops[0]) then 1 else 0) + Calls(Step(k, ops[0]), ops[1..])
  }

  predicate IsAt(q: seq<nat>, j: int, p: nat) {
    0 <= j < |q| && q[j] == p
  }

  lemma {:induction false} WaitPlace(k: Kernel, ops: seq<Op>, i: nat, p: nat)
    requires Shape(k) && Inv(k) && ValidRun(k, ops) && IsAt(k.ready, i, p) && p != 0
    requires Calls(k, ops) <= i
    ensures IsAt(Exec(k, ops).ready, i - Calls(k, ops), p)
    decreases |ops|
  {
    hide *;
    if ops == [] {
      RunEnd(k, ops);
    } else {
      RunStep(k, ops);
      WaitStep(k, ops[0], i, p);
      var k', rest := Step(k, ops[0]), ops[1..];
      if Switches(k, ops[0]) { WaitPlace(k', rest, i - 1, p); } else { WaitPlace(k', rest, i, p); }
    }
  }

  lemma {:induction false} RunEnd(k: Kernel, ops: seq<Op>)
    requires Shape(k) && ops == []
    ensures Exec(k, ops) == k && Calls(k, ops) == 0
  {
  }

  lemma {:induction false} RunStep(k: Kernel, ops: seq<Op>)
    requires Shape(k) && ValidRun(k, ops) && ops != []
    ensures Enabled(k, ops[0]) && Shape(Step(k, ops[0])) && ValidRun(Step(k, ops[0]), ops[1..])
    ensures Exec(k, ops) == Exec(Step(k, ops[0]), ops[1..])
    ensures Calls(k, ops) == (if Switches(k, ops[0]) then 1 else 0) + Calls(Step(k, ops[0]), ops[1..])
  {
    hide Shape, Step, Enabled, Switches;
  }

  lemma {:induction false} WaitStep(k: Kernel, op: Op, i: nat, p: nat)
    requires Shape(k) && Inv(k) && Enabled(k, op) && IsAt(k.ready, i, p) && p != 0 && (Switches(k, op) ==> i > 0)
    ensures Inv(Step(k, op))
    ensures IsAt(Step(k, op).ready, if Switches(k, op) then i - 1 else i, p)
  {
    hide Inv, Shape, Step, Enabled, Switches;
    StepAdvances(k, op, i);
    StepKeeps(k, op);
  }

  lemma {:induction false} FirstRunsNext(k: Kernel, op: Op, p: nat)
    requires Shape(k) && Inv(k) && Enabled(k, op) && Switches(k, op) && IsAt(k.ready, 0, p) && p != 0
    ensures Step(k, op).running == p
  {
    hide Inv, Shape, Step, Enabled, Switches;
    StepAdvances(k, op, 0);
  }

  /** Bounded waiting: whatever commands come, after n scheduler() calls the user PROC that
      was at place i >= n is at place i - n, and the call after the i-th runs it. */
  lemma {:induction false} BoundedWait(k: Kernel, ops: seq<Op>, i: nat)
    requires Shape(k) && Inv(k) && ValidRun(k, ops) && i < |k.ready| && k.ready[i] != 0
    requires Calls(k, ops) <= i
    ensures IsAt(Exec(k, ops).ready, i - Calls(k, ops), k.ready[i])
    ensures forall op :: Calls(k, ops) == i && Enabled(Exec(k, ops), op) && Switches(Exec(k, ops), op)
              ==> Step(Exec(k, ops), op).running == k.ready[i]
  {
    hide Inv, Shape, Step, Enabled, Switches, ValidRun, Exec, Calls;
    WaitPlace(k, ops, i, k.ready[i]);
    ExecKeeps(k, ops);
    forall op | Calls(k, ops) == i && Enabled(Exec(k, ops), op) && Switches(Exec(k, ops), op)
      ensures Step(Exec(k, ops), op).running == k.ready[i]
    {
      FirstRunsNext(Exec(k, ops), op, k.ready[i]);
    }
  }

  lemma {:induction false} FirstIsHighest(m: Kernel)
    requires Core(m) && ReadyWithRunning(m) != []
    ensures forall j :: 0 <= j < |Schedule(m).ready| ==>
              m.procs[Schedule(m).ready[j]].priority <= m.procs[Schedule(m).running].priority
  {
    if m.procs[m.running].status == READY { var _ := InsertIsStable(m.procs, m.ready, m.running); }
    SortedTail(m.procs, ReadyWithRunning(m));
  }

  /** With P0 running at the highest priority in the queue, no other PROC is READY. */
  lemma {:induction false} NoneLower(k: Kernel, p: nat)
    requires Inv(k) && k.running == 0 && p < |k.procs|
    requires forall j :: 0 <= j < |k.ready| ==> k.procs[k.ready[j]].priority <= k.procs[0].priority
    ensures p !in k.ready && (k.procs[p].status == READY ==> p == 0)
  {
    assert InPlace(k, p);
  }

  /** P0 is picked only when no user PROC is ready. */
  lemma {:induction false} P0OnlyWhenIdle(k: Kernel, op: Op)
    requires Inv(k) && Enabled(k, op) && Switches(k, op) && Step(k, op).running == 0
    ensures Step(k, op).ready == []
    ensures forall p: nat :: 1 <= p < |k.procs| ==> Step(k, op).procs[p].status != READY
  {
    var m, k' := Before(k, op), Step(k, op);
    BeforeKeeps(k, op);
    SchedulerFindsProc(k, op);
    StepKeeps(k, op);
    FirstIsHighest(m);
    if k'.ready != [] { NoneLower(k', k'.ready[0]); }
    forall p: nat | 1 <= p < |k.procs| ensures k'.procs[p].status != READY {
      NoneLower(k', p);
    }
  }
}
