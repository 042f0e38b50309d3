/** Inputs on which PreLab3/Code/t.c fails: a run after which P1 sleeps in kwait() beside a dead
    child, and one input for each of the four places of MtxAsWritten. */
module MtxFailures {
  import opened MtxModel
  import opened MtxQueues
  import opened MtxInvariant
  import opened MtxRuns
  import opened MtxExitWait
  import opened MtxTable
  import opened MtxAsWritten

  const BLANK := Pcb(FREE, 0, 0, 0, 0, NIL, [], AtPrompt)

  function Child(of: nat): Pcb {
    Pcb(READY, 1, of, 0, 0, of, [], AtPrompt)
  }

  /** main() and the commands of the run, one state for each. */
  function K0(t: int): Kernel {
    Kernel(t, [Pcb(READY, 0, 0, 0, 0, NIL, [1], AtPrompt), Child(0), BLANK, BLANK, BLANK], [2, 3, 4], [1], [], 0)
  }

  function K1(t: int): Kernel {
    K0(t).(ready := [0], running := 1)
  }

  function K2(t: int): Kernel {
    var ps := K1(t).procs;
    K1(t).(procs := [ps[0], ps[1].(kids := [2]), Child(1), BLANK, BLANK], free := [3, 4], ready := [2, 0])
  }

  function K3(t: int): Kernel {
    var ps := K2(t).procs;
    K2(t).(procs := [ps[0], ps[1].(status := SLEEP, event := t + PROC_SIZE, point := InKwait), ps[2], BLANK, BLANK],
           asleep := [1], ready := [0], running := 2)
  }

  function K4(t: int): Kernel {
    var ps := K3(t).procs;
    K3(t).(procs := [ps[0], ps[1], ps[2].(kids := [3]), Child(2), BLANK], free := [4], ready := [3, 0])
  }

  function K5(t: int): Kernel {
    var ps := K4(t).procs;
    K4(t).(procs := [ps[0], ps[1], ps[2].(status := SLEEP, event := t - 1), ps[3], BLANK],
           asleep := [1, 2], ready := [0], running := 3)
  }

  function K6(t: int): Kernel {
    var ps := K5(t).procs;
    K5(t).(procs := [ps[0], ps[1], ps[2], ps[3].(kids := [4]), Child(3)], free := [], ready := [4, 0])
  }

  function K7(t: int): Kernel {
    K6(t).(ready := [3, 0], running := 4)
  }

  function K8(t: int): Kernel {
    var ps := K7(t).procs;
    K7(t).(procs := [ps[0], ps[1], ps[2], ps[3], ps[4].(status := ZOMBIE, exitCode := 4)], ready := [0], running := 3)
  }

  /** P1 forks P2 and waits; P2 forks P3 and sleeps; P3 forks P4; P4 exits. */
  function Ops(t: int): seq<Op> {
    [DoSwitch, DoFork, DoWait, DoFork, DoSleep(t - 1), DoFork, DoSwitch, DoExit(4)]
  }

  // ---------------------------------------------------------------- single steps

  /** The queue q with p at place i. */
  function With(q: seq<nat>, p: nat, i: nat): seq<nat>
    requires i <= |q|
  {
    q[..i] + [p] + q[i..]
  }

  predicate IsPlace(ps: seq<Pcb>, q: seq<nat>, p: nat, i: nat) {
    && InRange(q, |ps|) && p < |ps| && i <= |q|
    && (forall j :: 0 <= j < i ==> ps[q[j]].priority >= ps[p].priority)
    && (i < |q| ==> ps[q[i]].priority < ps[p].priority)
  }

  lemma {:induction false} InsertAt(ps: seq<Pcb>, q: seq<nat>, p: nat, i: nat)
    requires IsPlace(ps, q, p, i)
    ensures Insert(ps, q, p) == With(q, p, i)
  {
    PosIs(ps, q, p, i);
  }

  lemma {:induction false} SwitchIs(k: Kernel, i: nat)
    requires Shape(k) && k.procs[k.running].status == READY && IsPlace(k.procs, k.ready, k.running, i)
    ensures var q := With(k.ready, k.running, i); Step(k, DoSwitch) == k.(ready := q[1..], running := q[0])
  {
    InsertAt(k.procs, k.ready, k.running, i);
  }

  lemma {:induction false} ForkIs(k: Kernel, ps: seq<Pcb>, i: nat)
    requires Shape(k) && k.free != [] && k.free[0] != k.running
    requires ps == k.procs[k.free[0] := k.procs[k.free[0]].(status := READY, priority := 1, ppid := k.running,
                                                           parent := k.running, kids := [], point := AtPrompt)]
                          [k.running := k.procs[k.running].(kids := k.procs[k.running].kids + [k.free[0]])]
    requires IsPlace(ps, k.ready, k.free[0], i)
    ensures Step(k, DoFork) == k.(procs := ps, free := k.free[1..], ready := With(k.ready, k.free[0], i))
  {
    InsertAt(ps, k.ready, k.free[0], i);
  }

  /** scheduler() after a command that left the running PROC not READY. */
  lemma {:induction false} AwayIs(k: Kernel, op: Op, m: Kernel)
    requires Shape(k) && Switches(k, op) && Before(k, op) == m && m.procs[m.running].status != READY && m.ready != []
    ensures Step(k, op) == m.(ready := m.ready[1..], running := m.ready[0])
  {
  }

  predicate Leads(k: Kernel, op: Op, k': Kernel) {
    Shape(k) && Enabled(k, op) && Step(k, op) == k'
  }

  predicate Reaches(k: Kernel, ops: seq<Op>, k': Kernel) {
    Shape(k) && ValidRun(k, ops) && Exec(k, ops) == k'
  }

  lemma {:induction false} OneMore(k: Kernel, op: Op, k1: Kernel, ops: seq<Op>, k': Kernel)
    requires Leads(k, op, k1) && Reaches(k1, ops, k')
    ensures Reaches(k, [op] + ops, k')
  {
    assert ([op] + ops)[1..] == ops;
  }

  // ---------------------------------------------------------------- the run

  lemma {:induction false} Table5(t: int)
    ensures Initial(t, 5) == Kernel(t, [BLANK.(status := READY), BLANK, BLANK, BLANK, BLANK], [1, 2, 3, 4], [], [], 0)
  {
    assert Fresh(0) == [] && Fresh(1) == [0] && Fresh(2) == [0, 1] && Fresh(3) == [0, 1, 2];
    assert Fresh(4) == [0, 1, 2, 3] && Fresh(5) == [0, 1, 2, 3, 4];
    assert Fresh(5)[1..] == [1, 2, 3, 4];
    var ps := Initial(t, 5).procs;
    assert ps[0] == BLANK.(status := READY) && ps[1] == BLANK && ps[2] == BLANK && ps[3] == BLANK && ps[4] == BLANK;
  }

  lemma {:induction false} Start(t: int)
    ensures Boot(t, 5) == K0(t)
  {
    Table5(t);
    hide Fresh, Initial;
    var k := Kernel(t, [BLANK.(status := READY), BLANK, BLANK, BLANK, BLANK], [1, 2, 3, 4], [], [], 0);
    assert [] + [1] == [1] && [1, 2, 3, 4][1..] == [2, 3, 4] && With([], 1, 0) == [1];
    ForkIs(k, K0(t).procs, 0);
    assert Boot(t, 5) == Step(k, DoFork);
  }

  lemma {:induction false} Step0(t: int)
    ensures Leads(K0(t), DoSwitch, K1(t))
  {
    SwitchIs(K0(t), 1);
    assert With([1], 0, 1) == [1, 0] && [1, 0][1..] == [0];
  }

  lemma {:induction false} Step1(t: int)
    ensures Leads(K1(t), DoFork, K2(t))
  {
    assert [] + [2] == [2] && [2, 3, 4][1..] == [3, 4] && With([0], 2, 0) == [2, 0];
    ForkIs(K1(t), K2(t).procs, 0);
  }

  lemma {:induction false} Step2(t: int)
    ensures Leads(K2(t), DoWait, K3(t))
  {
    var k, ps := K2(t), K3(t).procs;
    assert ZombieAt(k.procs, [2]) == 1 by { assert [2][1..] == []; }
    var ps1 := SetPoint(k, InKwait).procs;
    assert ps1[1 := ps1[1].(status := SLEEP, event := Addr(k, 1))] == ps;
    InsertAt(ps, [], 1, 0);
    assert With([], 1, 0) == [1] && [2, 0][1..] == [0];
    AwayIs(k, DoWait, k.(procs := ps, asleep := [1]));
  }

  lemma {:induction false} Step3(t: int)
    ensures Leads(K3(t), DoFork, K4(t))
  {
    assert [] + [3] == [3] && [3, 4][1..] == [4] && With([0], 3, 0) == [3, 0];
    ForkIs(K3(t), K4(t).procs, 0);
  }

  lemma {:induction false} Step4(t: int)
    ensures Leads(K4(t), DoSleep(t - 1), K5(t))
  {
    var k, ps := K4(t), K5(t).procs;
    assert k.procs[2 := k.procs[2].(status := SLEEP, event := t - 1)] == ps;
    InsertAt(ps, [1], 2, 1);
    assert With([1], 2, 1) == [1, 2] && [3, 0][1..] == [0];
    AwayIs(k, DoSleep(t - 1), k.(procs := ps, asleep := [1, 2]));
  }

  lemma {:induction false} Step5(t: int)
    ensures Leads(K5(t), DoFork, K6(t))
  {
    assert [] + [4] == [4] && [4][1..] == [] && With([0], 4, 0) == [4, 0];
    ForkIs(K5(t), K6(t).procs, 0);
  }

  lemma {:induction false} Step6(t: int)
    ensures Leads(K6(t), DoSwitch, K7(t))
  {
    SwitchIs(K6(t), 1);
    assert With([4, 0], 3, 1) == [4, 3, 0] && [4, 3, 0][1..] == [3, 0];
  }

  lemma {:induction false} NobodyIsOn(ps: seq<Pcb>, event: int)
    requires |ps| == 5 && ps[1].event != event && ps[2].event != event
    ensures Sleepers(ps, [1, 2], event) == [] && Others(ps, [1, 2], event) == [1, 2]
  {
    var q: seq<nat>, r: seq<nat> := [1, 2], [2];
    assert q[1..] == r && r[1..] == [];
    assert Sleepers(ps, [], event) == [] && Others(ps, [], event) == [];
    assert Sleepers(ps, r, event) == [] && Others(ps, r, event) == [2];
    assert [1] + [2] == q;
  }

  lemma {:induction false} TwoInARow(ps: seq<Pcb>)
    requires |ps| == 5 && ps[1].priority == ps[2].priority
    ensures InsertAll(ps, [], [1, 2]) == [1, 2]
  {
    InsertAt(ps, [], 1, 0);
    InsertAt(ps, [1], 2, 1);
    assert With([], 1, 0) == [1] && With([1], 2, 1) == [1, 2] && [1, 2][1..] == [2] && [2][1..] == [];
    assert InsertAll(ps, [1, 2], []) == [1, 2];
    assert InsertAll(ps, [1], [2]) == [1, 2];
  }

  lemma {:induction false} NobodyWakes(ps: seq<Pcb>, event: int)
    requires |ps| == 5 && ps[1].event != event && ps[2].event != event && ps[1].priority == ps[2].priority
    ensures Sleepers(ps, [1, 2], event) == [] && InsertAll(ps, [], Others(ps, [1, 2], event)) == [1, 2]
    ensures MakeReady(ps, []) == ps
  {
    NobodyIsOn(ps, event);
    TwoInARow(ps);
  }

  lemma {:induction false} WakesNobody(m: Kernel, event: int)
    requires Shape(m) && |m.procs| == 5 && m.asleep == [1, 2] && m.procs[1].priority == m.procs[2].priority
    requires m.procs[1].event != event && m.procs[2].event != event
    ensures Wakeup(m, event) == m
  {
    NobodyWakes(m.procs, event);
    assert InsertAll(m.procs, m.ready, []) == m.ready;
  }

  lemma {:induction false} P4Dies(t: int)
    ensures Die(K7(t).procs, 4, 4) == K8(t).procs
  {
    var d, ps := Die(K7(t).procs, 4, 4), K8(t).procs;
    assert [2] + [] == [2] && d[0] == ps[0] && d[1] == ps[1] && d[2] == ps[2] && d[3] == ps[3] && d[4] == ps[4];
  }

  lemma {:induction false} BuryIs(k: Kernel, code: int, ps: seq<Pcb>, event: int, m: Kernel)
    requires Shape(k) && k.running > 1 && Die(k.procs, k.running, code) == ps && ParentEvent(k) == event
    requires Shape(k.(procs := ps)) && Wakeup(k.(procs := ps), event) == m
    requires m.procs[m.running].status != READY && m.ready != [] && Enabled(k, DoExit(code))
    ensures Leads(k, DoExit(code), m.(ready := m.ready[1..], running := m.ready[0]))
  {
    assert Before(k, DoExit(code)) == m;
    AwayIs(k, DoExit(code), m);
  }

  lemma {:induction false} AtStep7(t: int)
    ensures var k, m := K7(t), K7(t).(procs := K8(t).procs);
            && Shape(k) && k.running == 4 && Enabled(k, DoExit(4)) && ParentEvent(k) == Addr(k, 3)
            && Shape(m) && m.procs[m.running].status == ZOMBIE && m.ready == [3, 0]
            && K8(t) == m.(ready := [0], running := 3)
  {
  }

  lemma {:induction false} AsleepAtStep7(t: int)
    ensures var m := K7(t).(procs := K8(t).procs);
            && |m.procs| == 5 && m.asleep == [1, 2] && m.procs[1].priority == m.procs[2].priority
            && m.procs[1].event != Addr(K7(t), 3) && m.procs[2].event != Addr(K7(t), 3)
  {
  }

  lemma {:induction false} Step7(t: int)
    ensures Leads(K7(t), DoExit(4), K8(t))
  {
    P4Dies(t);
    AtStep7(t);
    AsleepAtStep7(t);
    assert [3, 0][1..] == [0];
    hide K7, K8, Shape, Enabled, ParentEvent, Addr, Wakeup, Die, Leads;
    WakesNobody(K7(t).(procs := K8(t).procs), Addr(K7(t), 3));
    BuryIs(K7(t), 4, K8(t).procs, Addr(K7(t), 3), K7(t).(procs := K8(t).procs));
  }

  lemma {:induction false} Reached(t: int)
    ensures Reaches(K0(t), Ops(t), K8(t))
  {
    var o7 := [DoExit(4)] + [];
    var o6 := [DoSwitch] + o7;
    var o5 := [DoFork] + o6;
    var o4 := [DoSleep(t - 1)] + o5;
    var o3 := [DoFork] + o4;
    var o2 := [DoWait] + o3;
    var o1 := [DoFork] + o2;
    assert Ops(t) == [DoSwitch] + o1;
    assert Reaches(K8(t), [], K8(t));
    hide Leads, Reaches, Ops, K0, K1, K2, K3, K4, K5, K6, K7, K8;
    Step0(t); Step1(t); Step2(t); Step3(t); Step4(t); Step5(t); Step6(t); Step7(t);
    OneMore(K7(t), DoExit(4), K8(t), [], K8(t));
    OneMore(K6(t), DoSwitch, K7(t), o7, K8(t));
    OneMore(K5(t), DoFork, K6(t), o6, K8(t));
    OneMore(K4(t), DoSleep(t - 1), K5(t), o5, K8(t));
    OneMore(K3(t), DoFork, K4(t), o4, K8(t));
    OneMore(K2(t), DoWait, K3(t), o3, K8(t));
    OneMore(K1(t), DoFork, K2(t), o2, K8(t));
    OneMore(K0(t), DoSwitch, K1(t), o1, K8(t));
  }

  lemma {:induction false} BeforeTheExit(t: int)
    ensures var k := K8(t);
            && Shape(k) && BlockedInKwait(k, 1) && NoZombieChild(k.procs, 1) && !NoZombieChild(k.procs, 3)
            && k.running == 3 && k.procs[3].parent == 2 && Enabled(k, DoExit(3))
  {
    assert K8(t).procs[3].kids == [4] && 4 in [4] && K8(t).procs[1].kids == [2];
  }

  /** The state is reachable, for every address of the table, and when P3 exits P1 misses it:
      it goes on sleeping, and P4 is now its dead child. */
  lemma {:induction false} P1MissesAChild(t: int)
    ensures ValidRun(Boot(t, 5), Ops(t)) && Exec(Boot(t, 5), Ops(t)) == K8(t)
    ensures Enabled(K8(t), DoExit(3))
    ensures P1Misses(Step(K8(t), DoExit(3)))
  {
    Start(t);
    Reached(t);
    BeforeTheExit(t);
    EveryReachableState(t, 5, Ops(t));
    hide Step, Exec, ValidRun, Boot, K8, Inv, BlockedInKwait, NoZombieChild;
    P1MissesIff(K8(t), DoExit(3));
  }

  // ---------------------------------------------------------------- the four places

  /** P1 forks P2 and P3. */
  function F3(t: int): Kernel {
    var ps := K2(t).procs;
    K2(t).(procs := [ps[0], ps[1].(kids := [2, 3]), ps[2], Child(1), BLANK], free := [4], ready := [2, 3, 0])
  }

  lemma {:induction false} ForksTwice(t: int)
    ensures Leads(K2(t), DoFork, F3(t))
  {
    assert [2] + [3] == [2, 3] && [3, 4][1..] == [4] && With([2, 0], 3, 1) == [2, 3, 0];
    ForkIs(K2(t), F3(t).procs, 1);
  }

  lemma {:induction false} F3Reached(t: int)
    ensures Reaches(K0(t), [DoSwitch, DoFork, DoFork], F3(t))
  {
    var o2 := [DoFork] + [];
    var o1 := [DoFork] + o2;
    assert [DoSwitch, DoFork, DoFork] == [DoSwitch] + o1;
    ForksTwice(t);
    assert Reaches(F3(t), [], F3(t));
    hide Leads, Reaches, K0, K1, K2, F3;
    Step0(t); Step1(t);
    OneMore(K2(t), DoFork, F3(t), [], F3(t));
    OneMore(K1(t), DoFork, K2(t), o2, F3(t));
    OneMore(K0(t), DoSwitch, K1(t), o1, F3(t));
  }

  /** The table then. */
  function ForkTable(t: int): seq<Proc> {
    [Proc(NIL, 0, 0, READY, 0, 0, 0, 1, NIL, NIL), Proc(NIL, 1, 0, READY, 1, 0, 0, 2, NIL, 0),
     Proc(3, 2, 1, READY, 1, 0, 0, NIL, 3, 1), Proc(0, 3, 1, READY, 1, 0, 0, NIL, NIL, 1),
     Proc(NIL, 4, 0, FREE, 0, 0, 0, NIL, NIL, NIL)]
  }

  lemma {:induction false} ForkTableIs(t: int)
    ensures Represents(ForkTable(t), F3(t))
  {
    var ps, tab := F3(t).procs, ForkTable(t);
    forall i: nat | i < 5 ensures Record(tab, ps, i) && Kids(tab, i, ps[i].kids) {
      forall j: nat | j < |ps[i].kids| ensures Sibling(tab, ps[i].kids, j) { }
    }
  }

  /** When P1 forks P4, P3 is no longer in its child list. */
  lemma {:induction false} ForkLosesAChild(t: int)
    ensures Boot(t, 5) == K0(t) && Reaches(K0(t), [DoSwitch, DoFork, DoFork], F3(t)) && Represents(ForkTable(t), F3(t))
    ensures F3(t).running == 1 && F3(t).free == [4] && F3(t).procs[1].kids == [2, 3]
    ensures Kids(ForkLinks(ForkTable(t), 1, 4), 1, [2, 4])
  {
    Start(t);
    F3Reached(t);
    ForkTableIs(t);
    hide Boot, Reaches, Represents;
    forall j: nat | j < 2 ensures Sibling(ForkLinks(ForkTable(t), 1, 4), [2, 4], j) { }
  }

  /** The table in which P3 exits: its child P4 stays in its child list, and is in P1's too. */
  function Table8(t: int): seq<Proc> {
    [Proc(3, 0, 0, READY, 0, 0, 0, 1, NIL, NIL), Proc(2, 1, 0, SLEEP, 1, t + PROC_SIZE, 0, 2, NIL, 0),
     Proc(NIL, 2, 1, SLEEP, 1, t - 1, 0, 3, NIL, 1), Proc(NIL, 3, 2, READY, 1, 0, 0, 4, NIL, 2),
     Proc(NIL, 4, 3, ZOMBIE, 1, 0, 4, NIL, NIL, 3)]
  }

  lemma {:induction false} Table8Is(t: int)
    ensures Represents(Table8(t), K8(t))
  {
    var ps, tab := K8(t).procs, Table8(t);
    forall i: nat | i < 5 ensures Record(tab, ps, i) && Kids(tab, i, ps[i].kids) {
      forall j: nat | j < |ps[i].kids| ensures Sibling(tab, ps[i].kids, j) { }
    }
  }

  lemma {:induction false} ExitKeepsItsChildren(t: int)
    ensures Represents(Table8(t), K8(t)) && Lists(K8(t).procs)
    ensures Kids(ExitLinks(Table8(t), K8(t)), 3, [4]) && !Kids(ExitLinks(Table8(t), K8(t)), 3, [])
  {
    Table8Is(t);
    P1MissesAChild(t);
    EveryReachableState(t, 5, Ops(t));
    assert K8(t).running == 3 && K8(t).procs[3].kids == [4];
    hide K8, Table8, Represents, Lists, Kids, Inv, Exec, ValidRun;
    FamilyOf(K8(t));
    InvLists(K8(t).procs);
    ExitLinksRight(Table8(t), K8(t));
  }

  lemma {:induction false} FamilyOf(k: Kernel)
    requires Inv(k)
    ensures Family(k.procs)
  {
  }

  /** P1 forks P2 and P3, P2 exits and P1 runs again. */
  function G4(t: int): Kernel {
    F3(t).(ready := [3, 1, 0], running := 2)
  }

  function G5(t: int): Kernel {
    var ps := F3(t).procs;
    F3(t).(procs := [ps[0], ps[1], ps[2].(status := ZOMBIE, exitCode := 2), ps[3], BLANK], ready := [1, 0], running := 3)
  }

  function G6(t: int): Kernel {
    G5(t).(ready := [3, 0], running := 1)
  }

  lemma {:induction false} ToG4(t: int)
    ensures Leads(F3(t), DoSwitch, G4(t))
  {
    SwitchIs(F3(t), 2);
    assert With([2, 3, 0], 1, 2) == [2, 3, 1, 0] && [2, 3, 1, 0][1..] == [3, 1, 0];
  }

  lemma {:induction false} ToG5(t: int)
    ensures Leads(G4(t), DoExit(2), G5(t))
  {
    var k, ps := G4(t), G5(t).procs;
    var d := Die(k.procs, 2, 2);
    assert [2, 3] + [] == [2, 3] && d[0] == ps[0] && d[1] == ps[1] && d[2] == ps[2] && d[3] == ps[3] && d[4] == ps[4];
    assert d == ps && [3, 1, 0][1..] == [1, 0];
    var m := k.(procs := ps);
    NobodyAsleep(m, ParentEvent(k));
    hide Wakeup, Die, ParentEvent;
    BuryIs(k, 2, ps, ParentEvent(k), m);
  }

  lemma {:induction false} NobodyAsleep(m: Kernel, event: int)
    requires Shape(m) && m.asleep == []
    ensures Wakeup(m, event) == m
  {
    assert MakeReady(m.procs, []) == m.procs;
  }

  lemma {:induction false} ToG6(t: int)
    ensures Leads(G5(t), DoSwitch, G6(t))
  {
    SwitchIs(G5(t), 1);
    assert With([1, 0], 3, 1) == [1, 3, 0] && [1, 3, 0][1..] == [3, 0];
  }

  lemma {:induction false} G6Reached(t: int)
    ensures Reaches(K0(t), [DoSwitch, DoFork, DoFork, DoSwitch, DoExit(2), DoSwitch], G6(t))
  {
    var o5 := [DoSwitch] + [];
    var o4 := [DoExit(2)] + o5;
    var o3 := [DoSwitch] + o4;
    var o2 := [DoFork] + o3;
    var o1 := [DoFork] + o2;
    assert [DoSwitch, DoFork, DoFork, DoSwitch, DoExit(2), DoSwitch] == [DoSwitch] + o1;
    assert Reaches(G6(t), [], G6(t));
    hide Leads, Reaches, K0, K1, K2, F3, G4, G5, G6;
    Step0(t); Step1(t); ForksTwice(t); ToG4(t); ToG5(t); ToG6(t);
    OneMore(G5(t), DoSwitch, G6(t), [], G6(t));
    OneMore(G4(t), DoExit(2), G5(t), o5, G6(t));
    OneMore(F3(t), DoSwitch, G4(t), o4, G6(t));
    OneMore(K2(t), DoFork, F3(t), o3, G6(t));
    OneMore(K1(t), DoFork, K2(t), o2, G6(t));
    OneMore(K0(t), DoSwitch, K1(t), o1, G6(t));
  }

  /** The table then. */
  function WaitTable(t: int): seq<Proc> {
    ForkTable(t)[2 := Proc(NIL, 2, 1, ZOMBIE, 1, 0, 2, NIL, 3, 1)]
  }

  lemma {:induction false} WaitTableIs(t: int)
    ensures Represents(WaitTable(t), G6(t))
  {
    var ps, tab := G6(t).procs, WaitTable(t);
    forall i: nat | i < 5 ensures Record(tab, ps, i) && Kids(tab, i, ps[i].kids) {
      forall j: nat | j < |ps[i].kids| ensures Sibling(tab, ps[i].kids, j) { }
    }
  }

  /** When P1 buries P2, the first of its two children, P3 is in no child list any more. */
  lemma {:induction false} WaitLosesAChild(t: int)
    ensures var ops := [DoSwitch, DoFork, DoFork, DoSwitch, DoExit(2), DoSwitch];
            Boot(t, 5) == K0(t) && Reaches(K0(t), ops, G6(t)) && Represents(WaitTable(t), G6(t))
    ensures var k := G6(t);
            && Enabled(k, DoWait) && k.running == 1 && k.procs[1].kids == [2, 3] && ZombieAt(k.procs, [2, 3]) == 0
            && Kids(WaitLinks(WaitTable(t), 1, [2, 3], 0), 1, [])
  {
    Start(t);
    G6Reached(t);
    WaitTableIs(t);
    hide Boot, Reaches, Represents;
  }

  /** P1 forks P2 and waits, P2 exits: P1 runs again, inside kwait(), beside its dead child. */
  function W4(t: int): Kernel {
    var ps := K3(t).procs;
    K3(t).(procs := [ps[0], ps[1].(status := READY), ps[2].(status := ZOMBIE, exitCode := 2), BLANK, BLANK],
           asleep := [], ready := [0], running := 1)
  }

  /** The table when P2 has died, before wakeup(). */
  function D4(t: int): seq<Pcb> {
    var ps := K3(t).procs;
    [ps[0], ps[1], ps[2].(status := ZOMBIE, exitCode := 2), BLANK, BLANK]
  }

  lemma {:induction false} P2Dies(t: int)
    ensures Die(K3(t).procs, 2, 2) == D4(t) && MakeReady(D4(t), [1]) == W4(t).procs
  {
    var ps, d := W4(t).procs, D4(t);
    var e, r := Die(K3(t).procs, 2, 2), MakeReady(d, [1]);
    assert [2] + [] == [2] && e[0] == d[0] && e[1] == d[1] && e[2] == d[2] && e[3] == d[3] && e[4] == d[4];
    assert r[0] == ps[0] && r[1] == ps[1] && r[2] == ps[2] && r[3] == ps[3] && r[4] == ps[4];
  }

  /** P1 alone is asleep on the event, and P0 alone is ready. */
  lemma {:induction false} WakesP1(m: Kernel, event: int)
    requires Shape(m) && |m.procs| == 5 && m.asleep == [1] && m.ready == [0] && m.procs[1].event == event
    requires m.procs[0].priority < m.procs[1].priority
    ensures Wakeup(m, event) == m.(procs := MakeReady(m.procs, [1]), ready := [1, 0], asleep := [])
  {
    var ps := m.procs;
    assert [1][1..] == [] && Sleepers(ps, [], event) == [] && Others(ps, [], event) == [];
    assert Sleepers(ps, [1], event) == [1] && Others(ps, [1], event) == [];
    InsertAt(ps, [0], 1, 0);
    assert With([0], 1, 0) == [1, 0];
    assert InsertAll(ps, [0], [1]) == InsertAll(ps, Insert(ps, [0], 1), []) && InsertAll(ps, [], []) == [];
  }

  lemma {:induction false} AtExit4(t: int)
    ensures var k, d := K3(t), K3(t).(procs := D4(t));
            var m := k.(procs := W4(t).procs, ready := [1, 0], asleep := []);
            && Shape(k) && k.running == 2 && Enabled(k, DoExit(2)) && ParentEvent(k) == Addr(k, 1)
            && Shape(d) && |m.procs| == 5 && m.procs[2].status == ZOMBIE && W4(t) == m.(ready := [0], running := 1)
  {
  }

  lemma {:induction false} AsleepAtExit4(t: int)
    ensures var d := K3(t).(procs := D4(t));
            && |d.procs| == 5 && d.asleep == [1] && d.ready == [0] && d.procs[1].event == Addr(K3(t), 1)
            && d.procs[0].priority < d.procs[1].priority
  {
  }

  lemma {:induction false} P2Exits(t: int)
    ensures Leads(K3(t), DoExit(2), W4(t))
  {
    P2Dies(t);
    AtExit4(t);
    AsleepAtExit4(t);
    assert [1, 0][1..] == [0];
    hide K3, W4, D4, Shape, Enabled, ParentEvent, Addr, Wakeup, Die, Leads, MakeReady;
    WakesP1(K3(t).(procs := D4(t)), Addr(K3(t), 1));
    var m := K3(t).(procs := W4(t).procs, ready := [1, 0], asleep := []);
    BuryIs(K3(t), 2, D4(t), Addr(K3(t), 1), m);
  }

  lemma {:induction false} W4Reached(t: int)
    ensures Reaches(K0(t), [DoSwitch, DoFork, DoWait, DoExit(2)], W4(t))
  {
    var o3 := [DoExit(2)] + [];
    var o2 := [DoWait] + o3;
    var o1 := [DoFork] + o2;
    assert [DoSwitch, DoFork, DoWait, DoExit(2)] == [DoSwitch] + o1;
    P2Exits(t);
    assert Reaches(W4(t), [], W4(t));
    hide Leads, Reaches, K0, K1, K2, K3, W4;
    Step0(t); Step1(t); Step2(t);
    OneMore(K3(t), DoExit(2), W4(t), [], W4(t));
    OneMore(K2(t), DoWait, K3(t), o3, W4(t));
    OneMore(K1(t), DoFork, K2(t), o2, W4(t));
    OneMore(K0(t), DoSwitch, K1(t), o1, W4(t));
  }

  /** kwait() answers "no child" to P1, whose child is dead beside it. */
  lemma {:induction false} WaitFindsNoChild(t: int)
    ensures Boot(t, 5) == K0(t) && Reaches(K0(t), [DoSwitch, DoFork, DoWait, DoExit(2)], W4(t))
    ensures Enabled(W4(t), DoWait) && HasChild(W4(t)) && WrittenWait(W4(t)) == NoChild && WaitOutcome(W4(t)) == Buried(2, 2)
  {
    Start(t);
    W4Reached(t);
    var k := W4(t);
    hide Reaches, Boot;
    assert ZombieAt(k.procs, [2]) == 0 && k.procs[2].parent == 1 && k.procs[2].status == ZOMBIE;
  }
}
