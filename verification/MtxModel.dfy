/** The MTX process kernel as a state machine on values: PreLab3/Code/{type.h, queue.c, wait.c, t.c}.

    A PROC is named by its index in the table proc[NPROC], which is also its pid.  A kernel
    value holds the PROC records, the three `next` lists as sequences of indices, and the
    running PROC.  A PROC's `kids` is its child/sibling list.  Each operation below is one
    command of body() up to the point where another PROC runs. */
module MtxModel {

  datatype Status = FREE | READY | SLEEP | ZOMBIE

  /** Where a PROC resumes when it is scheduled: at the prompt of body(), or inside the
      loop of kwait() after the sleep on its own address. */
  datatype Point = AtPrompt | InKwait

  datatype Pcb = Pcb(status: Status, priority: int, ppid: int, event: int, exitCode: int,
                     parent: int, kids: seq<nat>, point: Point)

  /** `table` is the address of proc[0]. */
  datatype Kernel = Kernel(table: int, procs: seq<Pcb>, free: seq<nat>, ready: seq<nat>,
                           asleep: seq<nat>, running: nat)

  /** The PROC pointer NULL. */
  const NIL := -1

  /** sizeof(PROC) for the 32-bit build: eleven words and the 1024-word stack. */
  const PROC_SIZE := 4140

  /** The address (int)&proc[p], the event on which kwait() sleeps. */
  function Addr(k: Kernel, p: int): int {
    k.table + PROC_SIZE * p
  }

  predicate InRange(q: seq<nat>, n: nat) {
    forall i :: 0 <= i < |q| ==> q[i] < n
  }

  predicate NoDup(q: seq<nat>) {
    forall i: nat, j: nat {:trigger Differ(q, i, j)} :: i < j < |q| ==> Differ(q, i, j)
  }

  predicate Differ(q: seq<nat>, i: nat, j: nat)
    requires i < |q| && j < |q|
  {
    q[i] != q[j]
  }

  // ---------------------------------------------------------------- queue.c

  /** The place at which enqueue() links p: before the first PROC of lower priority. */
  function Pos(ps: seq<Pcb>, q: seq<nat>, p: nat): (i: nat)
    requires InRange(q, |ps|) && p < |ps|
    ensures i <= |q|
    ensures forall j :: 0 <= j < i ==> ps[q[j]].priority >= ps[p].priority
    ensures i < |q| ==> ps[q[i]].priority < ps[p].priority
  {
    if q == [] || ps[p].priority > ps[q[0]].priority then 0 else 1 + Pos(ps, q[1..], p)
  }

  function Insert(ps: seq<Pcb>, q: seq<nat>, p: nat): (r: seq<nat>)
    requires InRange(q, |ps|) && p < |ps|
    ensures |r| == |q| + 1 && InRange(r, |ps|)
  {
    var i := Pos(ps, q, p);
    q[..i] + [p] + q[i..]
  }

  function InsertAll(ps: seq<Pcb>, q: seq<nat>, ws: seq<nat>): (r: seq<nat>)
    requires InRange(q, |ps|) && InRange(ws, |ps|)
    ensures |r| == |q| + |ws| && InRange(r, |ps|)
    decreases |ws|
  {
    if ws == [] then q else InsertAll(ps, Insert(ps, q, ws[0]), ws[1..])
  }

  // ---------------------------------------------------------------- shape

  /** What the operations need to be defined: every index names a PROC. */
  predicate Shape(k: Kernel) {
    && 2 <= |k.procs|
    && k.running < |k.procs|
    && InRange(k.free, |k.procs|) && InRange(k.ready, |k.procs|) && InRange(k.asleep, |k.procs|)
    && (forall i :: 0 <= i < |k.procs| ==> InRange(k.procs[i].kids, |k.procs|))
  }

  // ---------------------------------------------------------------- scheduler()

  function ReadyWithRunning(k: Kernel): (q: seq<nat>)
    requires Shape(k)
    ensures InRange(q, |k.procs|)
  {
    if k.procs[k.running].status == READY then Insert(k.procs, k.ready, k.running) else k.ready
  }

  function Schedule(k: Kernel): (k': Kernel)
    requires Shape(k) && ReadyWithRunning(k) != []
    ensures Shape(k')
  {
    var q := ReadyWithRunning(k);
    k.(ready := q[1..], running := q[0])
  }

  // ---------------------------------------------------------------- wait.c

  /** The running PROC goes to the sleep list; the switch that follows is Schedule. */
  function Doze(k: Kernel, event: int): (k': Kernel)
    requires Shape(k)
    ensures Shape(k')
  {
    var ps := k.procs[k.running := k.procs[k.running].(status := SLEEP, event := event)];
    k.(procs := ps, asleep := Insert(ps, k.asleep, k.running))
  }

  function Sleepers(ps: seq<Pcb>, q: seq<nat>, event: int): (r: seq<nat>)
    requires InRange(q, |ps|)
    ensures InRange(r, |ps|)
  {
    if q == [] then [] else
      (if ps[q[0]].event == event then [q[0]] else []) + Sleepers(ps, q[1..], event)
  }

  function Others(ps: seq<Pcb>, q: seq<nat>, event: int): (r: seq<nat>)
    requires InRange(q, |ps|)
    ensures InRange(r, |ps|)
  {
    if q == [] then [] else
      (if ps[q[0]].event == event then [] else [q[0]]) + Others(ps, q[1..], event)
  }

  function MakeReady(ps: seq<Pcb>, ws: seq<nat>): (r: seq<Pcb>)
    ensures |r| == |ps|
  {
    seq(|ps|, i requires 0 <= i < |ps| => if i in ws then ps[i].(status := READY) else ps[i])
  }

  function Wakeup(k: Kernel, event: int): (k': Kernel)
    requires Shape(k)
    ensures Shape(k')
  {
    var ws := Sleepers(k.procs, k.asleep, event);
    k.(procs := MakeReady(k.procs, ws),
       ready := InsertAll(k.procs, k.ready, ws),
       asleep := InsertAll(k.procs, [], Others(k.procs, k.asleep, event)))
  }

  // ---------------------------------------------------------------- t.c

  /** kfork() in the form the assignment asks for: the child is appended to the caller's
      child list and starts with no child or sibling. */
  function Fork(k: Kernel): (k': Kernel)
    requires Shape(k)
    ensures Shape(k')
  {
    if k.free == [] then k else
      var p := k.free[0];
      var born := k.procs[p].(status := READY, priority := 1, ppid := k.running,
                              parent := k.running, kids := [], point := AtPrompt);
      var ps := k.procs[p := born];
      var caller := ps[k.running].(kids := ps[k.running].kids + [p]);
      var ps' := ps[k.running := caller];
      k.(procs := ps', free := k.free[1..], ready := Insert(ps', k.ready, p))
  }

  function ForkResult(k: Kernel): int {
    if k.free == [] then -1 else k.free[0]
  }

  /** The children of r become children of P1. */
  function Adopt(ps: seq<Pcb>, r: nat): (ps': seq<Pcb>)
    requires 2 <= |ps| && r < |ps|
    ensures |ps'| == |ps|
  {
    seq(|ps|, i requires 0 <= i < |ps| =>
      var c := if i in ps[r].kids then ps[i].(parent := 1, ppid := 1) else ps[i];
      if i == r then c.(kids := [])
      else if i == 1 then c.(kids := ps[1].kids + ps[r].kids)
      else c)
  }

  function Die(ps: seq<Pcb>, r: nat, code: int): (ps': seq<Pcb>)
    requires 2 <= |ps| && r < |ps|
    ensures |ps'| == |ps|
  {
    var a := Adopt(ps, r);
    a[r := a[r].(status := ZOMBIE, exitCode := code)]
  }

  function ParentEvent(k: Kernel): int
    requires Shape(k)
  {
    var p := k.procs[k.running].parent;
    Addr(k, if p == NIL then 1 else p)
  }

  /** kexit() up to its tswitch(). */
  function Bury(k: Kernel, code: int): (k': Kernel)
    requires Shape(k) && k.running != 1
    ensures Shape(k')
  {
    Wakeup(k.(procs := Die(k.procs, k.running, code)), ParentEvent(k))
  }

  /** The index in a child list of the first ZOMBIE, or its length. */
  function ZombieAt(ps: seq<Pcb>, kids: seq<nat>): (i: nat)
    requires InRange(kids, |ps|)
    ensures i <= |kids|
    ensures forall j :: 0 <= j < i ==> ps[kids[j]].status != ZOMBIE
    ensures i < |kids| ==> ps[kids[i]].status == ZOMBIE
  {
    if kids == [] || ps[kids[0]].status == ZOMBIE then 0 else 1 + ZombieAt(ps, kids[1..])
  }

  predicate HasZombie(k: Kernel)
    requires Shape(k)
  {
    var kids := k.procs[k.running].kids;
    ZombieAt(k.procs, kids) < |kids|
  }

  /** The ZOMBIE child that kwait() collects. */
  function Dead(k: Kernel): (z: nat)
    requires Shape(k) && HasZombie(k)
    ensures z in k.procs[k.running].kids && z < |k.procs| && k.procs[z].status == ZOMBIE
  {
    var kids := k.procs[k.running].kids;
    kids[ZombieAt(k.procs, kids)]
  }

  function Collect(k: Kernel): (k': Kernel)
    requires Shape(k) && HasZombie(k)
    ensures Shape(k')
  {
    var r := k.running;
    var kids := k.procs[r].kids;
    var i := ZombieAt(k.procs, kids);
    var ps := k.procs[kids[i] := k.procs[kids[i]].(status := FREE)];
    var ps' := ps[r := ps[r].(kids := kids[..i] + kids[i + 1..], point := AtPrompt)];
    k.(procs := ps', free := Insert(ps', k.free, kids[i]))
  }

  function SetPoint(k: Kernel, at: Point): (k': Kernel)
    requires Shape(k)
    ensures Shape(k')
  {
    k.(procs := k.procs[k.running := k.procs[k.running].(point := at)])
  }

  /** The ZOMBIEs among proc[i..], in table order. */
  function Zombies(ps: seq<Pcb>, i: nat): (r: seq<nat>)
    requires i <= |ps|
    ensures InRange(r, |ps|)
    ensures forall x :: x in r <==> i <= x < |ps| && ps[x].status == ZOMBIE
    decreases |ps| - i
  {
    if i == |ps| then []
    else (if ps[i].status == ZOMBIE then [i] else []) + Zombies(ps, i + 1)
  }

  function Raise(k: Kernel): (k': Kernel)
    requires Shape(k)
    ensures Shape(k')
  {
    var zs := Zombies(k.procs, 1);
    k.(procs := MakeReady(k.procs, zs), ready := InsertAll(k.procs, k.ready, zs))
  }

  /** init() and the kfork() of main(). */
  function Fresh(n: nat): (q: seq<nat>)
    ensures |q| == n && (forall i :: 0 <= i < n ==> q[i] == i)
  {
    if n == 0 then [] else Fresh(n - 1) + [n - 1]
  }

  function Initial(table: int, n: nat): (k: Kernel)
    requires 2 <= n
    ensures Shape(k)
  {
    var blank := Pcb(FREE, 0, 0, 0, 0, NIL, [], AtPrompt);
    var ps := seq(n, i requires 0 <= i < n => if i == 0 then blank.(status := READY) else blank);
    Kernel(table, ps, Fresh(n)[1..], [], [], 0)
  }

  function Boot(table: int, n: nat): (k: Kernel)
    requires 2 <= n
    ensures Shape(k)
  {
    Fork(Initial(table, n))
  }

  // ---------------------------------------------------------------- commands

  datatype Op = DoFork | DoSwitch | DoExit(code: int) | DoSleep(event: int)
              | DoWakeup(event: int) | DoJesus | DoWait

  /** P0 only switches, and only when the ready queue is not empty; a PROC inside kwait()
      goes on with kwait(); any other PROC takes any command. */
  predicate Enabled(k: Kernel, op: Op)
    requires Shape(k)
  {
    if k.running == 0 then op.DoSwitch? && k.ready != []
    else if k.procs[k.running].point == InKwait then op.DoWait?
    else true
  }

  /** The state at the call of scheduler(), or the final state for a command that does
      not switch. */
  function Before(k: Kernel, op: Op): (k': Kernel)
    requires Shape(k)
    ensures Shape(k')
  {
    match op
    case DoFork => Fork(k)
    case DoSwitch => k
    case DoExit(code) => if k.running == 1 then k else Bury(k, code)
    case DoSleep(event) => Doze(k, event)
    case DoWakeup(event) => Wakeup(k, event)
    case DoJesus => Raise(k)
    case DoWait =>
      if k.procs[k.running].kids == [] then SetPoint(k, AtPrompt)
      else if HasZombie(k) then Collect(k)
      else Doze(SetPoint(k, InKwait), Addr(k, k.running))
  }

  predicate Switches(k: Kernel, op: Op)
    requires Shape(k)
  {
    match op
    case DoFork => false
    case DoSwitch => true
    case DoExit(_) => k.running != 1
    case DoSleep(_) => true
    case DoWakeup(_) => false
    case DoJesus => false
    case DoWait => k.procs[k.running].kids != [] && !HasZombie(k)
  }

  /** One command.  With an empty ready queue scheduler() would follow a NULL pointer; the
      theorem SchedulerFindsProc says that this never happens. */
  function Step(k: Kernel, op: Op): (k': Kernel)
    requires Shape(k)
    ensures Shape(k')
  {
    var m := Before(k, op);
    if Switches(k, op) && ReadyWithRunning(m) != [] then Schedule(m) else m
  }
}
