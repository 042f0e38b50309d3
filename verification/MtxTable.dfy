/** The table proc[NPROC] with its pointers (PreLab3/Code/type.h), and what it means for a
    table to hold the records, queues and child lists of a kernel value.  A pointer is the
    index of the PROC it points to; NULL is NIL. */
module MtxTable {
  import opened MtxModel
  import opened MtxQueues
  import opened MtxInvariant

  datatype Proc = Proc(next: int, pid: int, ppid: int, status: Status, priority: int,
                       event: int, exitCode: int, child: int, sibling: int, parent: int)

  /** The j-th pointer of a list, NULL behind its end. */
  function Nth(q: seq<nat>, j: nat): int {
    if j < |q| then q[j] else NIL
  }

  predicate Next(t: seq<Proc>, q: seq<nat>, j: nat) {
    j < |q| && q[j] < |t| && t[q[j]].next == Nth(q, j + 1)
  }

  predicate Sibling(t: seq<Proc>, q: seq<nat>, j: nat) {
    j < |q| && q[j] < |t| && t[q[j]].sibling == Nth(q, j + 1)
  }

  /** The PROCs of q hang on head through next. */
  predicate Chain(t: seq<Proc>, head: int, q: seq<nat>) {
    && InRange(q, |t|) && head == Nth(q, 0)
    && forall j: nat {:trigger Next(t, q, j)} :: j < |q| ==> Next(t, q, j)
  }

  /** The children of i hang on child and sibling. */
  predicate Kids(t: seq<Proc>, i: nat, kids: seq<nat>) {
    && i < |t| && InRange(kids, |t|) && t[i].child == Nth(kids, 0)
    && forall j: nat {:trigger Sibling(t, kids, j)} :: j < |kids| ==> Sibling(t, kids, j)
  }

  predicate Record(t: seq<Proc>, ps: seq<Pcb>, i: nat) {
    && i < |t| && i < |ps|
    && t[i].pid == i && t[i].ppid == ps[i].ppid && t[i].status == ps[i].status
    && t[i].priority == ps[i].priority && t[i].event == ps[i].event
    && t[i].exitCode == ps[i].exitCode && t[i].parent == ps[i].parent
  }

  predicate Records(t: seq<Proc>, ps: seq<Pcb>) {
    |t| == |ps| && forall i: nat {:trigger Record(t, ps, i)} :: i < |ps| ==> Record(t, ps, i)
  }

  predicate Links(t: seq<Proc>, ps: seq<Pcb>) {
    |t| == |ps| && forall i: nat {:trigger Kids(t, i, ps[i].kids)} :: i < |ps| ==> Kids(t, i, ps[i].kids)
  }

  predicate Represents(t: seq<Proc>, k: Kernel) {
    Shape(k) && Records(t, k.procs) && Links(t, k.procs)
  }

  // ---------------------------------------------------------------- frames

  predicate SameNext(t: seq<Proc>, t': seq<Proc>, i: nat) {
    i < |t| && i < |t'| && t'[i].next == t[i].next
  }

  /** t and t' differ in next pointers only. */
  predicate NextOnly(t: seq<Proc>, t': seq<Proc>) {
    |t| == |t'| && forall i: nat :: i < |t| ==> t'[i] == t[i].(next := t'[i].next)
  }

  lemma {:induction false} ChainKept(t: seq<Proc>, t': seq<Proc>, head: int, q: seq<nat>)
    requires Chain(t, head, q) && |t| == |t'|
    requires forall x: nat :: x in q ==> SameNext(t, t', x)
    ensures Chain(t', head, q)
  {
    forall j: nat | j < |q| ensures Next(t', q, j) { assert Next(t, q, j) && SameNext(t, t', q[j]); }
  }

  /** t and t' have the same next pointers. */
  predicate SameNexts(t: seq<Proc>, t': seq<Proc>) {
    |t| == |t'| && forall i: nat :: i < |t| ==> t'[i].next == t[i].next
  }

  lemma {:induction false} ChainSame(t: seq<Proc>, t': seq<Proc>, head: int, q: seq<nat>)
    requires Chain(t, head, q) && SameNexts(t, t')
    ensures Chain(t', head, q)
  {
    ChainKept(t, t', head, q);
  }

  lemma {:induction false} KidsKept(t: seq<Proc>, t': seq<Proc>, i: nat, kids: seq<nat>)
    requires Kids(t, i, kids) && |t| == |t'| && t'[i].child == t[i].child
    requires forall x: nat :: x in kids && x < |t| ==> t'[x].sibling == t[x].sibling
    ensures Kids(t', i, kids)
  {
    forall j: nat | j < |kids| ensures Sibling(t', kids, j) { assert Sibling(t, kids, j); }
  }

  lemma {:induction false} NextOnlyKeeps(t: seq<Proc>, t': seq<Proc>, ps: seq<Pcb>)
    requires Records(t, ps) && Links(t, ps) && NextOnly(t, t')
    ensures Records(t', ps) && Links(t', ps)
  {
    forall i: nat | i < |ps| ensures Record(t', ps, i) && Kids(t', i, ps[i].kids) {
      assert Record(t, ps, i) && Kids(t, i, ps[i].kids);
      KidsKept(t, t', i, ps[i].kids);
    }
  }

  /** The pointers at the place of insertion make the chain of Insert. */
  lemma {:induction false} Spliced(t: seq<Proc>, t': seq<Proc>, ps: seq<Pcb>, head: int, q: seq<nat>, x: nat)
    requires Chain(t, head, q) && |t| == |t'| == |ps| && x < |t| && x !in q && NoDup(q)
    requires var i := Pos(ps, q, x);
             && t'[x].next == Nth(q, i)
             && (i > 0 ==> t'[q[i - 1]].next == x)
             && forall y: nat :: y < |t| && y != x && (i > 0 ==> y != q[i - 1]) ==> SameNext(t, t', y)
    ensures Chain(t', if Pos(ps, q, x) == 0 then x else head, Insert(ps, q, x))
  {
    var i, r := Pos(ps, q, x), Insert(ps, q, x);
    assert r == q[..i] + [x] + q[i..];
    forall j: nat | j < |r| ensures Next(t', r, j) {
      if j < i {
        assert r[j] == q[j] && Next(t, q, j);
        if j != i - 1 { assert Differ(q, j, i - 1) && SameNext(t, t', q[j]); }
      } else if j > i {
        assert r[j] == q[j - 1] && Next(t, q, j - 1);
        if i > 0 { assert Differ(q, i - 1, j - 1); }
        assert SameNext(t, t', q[j - 1]);
      }
    }
  }

  lemma {:induction false} Popped(t: seq<Proc>, head: int, q: seq<nat>)
    requires Chain(t, head, q) && q != []
    ensures head == q[0] && q[0] < |t| && Chain(t, t[q[0]].next, q[1..])
  {
    assert Next(t, q, 0);
    forall j: nat | j < |q[1..]| ensures Next(t, q[1..], j) { assert Next(t, q, j + 1); }
  }

  predicate Disjoint(a: seq<nat>, b: seq<nat>) {
    forall x :: x in a ==> x !in b
  }

  /** The chain of q is untouched when only o and x are relinked. */
  lemma {:induction false} ChainApart(t: seq<Proc>, t': seq<Proc>, head: int, q: seq<nat>, o: seq<nat>, x: nat)
    requires Chain(t, head, q) && |t| == |t'| && Disjoint(q, o) && x !in q
    requires forall y: nat :: y < |t| && y !in o && y != x ==> SameNext(t, t', y)
    ensures Chain(t', head, q)
  {
    ChainKept(t, t', head, q);
  }

  /** No PROC is on two queues, and the running PROC is on none unless it sleeps. */
  predicate Separate(k: Kernel)
    requires Shape(k)
  {
    && NoDup(k.free) && NoDup(k.ready) && NoDup(k.asleep)
    && Disjoint(k.free, k.ready) && Disjoint(k.free, k.asleep) && Disjoint(k.asleep, k.ready)
    && k.running !in k.ready && k.running !in k.free
    && (k.procs[k.running].status != SLEEP ==> k.running !in k.asleep)
  }

  /** What kfork() relies on: the first FREE PROC is nobody's child. */
  predicate CanFork(k: Kernel)
    requires Shape(k)
  {
    && Separate(k)
    && (forall i: nat {:trigger NoDup(k.procs[i].kids)} :: i < |k.procs| ==> NoDup(k.procs[i].kids))
    && OneListEach(k.procs)
    && (k.free != [] ==> Unlisted(k.procs, k.free[0]))
  }

  /** x is in no child list. */
  predicate Unlisted(ps: seq<Pcb>, x: nat) {
    forall i: nat {:trigger ps[i].kids} :: i < |ps| ==> x !in ps[i].kids
  }

  /** No PROC is in two child lists. */
  predicate OneListEach(ps: seq<Pcb>) {
    forall i: nat, j: nat :: i < |ps| && j < |ps| && i != j ==> Disjoint(ps[i].kids, ps[j].kids)
  }

  // ---------------------------------------------------------------- the loop of wakeup()

  /** The state of the loop: `rest` is still on the sleep list, `ready` and `temp` are the
      lists built so far, `woken` are the PROCs made READY so far. */
  predicate WakeLoop(k: Kernel, event: int, rest: seq<nat>, ready: seq<nat>, temp: seq<nat>, woken: seq<nat>)
    requires Shape(k)
  {
    && InRange(rest, |k.procs|) && InRange(ready, |k.procs|) && InRange(temp, |k.procs|)
    && WakeLists(k.free, rest, ready, temp)
    && WakeValues(k, event, rest, ready, temp, woken)
  }

  /** The lists are apart. */
  predicate WakeLists(free: seq<nat>, rest: seq<nat>, ready: seq<nat>, temp: seq<nat>) {
    && NoDup(rest) && NoDup(ready) && NoDup(temp)
    && Disjoint(rest, ready) && Disjoint(rest, temp) && Disjoint(ready, temp)
    && Disjoint(free, rest) && Disjoint(free, ready) && Disjoint(free, temp)
  }

  /** What is to come completes what has been built. */
  predicate WakeValues(k: Kernel, event: int, rest: seq<nat>, ready: seq<nat>, temp: seq<nat>, woken: seq<nat>)
    requires InRange(k.asleep, |k.procs|) && InRange(k.ready, |k.procs|)
    requires InRange(rest, |k.procs|) && InRange(ready, |k.procs|) && InRange(temp, |k.procs|)
  {
    && InsertAll(k.procs, ready, Sleepers(k.procs, rest, event))
       == InsertAll(k.procs, k.ready, Sleepers(k.procs, k.asleep, event))
    && InsertAll(k.procs, temp, Others(k.procs, rest, event))
       == InsertAll(k.procs, [], Others(k.procs, k.asleep, event))
    && woken + Sleepers(k.procs, rest, event) == Sleepers(k.procs, k.asleep, event)
  }

  lemma {:induction false} MoveHead(rest: seq<nat>, to: seq<nat>, other: seq<nat>, free: seq<nat>, ps: seq<Pcb>)
    requires rest != [] && InRange(rest, |ps|) && InRange(to, |ps|)
    requires NoDup(rest) && NoDup(to)
    requires Disjoint(rest, to) && Disjoint(rest, other) && Disjoint(to, other)
    requires Disjoint(free, rest) && Disjoint(free, to)
    ensures NoDup(rest[1..]) && NoDup(Insert(ps, to, rest[0]))
    ensures Disjoint(rest[1..], Insert(ps, to, rest[0])) && Disjoint(rest[1..], other)
    ensures Disjoint(Insert(ps, to, rest[0]), other) && Disjoint(other, Insert(ps, to, rest[0]))
    ensures Disjoint(free, rest[1..]) && Disjoint(free, Insert(ps, to, rest[0]))
  {
    InsertMembers(ps, to, rest[0]);
    assert rest[0] in rest;
    forall x ensures x in rest[1..] <==> x in rest && x != rest[0] { TailMembers(rest, x); }
    TailMembers(rest, 0);
  }

  lemma {:induction false} SplitHead(ps: seq<Pcb>, rest: seq<nat>, event: int)
    requires InRange(rest, |ps|) && rest != []
    ensures if ps[rest[0]].event == event
            then Sleepers(ps, rest, event) == [rest[0]] + Sleepers(ps, rest[1..], event)
                 && Others(ps, rest, event) == Others(ps, rest[1..], event)
            else Sleepers(ps, rest, event) == Sleepers(ps, rest[1..], event)
                 && Others(ps, rest, event) == [rest[0]] + Others(ps, rest[1..], event)
  {
  }

  lemma {:induction false} InsertAllHead(ps: seq<Pcb>, q: seq<nat>, p: nat, ws: seq<nat>)
    requires InRange(q, |ps|) && p < |ps| && InRange(ws, |ps|)
    ensures InRange([p] + ws, |ps|) && InsertAll(ps, q, [p] + ws) == InsertAll(ps, Insert(ps, q, p), ws)
  {
    assert ([p] + ws)[1..] == ws;
  }

  lemma {:induction false} WakeListsStep(k: Kernel, rest: seq<nat>, ready: seq<nat>, temp: seq<nat>)
    requires InRange(rest, |k.procs|) && InRange(ready, |k.procs|) && InRange(temp, |k.procs|)
    requires WakeLists(k.free, rest, ready, temp) && rest != []
    ensures WakeLists(k.free, rest[1..], Insert(k.procs, ready, rest[0]), temp)
    ensures WakeLists(k.free, rest[1..], ready, Insert(k.procs, temp, rest[0]))
  {
    MoveHead(rest, ready, temp, k.free, k.procs);
    Flip(ready, temp);
    MoveHead(rest, temp, ready, k.free, k.procs);
    hide NoDup, Insert;
  }

  lemma {:induction false} WakeLoopStep(k: Kernel, event: int, rest: seq<nat>, ready: seq<nat>, temp: seq<nat>, woken: seq<nat>)
    requires Shape(k) && WakeLoop(k, event, rest, ready, temp, woken) && rest != []
    ensures k.procs[rest[0]].event == event ==>
              WakeLoop(k, event, rest[1..], Insert(k.procs, ready, rest[0]), temp, woken + [rest[0]])
    ensures k.procs[rest[0]].event != event ==>
              WakeLoop(k, event, rest[1..], ready, Insert(k.procs, temp, rest[0]), woken)
  {
    WakeListsStep(k, rest, ready, temp);
    WakeValuesStep(k, event, rest, ready, temp, woken);
    hide WakeLists, WakeValues, Insert, Shape;
  }

  lemma {:induction false} WakeValuesStep(k: Kernel, event: int, rest: seq<nat>, ready: seq<nat>, temp: seq<nat>, woken: seq<nat>)
    requires InRange(k.asleep, |k.procs|) && InRange(k.ready, |k.procs|)
    requires InRange(rest, |k.procs|) && InRange(ready, |k.procs|) && InRange(temp, |k.procs|) && rest != []
    requires WakeValues(k, event, rest, ready, temp, woken)
    ensures k.procs[rest[0]].event == event ==>
              WakeValues(k, event, rest[1..], Insert(k.procs, ready, rest[0]), temp, woken + [rest[0]])
    ensures k.procs[rest[0]].event != event ==>
              WakeValues(k, event, rest[1..], ready, Insert(k.procs, temp, rest[0]), woken)
  {
    var ss, os := Sleepers(k.procs, rest[1..], event), Others(k.procs, rest[1..], event);
    SplitHead(k.procs, rest, event);
    if k.procs[rest[0]].event == event {
      InsertAllHead(k.procs, ready, rest[0], ss);
      assert (woken + [rest[0]]) + ss == woken + ([rest[0]] + ss);
    } else {
      InsertAllHead(k.procs, temp, rest[0], os);
    }
  }

  /** The PROC just dequeued is on none of the other lists. */
  lemma {:induction false} WakeLoopHead(k: Kernel, event: int, rest: seq<nat>, ready: seq<nat>, temp: seq<nat>, woken: seq<nat>)
    requires Shape(k) && WakeLoop(k, event, rest, ready, temp, woken) && rest != []
    ensures rest[0] < |k.procs|
    ensures rest[0] !in rest[1..] && rest[0] !in ready && rest[0] !in temp && rest[0] !in k.free
    ensures NoDup(ready) && NoDup(temp) && Disjoint(k.free, ready) && Disjoint(k.free, temp)
    ensures Disjoint(rest[1..], ready) && Disjoint(rest[1..], temp) && Disjoint(ready, temp) && Disjoint(temp, ready)
    ensures SamePriority(k.procs, MakeReady(k.procs, woken))
    ensures SamePriority(k.procs, MakeReady(k.procs, woken + [rest[0]]))
  {
    WakeLoopApart(k, event, rest, ready, temp, woken);
    hide WakeLoop, Sleepers, Others, InsertAll;
    assert rest[0] in rest;
    forall x ensures x in rest[1..] <==> x in rest && x != rest[0] { TailMembers(rest, x); }
  }

  lemma {:induction false} WakeLoopApart(k: Kernel, event: int, rest: seq<nat>, ready: seq<nat>, temp: seq<nat>, woken: seq<nat>)
    requires Shape(k) && WakeLoop(k, event, rest, ready, temp, woken)
    ensures InRange(rest, |k.procs|) && NoDup(rest) && NoDup(ready) && NoDup(temp)
    ensures Disjoint(k.free, rest) && Disjoint(k.free, ready) && Disjoint(k.free, temp)
    ensures Disjoint(rest, ready) && Disjoint(rest, temp) && Disjoint(ready, temp)
  {
  }

  lemma {:induction false} HeadRecord(t: seq<Proc>, k: Kernel, event: int, rest: seq<nat>, ready: seq<nat>, temp: seq<nat>, woken: seq<nat>)
    requires Shape(k) && WakeLoop(k, event, rest, ready, temp, woken) && rest != []
    requires Records(t, MakeReady(k.procs, woken))
    ensures rest[0] < |k.procs| == |t| && t[rest[0]].event == k.procs[rest[0]].event
  {
    assert Record(t, MakeReady(k.procs, woken), rest[0]);
  }

  lemma {:induction false} WakeLoopStart(k: Kernel, event: int)
    requires Shape(k) && Separate(k)
    ensures WakeLoop(k, event, k.asleep, k.ready, [], [])
    ensures MakeReady(k.procs, []) == k.procs
  {
    assert [] + Sleepers(k.procs, k.asleep, event) == Sleepers(k.procs, k.asleep, event);
  }

  lemma {:induction false} WakeLoopDone(t: seq<Proc>, k: Kernel, event: int, rest: seq<nat>, ready: seq<nat>, temp: seq<nat>, woken: seq<nat>)
    requires Shape(k) && WakeLoop(k, event, rest, ready, temp, woken) && Nth(rest, 0) == NIL
    requires Records(t, MakeReady(k.procs, woken)) && Links(t, MakeReady(k.procs, woken))
    ensures Wakeup(k, event) == k.(procs := MakeReady(k.procs, woken), ready := ready, asleep := temp)
    ensures Represents(t, Wakeup(k, event))
  {
    assert rest == [] && woken + [] == woken;
  }

  // ---------------------------------------------------------------- single records

  /** Only the record of p changes, and not its child list. */
  lemma {:induction false} SetRecord(t: seq<Proc>, t': seq<Proc>, ps: seq<Pcb>, ps': seq<Pcb>, p: nat)
    requires Records(t, ps) && Links(t, ps) && p < |t|
    requires |t'| == |t| && |ps'| == |ps| && Record(t', ps', p)
    requires forall i: nat :: i < |t| && i != p ==> t'[i] == t[i] && ps'[i] == ps[i]
    requires t'[p].child == t[p].child && t'[p].sibling == t[p].sibling && ps'[p].kids == ps[p].kids
    ensures Records(t', ps') && Links(t', ps')
  {
    forall i: nat | i < |ps| ensures Record(t', ps', i) && Kids(t', i, ps'[i].kids) {
      assert Record(t, ps, i) && Kids(t, i, ps[i].kids);
      KidsKept(t, t', i, ps[i].kids);
    }
  }

  lemma {:induction false} DozeSeparate(k: Kernel, event: int)
    requires Shape(k) && Separate(k) && k.procs[k.running].status == READY
    ensures Separate(Doze(k, event))
  {
    InsertMembers(Doze(k, event).procs, k.asleep, k.running);
  }

  /** One PROC of the table is made READY. */
  lemma {:induction false} RouseOne(t: seq<Proc>, ps: seq<Pcb>, woken: seq<nat>, p: nat)
    requires p < |t| && Records(t, MakeReady(ps, woken)) && Links(t, MakeReady(ps, woken))
    ensures var t1 := t[p := t[p].(status := READY)];
            && Records(t1, MakeReady(ps, woken + [p])) && Links(t1, MakeReady(ps, woken + [p]))
            && SameNexts(t, t1)
  {
    var t1 := t[p := t[p].(status := READY)];
    assert Record(t, MakeReady(ps, woken), p);
    SetRecord(t, t1, MakeReady(ps, woken), MakeReady(ps, woken + [p]), p);
  }

  // ---------------------------------------------------------------- kfork()

  /** The place where the next child is linked: the sibling field of the last child, or the
      child field of i. */
  function Attach(t: seq<Proc>, i: nat, kids: seq<nat>, p: int): (t': seq<Proc>)
    requires i < |t| && InRange(kids, |t|)
    ensures |t'| == |t|
  {
    if kids == [] then t[i := t[i].(child := p)]
    else t[kids[|kids| - 1] := t[kids[|kids| - 1]].(sibling := p)]
  }

  /** Attaching the list `more` behind the children of i, when nobody else uses its links. */
  lemma {:induction false} Attached(t: seq<Proc>, i: nat, kids: seq<nat>, more: seq<nat>)
    requires Kids(t, i, kids) && InRange(more, |t|) && NoDup(kids) && Disjoint(kids, more)
    requires forall j: nat {:trigger Sibling(t, more, j)} :: j < |more| ==> Sibling(t, more, j)
    ensures Kids(Attach(t, i, kids, Nth(more, 0)), i, kids + more)
  {
    var t', all := Attach(t, i, kids, Nth(more, 0)), kids + more;
    forall j: nat | j < |all| ensures Sibling(t', all, j) {
      if j < |kids| {
        assert Sibling(t, kids, j) && all[j] == kids[j];
        if j < |kids| - 1 { assert Differ(kids, j, |kids| - 1); }
      } else {
        assert Sibling(t, more, j - |kids|) && all[j] == more[j - |kids|];
        assert more[j - |kids|] in more;
        if kids != [] { assert kids[|kids| - 1] in kids; }
      }
    }
  }

  lemma {:induction false} AttachKeeps(t: seq<Proc>, i: nat, kids: seq<nat>, p: int, x: nat, other: seq<nat>)
    requires Kids(t, i, kids) && Kids(t, x, other) && x != i && Disjoint(kids, other)
    ensures Kids(Attach(t, i, kids, p), x, other)
  {
    KidsKept(t, Attach(t, i, kids, p), x, other);
  }

  /** The record of a new child of r, before it is linked to its siblings. */
  function Born(q: Proc, r: int): Proc {
    q.(status := READY, priority := 1, ppid := r, parent := r, child := NIL, sibling := NIL)
  }

  /** kfork() on the table represents Fork. */
  lemma {:induction false} Forked(t: seq<Proc>, k: Kernel)
    requires Represents(t, k) && CanFork(k) && k.free != []
    ensures var p, r := k.free[0], k.running;
            var t1 := t[p := Born(t[p], r)];
            && InRange(k.procs[r].kids, |t|) && Kids(t1, r, k.procs[r].kids)
            && Records(Attach(t1, r, k.procs[r].kids, p), Fork(k).procs)
            && Links(Attach(t1, r, k.procs[r].kids, p), Fork(k).procs)
            && SameNexts(t, Attach(t1, r, k.procs[r].kids, p))
  {
    var p, r := k.free[0], k.running;
    var kids := k.procs[r].kids;
    var t1 := t[p := Born(t[p], r)];
    var t2 := Attach(t1, r, kids, p);
    var ps := Fork(k).procs;
    assert p in k.free && p != r;
    assert k.procs[r].kids == kids && Unlisted(k.procs, p);
    assert Kids(t, r, k.procs[r].kids);
    KidsKept(t, t1, r, kids);
    assert NoDup(k.procs[r].kids);
    assert Sibling(t1, [p], 0);
    Attached(t1, r, kids, [p]);
    forall i: nat | i < |ps| ensures Record(t2, ps, i) && Kids(t2, i, ps[i].kids) {
      assert Record(t, k.procs, i) && Kids(t, i, k.procs[i].kids);
      if i == p {
        assert Kids(t1, p, []);
        AttachKeeps(t1, r, kids, p, p, []);
      } else if i != r {
        assert k.procs[i].kids == ps[i].kids;
        KidsKept(t, t1, i, k.procs[i].kids);
        AttachKeeps(t1, r, kids, p, i, k.procs[i].kids);
      }
    }
  }

  // ---------------------------------------------------------------- kexit()

  /** The children in the list get P1 as parent. */
  function AdoptAll(t: seq<Proc>, kids: seq<nat>): (t': seq<Proc>)
    ensures |t'| == |t|
  {
    seq(|t|, i requires 0 <= i < |t| => if i in kids then t[i].(parent := 1, ppid := 1) else t[i])
  }

  function Bequest(t: seq<Proc>, k: Kernel): (t': seq<Proc>)
    requires Represents(t, k)
    ensures |t'| == |t|
  {
    var kids := k.procs[k.running].kids;
    AdoptAll(Attach(t, 1, k.procs[1].kids, Nth(kids, 0)), kids)
  }

  /** The table when r has exited, before the wakeup() of its parent. */
  function TableAfterExit(t: seq<Proc>, k: Kernel, code: int): (t': seq<Proc>)
    requires Represents(t, k)
    ensures |t'| == |t|
  {
    var r, t2 := k.running, Bequest(t, k);
    t2[r := t2[r].(child := NIL, exitCode := code, status := ZOMBIE)]
  }

  /** No PROC is listed twice, in one child list or in two. */
  predicate Lists(ps: seq<Pcb>) {
    && (forall i: nat {:trigger NoDup(ps[i].kids)} :: i < |ps| ==> NoDup(ps[i].kids))
    && OneListEach(ps)
  }

  lemma {:induction false} AttachRecords(t: seq<Proc>, ps: seq<Pcb>, i: nat, kids: seq<nat>, p: int)
    requires Records(t, ps) && i < |t| && InRange(kids, |t|)
    ensures Records(Attach(t, i, kids, p), ps) && SameNexts(t, Attach(t, i, kids, p))
  {
    forall x: nat | x < |ps| ensures Record(Attach(t, i, kids, p), ps, x) { assert Record(t, ps, x); }
  }

  lemma {:induction false} AdoptRecords(t: seq<Proc>, ps: seq<Pcb>, r: nat)
    requires Records(t, ps) && 2 <= |ps| && r < |t|
    ensures Records(AdoptAll(t, ps[r].kids), Adopt(ps, r)) && SameNexts(t, AdoptAll(t, ps[r].kids))
  {
    forall x: nat | x < |t| ensures Record(AdoptAll(t, ps[r].kids), Adopt(ps, r), x) { assert Record(t, ps, x); }
  }

  lemma {:induction false} ExitedRecords(t: seq<Proc>, k: Kernel, code: int)
    requires Represents(t, k) && k.running > 1
    ensures Records(TableAfterExit(t, k, code), Die(k.procs, k.running, code)) && SameNexts(t, TableAfterExit(t, k, code))
  {
    var r := k.running;
    var t1 := Attach(t, 1, k.procs[1].kids, Nth(k.procs[r].kids, 0));
    AttachRecords(t, k.procs, 1, k.procs[1].kids, Nth(k.procs[r].kids, 0));
    AdoptRecords(t1, k.procs, r);
    hide Adopt, AdoptAll, Attach;
    forall x: nat | x < |t| ensures Record(TableAfterExit(t, k, code), Die(k.procs, r, code), x) {
      assert Record(Bequest(t, k), Adopt(k.procs, r), x);
    }
  }

  lemma {:induction false} ExitedLinks(t: seq<Proc>, k: Kernel, code: int)
    requires Represents(t, k) && k.running > 1 && Lists(k.procs)
    ensures Links(TableAfterExit(t, k, code), Die(k.procs, k.running, code))
  {
    var r, ps, ps' := k.running, k.procs, Die(k.procs, k.running, code);
    var t1, t' := Attach(t, 1, ps[1].kids, Nth(ps[r].kids, 0)), TableAfterExit(t, k, code);
    assert Kids(t, 1, ps[1].kids) && Kids(t, r, ps[r].kids);
    assert NoDup(ps[1].kids) && Disjoint(ps[1].kids, ps[r].kids);
    Attached(t, 1, ps[1].kids, ps[r].kids);
    forall i: nat | i < |ps| ensures Kids(t', i, ps'[i].kids) {
      assert Kids(t, i, ps[i].kids);
      if i == 1 {
        KidsKept(t1, t', 1, ps[1].kids + ps[r].kids);
      } else if i == r {
        assert Kids(t', r, []);
      } else {
        AttachKeeps(t, 1, ps[1].kids, Nth(ps[r].kids, 0), i, ps[i].kids);
        KidsKept(t1, t', i, ps[i].kids);
      }
    }
  }

  // ---------------------------------------------------------------- kwait()

  /** The ZOMBIE at place i of the child list of r is unlinked and becomes FREE. */
  function Unlinked(t: seq<Proc>, r: nat, kids: seq<nat>, i: nat): (t': seq<Proc>)
    requires r < |t| && InRange(kids, |t|) && i < |kids|
    ensures |t'| == |t|
  {
    var z := kids[i];
    var t1 := t[z := t[z].(status := FREE)];
    if i == 0 then t1[r := t1[r].(child := t1[z].sibling)]
    else t1[kids[i - 1] := t1[kids[i - 1]].(sibling := t1[z].sibling)]
  }

  lemma {:induction false} UnlinkedKids(t: seq<Proc>, r: nat, kids: seq<nat>, i: nat)
    requires Kids(t, r, kids) && NoDup(kids) && i < |kids| && r < |t|
    ensures Kids(Unlinked(t, r, kids, i), r, kids[..i] + kids[i + 1..])
  {
    var t', rest := Unlinked(t, r, kids, i), kids[..i] + kids[i + 1..];
    assert Sibling(t, kids, i);
    forall j: nat | j < |rest| ensures Sibling(t', rest, j) {
      var j' := if j < i then j else j + 1;
      assert Sibling(t, kids, j') && rest[j] == kids[j'];
      if i > 0 && j < i - 1 { assert Differ(kids, j, i - 1); }
      if i > 0 && j >= i { assert Differ(kids, i - 1, j'); }
    }
  }

  /** kwait() on the table represents Collect, but for the free list. */
  lemma {:induction false} CollectedTable(t: seq<Proc>, k: Kernel)
    requires Represents(t, k) && HasZombie(k) && Lists(k.procs)
    ensures var kids := k.procs[k.running].kids;
            var t' := Unlinked(t, k.running, kids, ZombieAt(k.procs, kids));
            && Records(t', Collect(k).procs) && Links(t', Collect(k).procs) && SameNexts(t, t')
  {
    var r, ps, ps' := k.running, k.procs, Collect(k).procs;
    var kids := ps[r].kids;
    var at := ZombieAt(ps, kids);
    var t' := Unlinked(t, r, kids, at);
    assert Kids(t, r, ps[r].kids) && NoDup(ps[r].kids);
    UnlinkedKids(t, r, kids, at);
    forall i: nat | i < |ps| ensures Record(t', ps', i) && Kids(t', i, ps'[i].kids) {
      assert Record(t, ps, i) && Kids(t, i, ps[i].kids);
      if i != r {
        assert Disjoint(ps[r].kids, ps[i].kids);
        if at > 0 { assert kids[at - 1] in kids; }
        KidsKept(t, t', i, ps[i].kids);
      }
    }
  }

  /** The FREE PROC that kfork() takes is on no other list. */
  lemma {:induction false} FreeHead(k: Kernel)
    requires Shape(k) && Separate(k) && k.free != []
    ensures k.free[0] !in k.free[1..] && k.free[0] !in k.ready && k.free[0] !in k.asleep
    ensures Disjoint(k.free[1..], k.ready) && Disjoint(k.asleep, k.ready) && NoDup(k.ready)
  {
    assert k.free[0] in k.free;
    forall x ensures x in k.free[1..] <==> x in k.free && x != k.free[0] { TailMembers(k.free, x); }
  }

  /** After the link to P1's list the children of the running PROC are still chained. */
  lemma {:induction false} ChildrenOf(t: seq<Proc>, k: Kernel, t1: seq<Proc>)
    requires Represents(t, k) && Lists(k.procs) && k.running > 1
    requires t1 == Attach(t, 1, k.procs[1].kids, Nth(k.procs[k.running].kids, 0))
    ensures var kids := k.procs[k.running].kids;
            && Kids(t1, k.running, kids) && t1[1].pid == 1
            && forall j: nat {:trigger Sibling(t1, kids, j)} :: j < |kids| ==> Sibling(t1, kids, j)
  {
    var r := k.running;
    assert Record(t, k.procs, 1) && Kids(t, 1, k.procs[1].kids) && Kids(t, r, k.procs[r].kids);
    AttachKeeps(t, 1, k.procs[1].kids, Nth(k.procs[r].kids, 0), r, k.procs[r].kids);
  }

  lemma {:induction false} RunningKept(t: seq<Proc>, k: Kernel, t': seq<Proc>)
    requires Represents(t, k) && k.running > 1 && t' == Bequest(t, k) && k.running !in k.procs[k.running].kids
    ensures t'[k.running].parent == k.procs[k.running].parent
  {
    assert Record(t, k.procs, k.running);
  }

  lemma {:induction false} DieShape(k: Kernel, code: int)
    requires Shape(k) && k.running > 1
    ensures Shape(k.(procs := Die(k.procs, k.running, code)))
  {
  }

  lemma {:induction false} Flip(a: seq<nat>, b: seq<nat>)
    requires Disjoint(a, b)
    ensures Disjoint(b, a)
  {
  }

  // ---------------------------------------------------------------- the loop of do_jesus()

  /** `done` are the ZOMBIEs below i, already READY and in the queue `ready`. */
  predicate RaiseLoop(k: Kernel, i: nat, ready: seq<nat>, done: seq<nat>)
    requires Shape(k)
  {
    && i <= |k.procs| && InRange(ready, |k.procs|)
    && RaiseLists(k, ready, Zombies(k.procs, i))
    && RaiseValues(k, ready, done, Zombies(k.procs, i))
    && forall x :: x in done ==> x < i
  }

  predicate RaiseLists(k: Kernel, ready: seq<nat>, zs: seq<nat>) {
    && NoDup(ready) && Disjoint(k.free, ready) && Disjoint(k.asleep, ready)
    && (forall x :: x in zs ==> x !in ready && x !in k.free && x !in k.asleep)
  }

  predicate RaiseValues(k: Kernel, ready: seq<nat>, done: seq<nat>, zs: seq<nat>)
    requires 1 <= |k.procs| && InRange(k.ready, |k.procs|) && InRange(ready, |k.procs|) && InRange(zs, |k.procs|)
  {
    && InsertAll(k.procs, ready, zs) == InsertAll(k.procs, k.ready, Zombies(k.procs, 1))
    && done + zs == Zombies(k.procs, 1)
  }

  predicate ZombiesApart(k: Kernel) {
    1 <= |k.procs| && forall x :: x in Zombies(k.procs, 1) ==> x !in k.free && x !in k.ready && x !in k.asleep
  }

  lemma {:induction false} RaiseStart(k: Kernel)
    requires Shape(k) && Separate(k) && ZombiesApart(k)
    ensures RaiseLoop(k, 1, k.ready, []) && MakeReady(k.procs, []) == k.procs
  {
    assert [] + Zombies(k.procs, 1) == Zombies(k.procs, 1);
  }

  lemma {:induction false} RaiseStep(k: Kernel, i: nat, ready: seq<nat>, done: seq<nat>)
    requires Shape(k) && RaiseLoop(k, i, ready, done) && i < |k.procs|
    ensures MakeReady(k.procs, done)[i].status == k.procs[i].status
    ensures k.procs[i].status == ZOMBIE ==>
              && i !in ready && i !in k.free && i !in k.asleep
              && RaiseLoop(k, i + 1, Insert(k.procs, ready, i), done + [i])
    ensures k.procs[i].status != ZOMBIE ==> RaiseLoop(k, i + 1, ready, done)
  {
    if k.procs[i].status == ZOMBIE {
      RaiseStepZombie(k, i, ready, done);
    } else {
      assert Zombies(k.procs, i) == Zombies(k.procs, i + 1);
    }
  }

  lemma {:induction false} ZombiesHead(ps: seq<Pcb>, i: nat)
    requires i < |ps| && ps[i].status == ZOMBIE
    ensures Zombies(ps, i) == [i] + Zombies(ps, i + 1) && i in Zombies(ps, i) && i !in Zombies(ps, i + 1)
    ensures forall x :: x in Zombies(ps, i + 1) ==> x in Zombies(ps, i) && x != i
  {
  }

  lemma {:induction false} RaiseStepZombie(k: Kernel, i: nat, ready: seq<nat>, done: seq<nat>)
    requires Shape(k) && RaiseLoop(k, i, ready, done) && i < |k.procs| && k.procs[i].status == ZOMBIE
    ensures i !in ready && i !in k.free && i !in k.asleep
    ensures RaiseLoop(k, i + 1, Insert(k.procs, ready, i), done + [i])
  {
    ZombiesHead(k.procs, i);
    RaiseListsStep(k, ready, i, Zombies(k.procs, i + 1));
    RaiseValuesStep(k, ready, done, i, Zombies(k.procs, i + 1));
    hide RaiseLists, RaiseValues, Insert, Shape;
  }

  lemma {:induction false} RaiseListsStep(k: Kernel, ready: seq<nat>, i: nat, zs: seq<nat>)
    requires InRange(ready, |k.procs|) && i < |k.procs| && RaiseLists(k, ready, [i] + zs) && i !in zs
    ensures i !in ready && i !in k.free && i !in k.asleep && RaiseLists(k, Insert(k.procs, ready, i), zs)
  {
    InsertMembers(k.procs, ready, i);
    assert i in [i] + zs;
    hide Insert, NoDup;
    forall x | x in zs ensures x !in Insert(k.procs, ready, i) && x !in k.free && x !in k.asleep { assert x in [i] + zs; }
  }

  lemma {:induction false} RaiseValuesStep(k: Kernel, ready: seq<nat>, done: seq<nat>, i: nat, zs: seq<nat>)
    requires 1 <= |k.procs| && InRange(k.ready, |k.procs|) && InRange(ready, |k.procs|) && InRange(zs, |k.procs|)
    requires i < |k.procs| && InRange([i] + zs, |k.procs|) && RaiseValues(k, ready, done, [i] + zs)
    ensures RaiseValues(k, Insert(k.procs, ready, i), done + [i], zs)
  {
    InsertAllHead(k.procs, ready, i, zs);
    assert (done + [i]) + zs == done + ([i] + zs);
  }

  lemma {:induction false} RaiseApart(k: Kernel, i: nat, ready: seq<nat>, done: seq<nat>)
    requires Shape(k) && RaiseLoop(k, i, ready, done) && i < |k.procs| && k.procs[i].status == ZOMBIE
    ensures NoDup(ready) && Disjoint(k.free, ready) && Disjoint(k.asleep, ready)
    ensures SamePriority(MakeReady(k.procs, done + [i]), k.procs)
  {
  }

  lemma {:induction false} RaiseDone(t: seq<Proc>, k: Kernel, ready: seq<nat>, done: seq<nat>)
    requires Shape(k) && RaiseLoop(k, |k.procs|, ready, done)
    requires Records(t, MakeReady(k.procs, done)) && Links(t, MakeReady(k.procs, done))
    ensures Represents(t, Raise(k))
    ensures Raise(k) == k.(procs := MakeReady(k.procs, done), ready := ready)
  {
    assert done + [] == done;
  }

  // ---------------------------------------------------------------- what the invariant gives

  lemma {:induction false} CoreSeparate(k: Kernel)
    requires Core(k) && k.procs[k.running].status != FREE
    ensures Separate(k)
  {
    forall x | x in k.free ensures x !in k.ready && x !in k.asleep { assert InPlace(k, x); }
    forall x | x in k.asleep ensures x !in k.ready { assert InPlace(k, x); }
    assert InPlace(k, k.running);
  }

  lemma {:induction false} InvSeparate(k: Kernel)
    requires Inv(k)
    ensures Separate(k) && ZombiesApart(k)
  {
    CoreSeparate(k);
    forall x | x in Zombies(k.procs, 1) ensures x !in k.free && x !in k.ready && x !in k.asleep { assert InPlace(k, x); }
  }

  lemma {:induction false} InvLists(ps: seq<Pcb>)
    requires Family(ps)
    ensures Lists(ps)
  {
    forall i: nat, j: nat | i < |ps| && j < |ps| && i != j ensures Disjoint(ps[i].kids, ps[j].kids) {
      forall x | x in ps[i].kids ensures x !in ps[j].kids {
        KidsAreChildren(ps, i, x);
        KidsAreChildren(ps, j, x);
      }
    }
  }

  lemma {:induction false} InvCanFork(k: Kernel)
    requires Inv(k)
    ensures CanFork(k) && Lists(k.procs) && k.running !in k.procs[k.running].kids
  {
    CoreSeparate(k);
    InvLists(k.procs);
    KidsAreChildren(k.procs, k.running, k.running);
    if k.running != 0 { assert HasParent(k.procs, k.running); }
    if k.free != [] {
      assert k.free[0] in k.free && InPlace(k, k.free[0]);
      FreeIsAlone(k, k.free[0]);
    }
  }

  lemma {:induction false} DieSeparate(k: Kernel, code: int)
    requires Inv(k) && k.running > 1
    ensures Separate(k.(procs := Die(k.procs, k.running, code)))
  {
    CoreSeparate(k);
  }

  lemma {:induction false} DeadApart(k: Kernel)
    requires Inv(k) && HasZombie(k)
    ensures Dead(k) !in k.free && Dead(k) !in k.ready && Dead(k) !in k.asleep
  {
    assert InPlace(k, Dead(k));
  }

  /** The program point is not part of the table. */
  lemma {:induction false} PointHolds(t: seq<Proc>, k: Kernel, at: Point)
    requires Represents(t, k) && Separate(k)
    ensures Represents(t, SetPoint(k, at)) && Separate(SetPoint(k, at))
  {
    forall i: nat | i < |k.procs|
      ensures Record(t, SetPoint(k, at).procs, i) && Kids(t, i, SetPoint(k, at).procs[i].kids)
    {
      assert Record(t, k.procs, i) && Kids(t, i, k.procs[i].kids);
    }
  }

  // ---------------------------------------------------------------- init()

  lemma {:induction false} InitialTable(t: seq<Proc>, table: int, n: nat)
    requires 2 <= n == |t|
    requires forall j :: 0 <= j < n ==>
               t[j] == Proc(if j == n - 1 then NIL else j + 1, j, 0, if j == 0 then READY else FREE, 0, 0, 0, NIL, NIL, NIL)
    ensures Represents(t, Initial(table, n)) && CanFork(Initial(table, n))
    ensures Chain(t, 1, Initial(table, n).free)
  {
    var k := Initial(table, n);
    forall i: nat | i < n ensures Record(t, k.procs, i) && Kids(t, i, k.procs[i].kids) { }
    forall j: nat | j < n - 1 ensures k.free[j] == j + 1 && Next(t, k.free, j) {
      assert Fresh(n)[1..][j] == Fresh(n)[j + 1];
    }
    forall i: nat, j: nat | i < j < n - 1 ensures Differ(k.free, i, j) { }
  }
}
