/** The exit/wait protocol of the MTX kernel, over whole runs. */
module MtxExitWait {
  import opened MtxModel
  import opened MtxQueues
  import opened MtxInvariant
  import opened MtxRuns
  import opened MtxCommands

  // ---------------------------------------------------------------- one call of kwait()

  datatype WaitResult = NoChild | Buried(pid: nat, code: int) | Blocked

  /** What one pass of the loop in kwait() returns. */
  function WaitOutcome(k: Kernel): WaitResult
    requires Shape(k)
  {
    if k.procs[k.running].kids == [] then NoChild
    else if HasZombie(k) then Buried(Dead(k), k.procs[Dead(k)].exitCode)
    else Blocked
  }

  /** kwait() returns -1 exactly when no PROC in use has the caller as its parent; it buries a
      child that is a ZOMBIE; it blocks exactly when there are children and none is dead. */
  lemma {:induction false} KwaitOutcomes(k: Kernel)
    requires Inv(k) && Enabled(k, DoWait)
    ensures WaitOutcome(k) == NoChild <==>
              forall c: nat :: 1 <= c < |k.procs| && k.procs[c].status != FREE ==> k.procs[c].parent != k.running
    ensures WaitOutcome(k) == Blocked <==>
              && (exists c: nat :: 1 <= c < |k.procs| && k.procs[c].status != FREE && k.procs[c].parent == k.running)
              && (forall c: nat :: 1 <= c < |k.procs| && k.procs[c].parent == k.running ==> k.procs[c].status != ZOMBIE)
    ensures WaitOutcome(k) == Blocked <==> Switches(k, DoWait)
  {
    var r := k.running;
    var kids := k.procs[r].kids;
    forall c: nat | 1 <= c < |k.procs|
      ensures c in kids <==> k.procs[c].status != FREE && k.procs[c].parent == r
    {
      KidsAreChildren(k.procs, r, c);
      if k.procs[c].status != FREE { assert HasParent(k.procs, c); }
    }
    if kids != [] {
      KidsAreChildren(k.procs, r, kids[0]);
      assert kids[0] in kids;
    }
    if HasZombie(k) {
      KidsAreChildren(k.procs, r, Dead(k));
    } else {
      forall c: nat | 1 <= c < |k.procs| && k.procs[c].parent == r ensures k.procs[c].status != ZOMBIE {
        if c in kids { var j :| 0 <= j < |kids| && kids[j] == c; }
      }
    }
  }

  /** Burying a child frees its PROC, takes it out of the caller's child list and leaves the
      other children, their order and every other PROC alone. */
  lemma {:induction false} BuryExactlyOne(k: Kernel)
    requires Inv(k) && Enabled(k, DoWait) && WaitOutcome(k).Buried?
    ensures var k', z := Step(k, DoWait), WaitOutcome(k).pid;
            && z < |k.procs| && k.procs[z].status == ZOMBIE && k.procs[z].parent == k.running
            && k'.procs[z].status == FREE && z in k'.free && k'.running == k.running
            && (forall c: nat :: c in k'.procs[k.running].kids <==> c in k.procs[k.running].kids && c != z)
            && (forall p: nat :: p < |k.procs| && p != z && p != k.running ==> k'.procs[p] == k.procs[p])
            && k'.ready == k.ready && k'.asleep == k.asleep
  {
    var r, z := k.running, Dead(k);
    var kids := k.procs[r].kids;
    KidsAreChildren(k.procs, r, z);
    InsertMembers(Collect(k).procs, k.free, z);
    forall c: nat ensures c in Collect(k).procs[r].kids <==> c in kids && c != z {
      RemoveAt(kids, ZombieAt(k.procs, kids), c);
    }
  }

  // ---------------------------------------------------------------- blocked in kwait()

  predicate BlockedInKwait(k: Kernel, p: nat)
    requires p < |k.procs|
  {
    k.procs[p].status == SLEEP && k.procs[p].point == InKwait
  }

  /** In every reachable state a PROC blocked in kwait() has a child, and unless it is P1 it
      has no ZOMBIE child: no exit of a child is missed. */
  lemma {:induction false} NoMissedExit(table: int, n: nat, ops: seq<Op>, p: nat)
    requires 2 <= n && ValidRun(Boot(table, n), ops)
    requires p < |Exec(Boot(table, n), ops).procs| && BlockedInKwait(Exec(Boot(table, n), ops), p)
    ensures var k := Exec(Boot(table, n), ops);
            && k.procs[p].kids != []
            && (p != 1 ==> NoZombieChild(k.procs, p))
  {
    EveryReachableState(table, n, ops);
    assert WaitsWell(Exec(Boot(table, n), ops), p);
  }

  lemma {:induction false} BuryEffect(k: Kernel, code: int, c: nat)
    requires Inv(k) && k.running > 1 && c < |k.procs|
    ensures Bury(k, code).procs[c].status == ZOMBIE <==> c == k.running || k.procs[c].status == ZOMBIE
    ensures Bury(k, code).procs[c].exitCode == if c == k.running then code else k.procs[c].exitCode
  {
    DiePlaces(k, code);
    WakeupEffect(k.(procs := Die(k.procs, k.running, code)), ParentEvent(k), c);
  }

  lemma {:induction false} BuryWakes(k: Kernel, code: int, p: nat)
    requires Inv(k) && k.running > 1 && p < |k.procs|
    requires k.procs[p].status == SLEEP && k.procs[p].event == ParentEvent(k)
    ensures Bury(k, code).procs[p].status == READY
  {
    var m := k.(procs := Die(k.procs, k.running, code));
    assert m.procs[p].status == SLEEP && m.procs[p].event == k.procs[p].event;
    DiePlaces(k, code);
    WakeupEffect(m, ParentEvent(k), p);
  }

  /** A PROC blocked in kwait() is READY again when one of its own children exits. */
  lemma {:induction false} ChildExitWakes(k: Kernel, code: int)
    requires Inv(k) && Enabled(k, DoExit(code)) && k.running > 1
    requires 0 <= k.procs[k.running].parent < |k.procs|
    requires BlockedInKwait(k, k.procs[k.running].parent)
    ensures Step(k, DoExit(code)).procs[k.procs[k.running].parent].status == READY
    ensures Step(k, DoExit(code)).procs[k.running].status == ZOMBIE
    ensures Step(k, DoExit(code)).procs[k.running].exitCode == code
  {
    assert WaitsWell(k, k.procs[k.running].parent);
    BuryWakes(k, code, k.procs[k.running].parent);
    BuryEffect(k, code, k.running);
    StepProcs(k, DoExit(code));
  }

  /** Why P1 is excepted: a PROC that exits below another parent hands its dead children to a
      P1 that is asleep in kwait() without waking it. */
  lemma {:induction false} AdoptionDoesNotWakeP1(k: Kernel, code: int, z: nat)
    requires Inv(k) && Enabled(k, DoExit(code)) && k.running > 1 && BlockedInKwait(k, 1)
    requires k.procs[k.running].parent != 1
    requires z in k.procs[k.running].kids && z < |k.procs| && k.procs[z].status == ZOMBIE
    ensures BlockedInKwait(Step(k, DoExit(code)), 1)
    ensures !NoZombieChild(Step(k, DoExit(code)).procs, 1)
  {
    var k' := Step(k, DoExit(code));
    ExitDoes(k, code);
    assert WaitsWell(k, 1) && HasParent(k.procs, k.running);
    assert k'.procs[1] == AfterExit(k, code, 1) && k'.procs[z] == AfterExit(k, code, z);
    hide Inv;
    assert z in k'.procs[1].kids && k'.procs[z].status == ZOMBIE;
  }

  /** P1 sleeps in kwait() beside a dead child. */
  predicate P1Misses(k: Kernel)
    requires Shape(k)
  {
    BlockedInKwait(k, 1) && !NoZombieChild(k.procs, 1)
  }

  /** Over any command, P1 comes to miss a dead child exactly when it is blocked in kwait() and a
      PROC exits that is not its own child and has a dead child to hand over. */
  lemma {:induction false} P1MissesIff(k: Kernel, op: Op)
    requires Inv(k) && Enabled(k, op) && !P1Misses(k)
    ensures P1Misses(Step(k, op)) <==>
            && BlockedInKwait(k, 1) && op.DoExit? && k.running > 1
            && k.procs[k.running].parent != 1 && !NoZombieChild(k.procs, k.running)
  {
    if op.DoExit? && k.running > 1 {
      if BlockedInKwait(k, 1) { P1MissesExitIff(k, op.code); } else { StaysUnblocked(k, op); }
    } else {
      OthersMissNothing(k, op);
    }
  }

  /** Only the running PROC falls asleep. */
  lemma {:induction false} StaysUnblocked(k: Kernel, op: Op)
    requires Inv(k) && Enabled(k, op) && op.DoExit? && k.running > 1 && !BlockedInKwait(k, 1)
    ensures !BlockedInKwait(Step(k, op), 1)
  {
    DiePlaces(k, op.code);
    WakeupEffect(k.(procs := Die(k.procs, k.running, op.code)), ParentEvent(k), 1);
    StepProcs(k, op);
  }

  lemma {:induction false} OthersMissNothing(k: Kernel, op: Op)
    requires Inv(k) && Enabled(k, op) && !(op.DoExit? && k.running > 1) && !P1Misses(k)
    ensures !P1Misses(Step(k, op))
  {
    StepProcs(k, op);
    match op
    case DoFork => ForkMissesNothing(k);
    case DoSwitch =>
    case DoExit(_) =>
    case DoSleep(_) =>
    case DoWakeup(event) =>
      forall c: nat | c < |k.procs| ensures Wakeup(k, event).procs[c].status == ZOMBIE ==> k.procs[c].status == ZOMBIE {
        WakeupEffect(k, event, c);
      }
      WakeupEffect(k, event, 1);
    case DoJesus =>
    case DoWait => WaitMissesNothing(k);
  }

  lemma {:induction false} ForkMissesNothing(k: Kernel)
    requires Inv(k) && k.running != 0 && k.procs[k.running].point == AtPrompt && !P1Misses(k)
    ensures !P1Misses(Fork(k))
  {
    if k.free != [] && k.running != 1 {
      var p := k.free[0];
      assert p in k.free && InPlace(k, p);
      assert InPlace(k, 1) && InPlace(k, k.running);
    }
  }

  lemma {:induction false} WaitMissesNothing(k: Kernel)
    requires Inv(k) && Enabled(k, DoWait) && !P1Misses(k)
    ensures !P1Misses(Before(k, DoWait))
  {
    var r, kids := k.running, k.procs[k.running].kids;
    assert InPlace(k, 1) && InPlace(k, r);
    if HasZombie(k) { KidsAreChildren(k.procs, r, Dead(k)); }
    if r == 1 && !HasZombie(k) {
      forall c: nat | c in kids && c < |k.procs| ensures k.procs[c].status != ZOMBIE {
        var j :| 0 <= j < |kids| && kids[j] == c;
      }
    }
  }

  lemma {:induction false} P1MissesExitIff(k: Kernel, code: int)
    requires Inv(k) && Enabled(k, DoExit(code)) && k.running > 1
    requires BlockedInKwait(k, 1) && NoZombieChild(k.procs, 1)
    ensures P1Misses(Step(k, DoExit(code))) <==> k.procs[k.running].parent != 1 && !NoZombieChild(k.procs, k.running)
  {
    var r, k' := k.running, Step(k, DoExit(code));
    if k.procs[r].parent == 1 {
      ChildExitWakes(k, code);
    } else if !NoZombieChild(k.procs, r) {
      var z :| z in k.procs[r].kids && z < |k.procs| && k.procs[z].status == ZOMBIE;
      AdoptionDoesNotWakeP1(k, code, z);
    } else {
      KidsAfterExit(k, code);
      forall z | z in k'.procs[1].kids && z < |k'.procs| ensures k'.procs[z].status != ZOMBIE {
        BuryEffect(k, code, z);
        StepProcs(k, DoExit(code));
        KidsAreChildren(k.procs, 1, r);
        KidsAreChildren(k.procs, r, r);
        assert HasParent(k.procs, r);
      }
    }
  }

  lemma {:induction false} KidsAfterExit(k: Kernel, code: int)
    requires Inv(k) && Enabled(k, DoExit(code)) && k.running > 1
    ensures Step(k, DoExit(code)).procs[1].kids == k.procs[1].kids + k.procs[k.running].kids
  {
    DiePlaces(k, code);
    WakeupEffect(k.(procs := Die(k.procs, k.running, code)), ParentEvent(k), 1);
    StepProcs(k, DoExit(code));
  }

  // ---------------------------------------------------------------- the exit log

  datatype Event = Exited(pid: nat, code: int) | Collected(pid: nat, code: int, parent: nat) | Raised(pid: nat)

  datatype Option<T> = None | Some(value: T)

  function RaisedAll(zs: seq<nat>): seq<Event> {
    if zs == [] then [] else [Raised(zs[0])] + RaisedAll(zs[1..])
  }

  /** The exits, burials and revivals of one command, in order. */
  function Events(k: Kernel, op: Op): seq<Event>
    requires Shape(k)
  {
    match op
    case DoExit(code) => if k.running == 1 then [] else [Exited(k.running, code)]
    case DoJesus => RaisedAll(Zombies(k.procs, 1))
    case DoWait =>
      (match WaitOutcome(k)
       case Buried(pid, code) => [Collected(pid, code, k.running)]
       case _ => [])
    case _ => []
  }

  function Log(k: Kernel, ops: seq<Op>): seq<Event>
    requires Shape(k)
    decreases |ops|
  {
    if ops == [] then [] else Events(k, ops[0]) + Log(Step(k, ops[0]), ops[1..])
  }

  /** The last thing that the log says about c. */
  function Last(log: seq<Event>, c: nat): Option<Event> {
    if log == [] then None
    else if log[|log| - 1].pid == c then Some(log[|log| - 1])
    else Last(log[..|log| - 1], c)
  }

  /** The log knows who is a ZOMBIE, and with which exit code. */
  predicate Tells(k: Kernel, log: seq<Event>) {
    forall c: nat :: c < |k.procs| ==> TellsOf(k, log, c)
  }

  predicate TellsOf(k: Kernel, log: seq<Event>, c: nat)
    requires c < |k.procs|
  {
    if k.procs[c].status == ZOMBIE then Last(log, c) == Some(Exited(c, k.procs[c].exitCode))
    else !(Last(log, c).Some? && Last(log, c).value.Exited?)
  }

  /** A burial or revival in the log undoes the exit before it, with the same code; an exit
      comes from a PROC whose last exit, if any, has been undone. */
  predicate Undoes(log: seq<Event>, i: nat)
    requires i < |log|
  {
    var before := Last(log[..i], log[i].pid);
    match log[i]
    case Exited(_, _) => !(before.Some? && before.value.Exited?)
    case Collected(c, code, _) => before == Some(Exited(c, code))
    case Raised(_) => before.Some? && before.value.Exited?
  }

  predicate Alternates(log: seq<Event>) {
    forall i: nat :: i < |log| ==> Undoes(log, i)
  }

  lemma {:induction false} AlternatesAppend(log: seq<Event>, e: Event)
    requires Alternates(log) && Undoes(log + [e], |log|)
    ensures Alternates(log + [e])
  {
    forall i: nat | i < |log + [e]| ensures Undoes(log + [e], i) {
      if i < |log| {
        assert Undoes(log, i);
        assert (log + [e])[..i] == log[..i];
      }
    }
  }

  lemma {:induction false} LastAppend(log: seq<Event>, e: Event, c: nat)
    ensures Last(log + [e], c) == if e.pid == c then Some(e) else Last(log, c)
  {
    assert (log + [e])[..|log|] == log;
  }

  lemma {:induction false} RaisedCons(log: seq<Event>, zs: seq<nat>)
    requires zs != []
    ensures log + RaisedAll(zs) == (log + [Raised(zs[0])]) + RaisedAll(zs[1..])
  {
  }

  lemma {:induction false} LastRaised(log: seq<Event>, zs: seq<nat>, c: nat)
    ensures Last(log + RaisedAll(zs), c) == if c in zs then Some(Raised(c)) else Last(log, c)
    decreases |zs|
  {
    if zs == [] {
      assert log + RaisedAll(zs) == log;
    } else {
      var e, more := Raised(zs[0]), zs[1..];
      assert zs == [zs[0]] + more;
      RaisedCons(log, zs);
      LastAppend(log, e, c);
      hide Last, RaisedAll;
      LastRaised(log + [e], more, c);
    }
  }

  lemma {:induction false} RaisedLast(ps: seq<Pcb>, i: nat, log: seq<Event>, c: nat)
    requires i <= |ps|
    ensures Last(log + RaisedAll(Zombies(ps, i)), c) ==
              if i <= c < |ps| && ps[c].status == ZOMBIE then Some(Raised(c)) else Last(log, c)
  {
    LastRaised(log, Zombies(ps, i), c);
  }

  lemma {:induction false} RaisedSplit(ps: seq<Pcb>, i: nat, log: seq<Event>)
    requires i < |ps| && ps[i].status == ZOMBIE
    ensures log + RaisedAll(Zombies(ps, i)) == (log + [Raised(i)]) + RaisedAll(Zombies(ps, i + 1))
  {
    assert Zombies(ps, i)[1..] == Zombies(ps, i + 1);
  }

  lemma {:induction false} RaisedAlternate(ps: seq<Pcb>, i: nat, log: seq<Event>)
    requires i <= |ps| && Alternates(log)
    requires forall c: nat :: i <= c < |ps| && ps[c].status == ZOMBIE ==>
               Last(log, c).Some? && Last(log, c).value.Exited?
    ensures Alternates(log + RaisedAll(Zombies(ps, i)))
    decreases |ps| - i
  {
    if i == |ps| {
      assert log + RaisedAll(Zombies(ps, i)) == log;
    } else if ps[i].status == ZOMBIE {
      var log' := log + [Raised(i)];
      assert log'[..|log|] == log;
      AlternatesAppend(log, Raised(i));
      forall c: nat | i + 1 <= c < |ps| && ps[c].status == ZOMBIE
        ensures Last(log', c).Some? && Last(log', c).value.Exited?
      {
        LastAppend(log, Raised(i), c);
      }
      RaisedAlternate(ps, i + 1, log');
      RaisedSplit(ps, i, log);
    } else {
      assert Zombies(ps, i) == Zombies(ps, i + 1);
      RaisedAlternate(ps, i + 1, log);
    }
  }

  lemma {:induction false} TellsSame(k: Kernel, k': Kernel, log: seq<Event>)
    requires Tells(k, log) && |k'.procs| == |k.procs|
    requires forall c :: 0 <= c < |k.procs| ==>
               && (k'.procs[c].status == ZOMBIE <==> k.procs[c].status == ZOMBIE)
               && k'.procs[c].exitCode == k.procs[c].exitCode
    ensures Tells(k', log)
  {
    forall c: nat | c < |k.procs| ensures TellsOf(k', log, c) { assert TellsOf(k, log, c); }
  }

  /** One more event about p: only what the log says of p changes. */
  lemma {:induction false} TellsEvent(k: Kernel, k': Kernel, log: seq<Event>, e: Event)
    requires Tells(k, log) && Alternates(log) && |k'.procs| == |k.procs| && e.pid < |k.procs|
    requires Undoes(log + [e], |log|) && TellsOf(k', log + [e], e.pid)
    requires forall c :: 0 <= c < |k.procs| && c != e.pid ==>
               && (k'.procs[c].status == ZOMBIE <==> k.procs[c].status == ZOMBIE)
               && k'.procs[c].exitCode == k.procs[c].exitCode
    ensures Tells(k', log + [e]) && Alternates(log + [e])
  {
    AlternatesAppend(log, e);
    forall c: nat | c < |k.procs| ensures TellsOf(k', log + [e], c) {
      assert TellsOf(k, log, c);
      LastAppend(log, e, c);
    }
  }

  lemma {:induction false} TellsExit(k: Kernel, code: int, log: seq<Event>)
    requires Inv(k) && k.running > 1 && Tells(k, log) && Alternates(log)
    ensures Tells(Bury(k, code), log + [Exited(k.running, code)])
    ensures Alternates(log + [Exited(k.running, code)])
  {
    var e := Exited(k.running, code);
    assert (log + [e])[..|log|] == log;
    assert TellsOf(k, log, k.running);
    LastAppend(log, e, k.running);
    forall c: nat | c < |k.procs|
      ensures Bury(k, code).procs[c].status == ZOMBIE <==> c == k.running || k.procs[c].status == ZOMBIE
      ensures Bury(k, code).procs[c].exitCode == if c == k.running then code else k.procs[c].exitCode
    {
      BuryEffect(k, code, c);
    }
    TellsEvent(k, Bury(k, code), log, e);
  }

  lemma {:induction false} TellsCollect(k: Kernel, log: seq<Event>)
    requires Inv(k) && HasZombie(k) && Tells(k, log) && Alternates(log)
    ensures var e := Collected(Dead(k), k.procs[Dead(k)].exitCode, k.running);
            Tells(Collect(k), log + [e]) && Alternates(log + [e])
  {
    var z := Dead(k);
    var e := Collected(z, k.procs[z].exitCode, k.running);
    assert (log + [e])[..|log|] == log;
    assert TellsOf(k, log, z);
    LastAppend(log, e, z);
    TellsEvent(k, Collect(k), log, e);
  }

  lemma {:induction false} TellsRaise(k: Kernel, log: seq<Event>)
    requires Inv(k) && Tells(k, log) && Alternates(log)
    ensures Tells(Raise(k), log + Events(k, DoJesus)) && Alternates(log + Events(k, DoJesus))
  {
    forall c: nat | 1 <= c < |k.procs| && k.procs[c].status == ZOMBIE
      ensures Last(log, c).Some? && Last(log, c).value.Exited?
    {
      assert TellsOf(k, log, c);
    }
    RaisedAlternate(k.procs, 1, log);
    forall c: nat | c < |k.procs| ensures TellsOf(Raise(k), log + Events(k, DoJesus), c) {
      assert TellsOf(k, log, c);
      RaisedLast(k.procs, 1, log, c);
    }
  }

  lemma {:induction false} TellsStep(k: Kernel, op: Op, log: seq<Event>)
    requires Inv(k) && Enabled(k, op) && Tells(k, log) && Alternates(log)
    ensures Tells(Step(k, op), log + Events(k, op)) && Alternates(log + Events(k, op))
  {
    StepProcs(k, op);
    if op.DoExit? && k.running != 1 {
      TellsExit(k, op.code, log);
      TellsSame(Bury(k, op.code), Step(k, op), log + Events(k, op));
    } else if op.DoWait? && WaitOutcome(k).Buried? {
      TellsCollect(k, log);
    } else if op.DoJesus? {
      TellsRaise(k, log);
    } else {
      assert log + Events(k, op) == log;
      TellsQuiet(k, op, log);
    }
  }

  lemma {:induction false} TellsQuiet(k: Kernel, op: Op, log: seq<Event>)
    requires Inv(k) && Enabled(k, op) && Tells(k, log) && Events(k, op) == [] && !op.DoJesus?
    ensures Tells(Step(k, op), log)
  {
    StepProcs(k, op);
    forall c: nat | c < |k.procs|
      ensures Step(k, op).procs[c].status == ZOMBIE <==> k.procs[c].status == ZOMBIE
      ensures Step(k, op).procs[c].exitCode == k.procs[c].exitCode
    {
      QuietEffect(k, op, c);
    }
    TellsSame(k, Step(k, op), log);
  }

  lemma {:induction false} QuietEffect(k: Kernel, op: Op, c: nat)
    requires Inv(k) && Enabled(k, op) && Events(k, op) == [] && !op.DoJesus? && c < |k.procs|
    ensures Before(k, op).procs[c].status == ZOMBIE <==> k.procs[c].status == ZOMBIE
    ensures Before(k, op).procs[c].exitCode == k.procs[c].exitCode
  {
    if op.DoWakeup? { WakeupEffect(k, op.event, c); }
    if op.DoFork? && k.free != [] { assert InPlace(k, k.free[0]); }
  }

  lemma {:induction false} LogSplit(k: Kernel, ops: seq<Op>, log: seq<Event>)
    requires Shape(k) && ops != []
    ensures log + Log(k, ops) == (log + Events(k, ops[0])) + Log(Step(k, ops[0]), ops[1..])
  {
    var a, b := Events(k, ops[0]), Log(Step(k, ops[0]), ops[1..]);
    assert Log(k, ops) == a + b;
    hide *;
    assert log + (a + b) == (log + a) + b;
  }

  lemma {:induction false} TellsRun(k: Kernel, ops: seq<Op>, log: seq<Event>)
    requires Inv(k) && ValidRun(k, ops) && Tells(k, log) && Alternates(log)
    ensures Tells(Exec(k, ops), log + Log(k, ops)) && Alternates(log + Log(k, ops))
    decreases |ops|
  {
    if ops == [] {
      assert log + Log(k, ops) == log;
    } else {
      var k', log' := Step(k, ops[0]), log + Events(k, ops[0]);
      TellsStep(k, ops[0], log);
      StepKeeps(k, ops[0]);
      LogSplit(k, ops, log);
      TellsRun(k', ops[1..], log');
      assert Exec(k, ops) == Exec(k', ops[1..]);
    }
  }

  lemma {:induction false} BootNoZombie(table: int, n: nat)
    requires 2 <= n
    ensures Tells(Boot(table, n), []) && Alternates([])
  {
    assert Initial(table, n).free[0] == 1;
    forall c: nat | c < n ensures TellsOf(Boot(table, n), [], c) { }
  }

  /** The exit/wait protocol: in the log of every run each burial names the pid and exit code
      of an earlier kexit() of that PROC that nothing has undone since, so each exit is
      collected at most once, and the PROCs whose exit is still open are the ZOMBIEs. */
  lemma {:induction false} ExitsAreCollectedOnce(table: int, n: nat, ops: seq<Op>)
    requires 2 <= n && ValidRun(Boot(table, n), ops)
    ensures Alternates(Log(Boot(table, n), ops))
    ensures Tells(Exec(Boot(table, n), ops), Log(Boot(table, n), ops))
  {
    var k := Boot(table, n);
    BootHolds(table, n);
    BootNoZombie(table, n);
    hide *;
    TellsRun(k, ops, []);
    assert [] + Log(k, ops) == Log(k, ops);
  }
}
