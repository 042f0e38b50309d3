/** Context switching in MTX: PreLab3/Code/ts.s, and the stack that kfork() builds for a new
    PROC (PreLab3/Code/t.c).  A stack pointer is an index into the stack of its PROC. */
module MtxSwitch {

  const SSIZE := 1024

  datatype Regs = Regs(eax: int, ebx: int, ecx: int, edx: int, ebp: int, esi: int, edi: int, flags: int)

  /** What a PROC can observe of itself: its registers, where it goes on, and its stack. */
  datatype Context = Context(regs: Regs, pc: int, stack: seq<int>)

  /** The context that nine words on a stack stand for. */
  function Saved(s: seq<int>, sp: nat): (c: Context)
    requires sp + 9 <= |s|
  {
    Context(Regs(s[sp + 7], s[sp + 6], s[sp + 5], s[sp + 4], s[sp + 3], s[sp + 2], s[sp + 1], s[sp]),
            s[sp + 8], s[sp + 9..])
  }

  /** The nine cells, the flags in the lowest. */
  lemma {:induction false} SavedIs(s: seq<int>, sp: nat, r: Regs, pc: int, rest: seq<int>)
    requires sp <= |s| && s[sp..] == [r.flags, r.edi, r.esi, r.ebp] + ([r.edx, r.ecx, r.ebx, r.eax] + ([pc] + rest))
    ensures sp + 9 <= |s| && Saved(s, sp) == Context(r, pc, rest)
    ensures s[sp..sp + 9] == [r.flags, r.edi, r.esi, r.ebp, r.edx, r.ecx, r.ebx, r.eax, pc]
  {
    var top := s[sp..];
    assert |top| == 9 + |rest| && top[9..] == rest && s[sp + 9..] == top[9..];
    assert forall i :: 0 <= i < 9 ==> s[sp + i] == top[i];
  }

  /** Only the part of a stack from sp on is in use. */
  predicate SameAbove(s: seq<int>, s': seq<int>, sp: nat) {
    |s| == |s'| && sp <= |s| && s[sp..] == s'[sp..]
  }

  lemma {:induction false} SavedAbove(s: seq<int>, s': seq<int>, sp: nat)
    requires sp + 9 <= |s| && SameAbove(s, s', sp)
    ensures Saved(s, sp) == Saved(s', sp)
  {
    forall i | sp <= i < |s| ensures s[i] == s'[i] {
      assert s[i] == s[sp..][i - sp] && s'[i] == s'[sp..][i - sp];
    }
    assert s[sp + 9..] == s'[sp + 9..];
  }

  class Machine {
    var regs: Regs
    var esp: nat
    var running: nat
    /** PROC.ksp and the stack of each PROC. */
    var ksp: seq<nat>
    var stack: seq<seq<int>>

    ghost predicate Valid()
      reads this
    {
      && |ksp| == |stack| && running < |stack| && esp <= SSIZE
      && (forall p :: 0 <= p < |stack| ==> |stack[p]| == SSIZE)
      && forall p :: 0 <= p < |stack| && p != running ==> ksp[p] + 9 <= SSIZE
    }

    ghost function Now(pc: int): Context
      requires Valid()
      reads this
    {
      Context(regs, pc, stack[running][esp..])
    }

    /** The contexts of all PROCs, when the running one is about to go on at pc. */
    ghost function Contexts(pc: int): (cs: seq<Context>)
      requires Valid()
      reads this
      ensures |cs| == |stack|
    {
      seq(|stack|, p requires 0 <= p < |stack| && Valid() reads this => if p == running then Now(pc) else Of(p))
    }

    ghost function Of(p: nat): Context
      requires Valid() && p < |stack| && p != running
      reads this
    {
      Saved(stack[p], ksp[p])
    }

    constructor (regs: Regs, stacks: seq<seq<int>>, ksp: seq<nat>, running: nat, esp: nat)
      requires |ksp| == |stacks| && running < |stacks| && esp <= SSIZE
      requires forall p :: 0 <= p < |stacks| ==> |stacks[p]| == SSIZE
      requires forall p :: 0 <= p < |stacks| && p != running ==> ksp[p] + 9 <= SSIZE
      ensures Valid() && this.regs == regs && this.stack == stacks && this.ksp == ksp
      ensures this.running == running && this.esp == esp
    {
      this.regs, this.stack, this.ksp, this.running, this.esp := regs, stacks, ksp, running, esp;
    }

    method Push(v: int)
      requires running < |stack| && 0 < esp <= |stack[running]|
      modifies this`esp, this`stack
      ensures esp == old(esp) - 1
      ensures stack == old(stack)[running := old(stack[running])[old(esp) - 1 := v]]
    {
      esp := esp - 1;
      stack := stack[running := stack[running][esp := v]];
    }

    method Pop() returns (v: int)
      requires running < |stack| && esp < |stack[running]|
      modifies this`esp
      ensures esp == old(esp) + 1 && v == stack[running][old(esp)]
    {
      v := stack[running][esp];
      esp := esp + 1;
    }

    /** SAVE: the return address of the call, the registers and the flags. */
    method Save(pc: int)
      requires Valid() && 9 <= esp
      modifies this`esp, this`stack
      ensures Valid() && esp == old(esp) - 9
      ensures |stack| == |old(stack)| && |stack[running]| == |old(stack[running])|
      ensures forall p :: 0 <= p < |stack| && p != running ==> stack[p] == old(stack[p])
      ensures Saved(stack[running], esp) == old(Now(pc))
      ensures stack[running][esp..esp + 9]
              == [regs.flags, regs.edi, regs.esi, regs.ebp, regs.edx, regs.ecx, regs.ebx, regs.eax, pc]
    {
      ghost var s, e := stack[running], esp;
      Push(pc);
      assert stack[running][esp..] == [pc] + s[e..];
      PushFour(regs.eax, regs.ebx, regs.ecx, regs.edx);
      PushFour(regs.ebp, regs.esi, regs.edi, regs.flags);
      SavedIs(stack[running], esp, regs, pc, s[e..]);
    }

    /** Four of the pushes. */
    method PushFour(a: int, b: int, c: int, d: int)
      requires running < |stack| && 4 <= esp <= |stack[running]|
      modifies this`esp, this`stack
      ensures esp == old(esp) - 4 && |stack| == |old(stack)| && |stack[running]| == |old(stack[running])|
      ensures forall p :: 0 <= p < |stack| && p != running ==> stack[p] == old(stack[p])
      ensures stack[running][esp..] == [d, c, b, a] + old(stack[running])[old(esp)..]
    {
      Push(a);
      Push(b);
      Push(c);
      Push(d);
    }

    /** RESUME: the flags and registers in the opposite order, then ret. */
    method Resume() returns (pc: int)
      requires running < |stack| && |ksp| == |stack| && ksp[running] + 9 <= |stack[running]|
      modifies this`esp, this`regs
      ensures esp == ksp[running] + 9
      ensures Context(regs, pc, stack[running][esp..]) == Saved(stack[running], ksp[running])
    {
      regs := regs.(ebx := running);
      esp := ksp[running];
      PopFlags();
      PopRegisters();
      pc := Pop();
    }

    /** popfl and the first three registers. */
    method PopFlags()
      requires running < |stack| && esp + 4 <= |stack[running]|
      modifies this`esp, this`regs
      ensures esp == old(esp) + 4
      ensures regs == var s, e := stack[running], old(esp);
                      old(regs).(flags := s[e], edi := s[e + 1], esi := s[e + 2], ebp := s[e + 3])
    {
      var v := Pop();
      regs := regs.(flags := v);
      v := Pop();
      regs := regs.(edi := v);
      v := Pop();
      regs := regs.(esi := v);
      v := Pop();
      regs := regs.(ebp := v);
    }

    /** The other four registers. */
    method PopRegisters()
      requires running < |stack| && esp + 4 <= |stack[running]|
      modifies this`esp, this`regs
      ensures esp == old(esp) + 4
      ensures regs == var s, e := stack[running], old(esp);
                      old(regs).(edx := s[e], ecx := s[e + 1], ebx := s[e + 2], eax := s[e + 3])
    {
      var v := Pop();
      regs := regs.(edx := v);
      v := Pop();
      regs := regs.(ecx := v);
      v := Pop();
      regs := regs.(ebx := v);
      v := Pop();
      regs := regs.(eax := v);
    }

    /** tswitch(), called from pc, when scheduler() picks `next`.  scheduler() may leave
        anything in the registers and in the unused part of the stack it runs on. */
    method Switch(pc: int, next: nat, junk: Regs, below: seq<int>) returns (pc': int)
      requires Valid() && 9 <= esp && next < |stack| && |below| == esp - 9
      modifies this
      ensures Valid() && running == next && |stack| == |old(stack)|
      ensures Contexts(pc') == old(Contexts(pc))
    {
      ghost var before, left := Contexts(pc), running;
      Save(pc);
      regs := regs.(ebx := running);
      ksp := ksp[running := esp];
      ghost var s := stack[running];
      regs := junk;
      stack := stack[running := below + stack[running][esp..]];
      assert stack[running][esp..] == s[esp..];
      SavedAbove(s, stack[running], esp);
      running := next;
      pc' := Resume();
      forall p: nat | p < |stack| ensures Contexts(pc')[p] == before[p] {
        if p == left && p != next { assert Of(p) == before[p]; }
        else if p == next { assert Now(pc') == before[p]; }
        else { assert Of(p) == before[p]; }
      }
    }

    /** kfork(): the cells of the new PROC's stack, and its saved stack pointer. */
    method NewStack(p: nat, name: int, body: int)
      requires Valid() && p < |stack| && p != running
      modifies this`stack, this`ksp
      ensures Valid() && |stack| == |old(stack)| && Of(p) == Fresh(name, body)
      ensures forall q :: 0 <= q < |stack| && q != p ==> stack[q] == old(stack[q]) && ksp[q] == old(ksp[q])
      ensures stack[p][..ksp[p]] == old(stack[p])[..ksp[p]]
      ensures ksp[p] == SSIZE - 11 && stack[p][SSIZE - 11..] == [0, 0, 0, 0, 0, 0, 0, 0, body, 0, name]
    {
      ghost var s := stack;
      for i := 1 to 12
        invariant |stack| == |s| && ksp == old(ksp) && |stack[p]| == SSIZE
        invariant forall q :: 0 <= q < |s| && q != p ==> stack[q] == s[q]
        invariant forall j :: SSIZE - i < j < SSIZE ==> stack[p][j] == 0
        invariant forall j :: 0 <= j <= SSIZE - i ==> stack[p][j] == s[p][j]
      {
        stack := stack[p := stack[p][SSIZE - i := 0]];
      }
      stack := stack[p := stack[p][SSIZE - 1 := name]];
      stack := stack[p := stack[p][SSIZE - 3 := body]];
      ksp := ksp[p := SSIZE - 11];
      assert stack[p][SSIZE - 2..] == [0, name];
    }

    /** The kfork() calls of one turn. */
    method Fork(forks: seq<Born>, body: int, ghost pc: int)
      requires Valid() && ForksOk(forks, |stack|, running)
      modifies this`stack, this`ksp
      ensures Valid() && |stack| == |old(stack)| && stack[running] == old(stack[running])
      ensures Contexts(pc) == Forked(old(Contexts(pc)), forks, body)
    {
      ghost var cs0 := Contexts(pc);
      var rest := forks;
      while rest != []
        invariant Valid() && |stack| == |cs0| && ForksOk(rest, |stack|, running) && stack[running] == old(stack[running])
        invariant Forked(Contexts(pc), rest, body) == Forked(cs0, forks, body)
        decreases |rest|
      {
        ghost var cs := Contexts(pc);
        NewStack(rest[0].p, rest[0].name, body);
        assert Contexts(pc) == cs[rest[0].p := Fresh(rest[0].name, body)];
        rest := rest[1..];
      }
    }

    /** One turn: the running PROC makes new PROCs, does what it likes with its registers, its
        stack pointer and its own stack, and calls tswitch(). */
    method TakeTurn(t: Turn, body: int, ghost pc: int) returns (pc': int)
      requires Valid() && TurnOk(t, |stack|, running)
      modifies this
      ensures Valid() && |stack| == |old(stack)| && running == t.next
      ensures World(running, Contexts(pc')) == Take(World(old(running), old(Contexts(pc))), t, body)
    {
      Fork(t.forks, body, pc);
      ghost var cs := Contexts(pc);
      regs, esp, stack := t.regs, t.esp, stack[running := t.own];
      forall p: nat | p < |stack| ensures Contexts(t.pc)[p] == cs[running := Left(t)][p] {
        if p == running { assert Now(t.pc) == Left(t); } else { assert Of(p) == cs[p]; }
      }
      assert Contexts(t.pc) == cs[running := Left(t)];
      pc' := Switch(t.pc, t.next, t.junk, t.below);
    }

    /** Any turns: what happens on the stacks is what Play says of the contexts. */
    method Turns(ts: seq<Turn>, body: int, pc: int) returns (pc': int)
      requires Valid() && TurnsOk(ts, |stack|, running)
      modifies this
      ensures Valid() && |stack| == |old(stack)|
      ensures World(running, Contexts(pc')) == Play(World(old(running), old(Contexts(pc))), ts, body)
    {
      ghost var w := World(running, Contexts(pc));
      var rest := ts;
      pc' := pc;
      while rest != []
        invariant Valid() && |stack| == |w.contexts| && TurnsOk(rest, |stack|, running)
        invariant Play(World(running, Contexts(pc')), rest, body) == Play(w, ts, body)
        decreases |rest|
      {
        pc' := TakeTurn(rest[0], body, pc');
        rest := rest[1..];
      }
    }

    /** Switching is transparent: a PROC that leaves the CPU in its turn `first` and is resumed
        after any turns of other PROCs finds exactly the context in which it left, if it was
        not made anew meanwhile. */
    method SwitchBack(first: Turn, ts: seq<Turn>, body: int, pc: int) returns (pc': int)
      requires Valid() && TurnsOk([first] + ts, |stack|, running)
      requires ResumesLast(first.next, ts, running)
      requires forall i :: 0 <= i < |ts| ==> !Forks(ts[i], running)
      modifies this
      ensures Valid() && running == old(running) && Now(pc') == Left(first)
    {
      ghost var p, w := running, World(running, Contexts(pc));
      assert ([first] + ts)[1..] == ts;
      pc' := Turns([first] + ts, body, pc);
      ResumedAsLeft(Take(w, first, body), ts, p, body);
      assert Contexts(pc')[p] == Now(pc');
    }

    /** A PROC that is made in the turn `first` starts, after any number of turns of others, in
        body() as if body(name) had been called: the name is the argument above a return
        address of 0. */
    method FirstResume(first: Turn, ts: seq<Turn>, p: nat, name: int, body: int, pc: int) returns (pc': int)
      requires Valid() && TurnsOk([first] + ts, |stack|, running) && Makes(first, p, name)
      requires ResumesLast(first.next, ts, p)
      requires forall i :: 0 <= i < |ts| ==> !Forks(ts[i], p)
      modifies this
      ensures Valid() && running == p && pc' == body && regs == Regs(0, 0, 0, 0, 0, 0, 0, 0)
      ensures esp + 2 == SSIZE && stack[p][esp] == 0 && stack[p][esp + 1] == name
    {
      ghost var w := World(running, Contexts(pc));
      assert ([first] + ts)[1..] == ts && TurnOk(first, |stack|, running);
      MadeIsFresh(w.contexts, first.forks, p, name, body);
      pc' := Turns([first] + ts, body, pc);
      ResumedAsLeft(Take(w, first, body), ts, p, body);
      assert Contexts(pc')[p] == Now(pc');
      ghost var top := stack[p][esp..];
      assert top == [0, name];
      assert stack[p][esp] == top[0] && stack[p][esp + 1] == top[1];
    }
  }

  // ---------------------------------------------------------------- any sequence of switches

  /** The contexts of all PROCs. */
  datatype World = World(running: nat, contexts: seq<Context>)

  datatype Born = Born(p: nat, name: int)

  /** A turn of the running PROC: the PROCs that it makes, what it leaves in its registers and
      on its stack when it calls tswitch() from pc, the PROC that scheduler() picks, and what
      scheduler() leaves in the registers and in the unused part of the stack. */
  datatype Turn = Turn(forks: seq<Born>, regs: Regs, esp: nat, own: seq<int>, pc: int, next: nat, junk: Regs, below: seq<int>)

  predicate ForksOk(forks: seq<Born>, n: nat, running: nat) {
    forall i :: 0 <= i < |forks| ==> forks[i].p < n && forks[i].p != running
  }

  predicate TurnOk(t: Turn, n: nat, running: nat) {
    && ForksOk(t.forks, n, running)
    && |t.own| == SSIZE && 9 <= t.esp <= SSIZE && |t.below| == t.esp - 9 && t.next < n
  }

  predicate TurnsOk(ts: seq<Turn>, n: nat, running: nat)
    decreases |ts|
  {
    ts == [] || (TurnOk(ts[0], n, running) && TurnsOk(ts[1..], n, ts[0].next))
  }

  /** The context in which the running PROC calls tswitch(). */
  function Left(t: Turn): Context
    requires t.esp <= |t.own|
  {
    Context(t.regs, t.pc, t.own[t.esp..])
  }

  /** The context of a new PROC: it is to return into body() with its name above the return
      address. */
  function Fresh(name: int, body: int): Context {
    Context(Regs(0, 0, 0, 0, 0, 0, 0, 0), body, [0, name])
  }

  function Forked(cs: seq<Context>, forks: seq<Born>, body: int): (cs': seq<Context>)
    requires forall i :: 0 <= i < |forks| ==> forks[i].p < |cs|
    ensures |cs'| == |cs|
    decreases |forks|
  {
    if forks == [] then cs else Forked(cs[forks[0].p := Fresh(forks[0].name, body)], forks[1..], body)
  }

  function Take(w: World, t: Turn, body: int): (w': World)
    requires w.running < |w.contexts| && TurnOk(t, |w.contexts|, w.running)
    ensures |w'.contexts| == |w.contexts| && w'.running == t.next
  {
    World(t.next, Forked(w.contexts, t.forks, body)[w.running := Left(t)])
  }

  function Play(w: World, ts: seq<Turn>, body: int): (w': World)
    requires w.running < |w.contexts| && TurnsOk(ts, |w.contexts|, w.running)
    ensures |w'.contexts| == |w.contexts| && w'.running < |w'.contexts|
    decreases |ts|
  {
    if ts == [] then w else Play(Take(w, ts[0], body), ts[1..], body)
  }

  predicate Forks(t: Turn, p: nat) {
    exists i :: 0 <= i < |t.forks| && t.forks[i].p == p
  }

  /** The turn makes p, once. */
  predicate Makes(t: Turn, p: nat, name: int) {
    exists i :: 0 <= i < |t.forks| && t.forks[i] == Born(p, name) && forall j :: 0 <= j < |t.forks| && j != i ==> t.forks[j].p != p
  }

  /** With `next` running first, p runs at the end of the turns and not before. */
  predicate ResumesLast(next: nat, ts: seq<Turn>, p: nat)
    decreases |ts|
  {
    if ts == [] then next == p else next != p && ResumesLast(ts[0].next, ts[1..], p)
  }

  lemma {:induction false} ForkedKept(cs: seq<Context>, forks: seq<Born>, body: int, p: nat)
    requires p < |cs| && forall i :: 0 <= i < |forks| ==> forks[i].p < |cs| && forks[i].p != p
    ensures Forked(cs, forks, body)[p] == cs[p]
    decreases |forks|
  {
    if forks != [] { ForkedKept(cs[forks[0].p := Fresh(forks[0].name, body)], forks[1..], body, p); }
  }

  lemma {:induction false} MadeIsFresh(cs: seq<Context>, forks: seq<Born>, p: nat, name: int, body: int)
    requires p < |cs| && forall i :: 0 <= i < |forks| ==> forks[i].p < |cs|
    requires exists i :: 0 <= i < |forks| && forks[i] == Born(p, name) && forall j :: 0 <= j < |forks| && j != i ==> forks[j].p != p
    ensures Forked(cs, forks, body)[p] == Fresh(name, body)
    decreases |forks|
  {
    var i :| 0 <= i < |forks| && forks[i] == Born(p, name) && forall j :: 0 <= j < |forks| && j != i ==> forks[j].p != p;
    var cs' := cs[forks[0].p := Fresh(forks[0].name, body)];
    if i == 0 {
      ForkedKept(cs', forks[1..], body, p);
    } else {
      assert forks[1..][i - 1] == Born(p, name);
      MadeIsFresh(cs', forks[1..], p, name, body);
    }
  }

  /** A PROC that is neither running nor made anew keeps its context through the turns of the
      others, and goes on in it. */
  lemma {:induction false} ResumedAsLeft(w: World, ts: seq<Turn>, p: nat, body: int)
    requires w.running < |w.contexts| && TurnsOk(ts, |w.contexts|, w.running) && p < |w.contexts|
    requires ResumesLast(w.running, ts, p)
    requires forall i :: 0 <= i < |ts| ==> !Forks(ts[i], p)
    ensures Play(w, ts, body).running == p && Play(w, ts, body).contexts[p] == w.contexts[p]
    decreases |ts|
  {
    if ts != [] {
      var t := ts[0];
      assert !Forks(t, p);
      ForkedKept(w.contexts, t.forks, body, p);
      ResumedAsLeft(Take(w, t, body), ts[1..], p, body);
    }
  }
}
