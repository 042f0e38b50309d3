/** Four places in PreLab3/Code/t.c where the code does not do what PreLab3/ReadMe.md asks for.
    Each is modelled as written, with the exact condition under which it does what the repaired
    operation does; MtxFailures has a failing input for each. */
module MtxAsWritten {
  import opened MtxModel
  import opened MtxQueues
  import opened MtxInvariant
  import opened MtxRuns
  import opened MtxExitWait
  import opened MtxTable

  // ---------------------------------------------------------------- kfork()

  /** The links made by kfork(): one step over the child list with `if` in place of `while`,
      and the old child and sibling fields of p left as they are. */
  function ForkLinks(t: seq<Proc>, r: nat, p: nat): (t': seq<Proc>)
    requires r < |t| && p < |t| && (t[r].child == NIL || 0 <= t[r].child < |t|)
    ensures |t'| == |t|
  {
    if t[r].child != NIL then t[t[r].child := t[t[r].child].(sibling := p)]
    else t[r := t[r].(child := p)]
  }

  /** kfork() appends p to the children of r and gives it an empty child list exactly when r
      had at most one child and p kept no child or sibling from an earlier life. */
  lemma {:induction false} ForkLinksRight(t: seq<Proc>, r: nat, p: nat, kids: seq<nat>)
    requires Kids(t, r, kids) && NoDup(kids) && p < |t| && p != r && p !in kids
    ensures Kids(ForkLinks(t, r, p), r, kids + [p]) && Kids(ForkLinks(t, r, p), p, [])
            <==> |kids| <= 1 && t[p].sibling == NIL && t[p].child == NIL
  {
    var t', all := ForkLinks(t, r, p), kids + [p];
    if kids != [] { assert Sibling(t, kids, 0); }
    if |kids| > 1 { assert all[1] == kids[1] && kids[1] in kids; }
    if |kids| <= 1 && t[p].sibling == NIL && t[p].child == NIL {
      forall j: nat | j < |all| ensures Sibling(t', all, j) { }
    } else {
      var _, _ := Sibling(t', all, |kids|), Sibling(t', all, 0);
    }
  }

  // ---------------------------------------------------------------- kexit()

  /** kexit() leaves the child field of the dying PROC as it is. */
  function ExitLinks(t: seq<Proc>, k: Kernel): (t': seq<Proc>)
    requires Represents(t, k)
    ensures |t'| == |t|
  {
    Bequest(t, k)
  }

  /** The dying PROC has an empty child list exactly when it had one before; otherwise its
      children, now P1's, stay reachable from it as well. */
  lemma {:induction false} ExitLinksRight(t: seq<Proc>, k: Kernel)
    requires Represents(t, k) && Lists(k.procs) && k.running > 1
    ensures Kids(ExitLinks(t, k), k.running, []) <==> k.procs[k.running].kids == []
    ensures Kids(ExitLinks(t, k), k.running, k.procs[k.running].kids)
  {
    var kids := k.procs[k.running].kids;
    var t1 := Attach(t, 1, k.procs[1].kids, Nth(kids, 0));
    ChildrenOf(t, k, t1);
    KidsKept(t1, ExitLinks(t, k), k.running, kids);
  }

  // ---------------------------------------------------------------- kwait()

  /** The links left by kwait(): when the ZOMBIE is the first child the whole list is dropped. */
  function WaitLinks(t: seq<Proc>, r: nat, kids: seq<nat>, i: nat): (t': seq<Proc>)
    requires r < |t| && InRange(kids, |t|) && i < |kids|
    ensures |t'| == |t|
  {
    var z := kids[i];
    var t1 := t[z := t[z].(status := FREE)];
    if i == 0 then t1[r := t1[r].(child := NIL)]
    else t1[kids[i - 1] := t1[kids[i - 1]].(sibling := t1[z].sibling)]
  }

  /** kwait() removes just the ZOMBIE exactly when it is not the first of several children. */
  lemma {:induction false} WaitLinksRight(t: seq<Proc>, r: nat, kids: seq<nat>, i: nat)
    requires Kids(t, r, kids) && NoDup(kids) && i < |kids| && r < |t| && r !in kids
    ensures Kids(WaitLinks(t, r, kids, i), r, kids[..i] + kids[i + 1..]) <==> i > 0 || |kids| == 1
  {
    assert Sibling(t, kids, 0);
    UnlinkedKids(t, r, kids, i);
    if i == 0 && |kids| > 1 { assert (kids[..i] + kids[i + 1..])[0] == kids[1]; }
  }

  /** What a pass of kwait() answers as written: findZombieChild() overwrites the loop variable
      with NULL, so behind sleep() the loop ends and the answer is -1. */
  function WrittenWait(k: Kernel): WaitResult
    requires Shape(k)
  {
    if k.procs[k.running].point == InKwait then NoChild else WaitOutcome(k)
  }

  predicate HasChild(k: Kernel)
    requires Shape(k)
  {
    exists c: nat :: 1 <= c < |k.procs| && k.procs[c].status != FREE && k.procs[c].parent == k.running
  }

  /** As written, the answer "no child" is right at the time when it is given exactly when the
      caller did not have to sleep for it; behind the sleep it always has a child. */
  lemma {:induction false} WrittenWaitRightIff(k: Kernel)
    requires Inv(k) && Enabled(k, DoWait)
    ensures (WrittenWait(k) == NoChild ==> !HasChild(k)) <==> k.procs[k.running].point == AtPrompt
    ensures k.procs[k.running].point == AtPrompt ==> WrittenWait(k) == WaitOutcome(k)
  {
    KwaitOutcomes(k);
    assert WaitsWell(k, k.running);
  }
}
