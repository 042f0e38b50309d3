/** Facts about the priority queues of PreLab3/Code/queue.c and wait.c. */
module MtxQueues {
  import opened MtxModel

  /** Descending priority, the order every queue keeps. */
  predicate Sorted(ps: seq<Pcb>, q: seq<nat>)
    requires InRange(q, |ps|)
  {
    forall i: nat, j: nat {:trigger NotBelow(ps, q, i, j)} :: i < j < |q| ==> NotBelow(ps, q, i, j)
  }

  predicate NotBelow(ps: seq<Pcb>, q: seq<nat>, i: nat, j: nat)
    requires InRange(q, |ps|) && i < |q| && j < |q|
  {
    ps[q[i]].priority >= ps[q[j]].priority
  }

  // ---------------------------------------------------------------- lists without repetition

  lemma {:induction false} TailMembers(q: seq<nat>, x: nat)
    requires NoDup(q) && q != []
    ensures x in q[1..] <==> x in q && x != q[0]
    ensures NoDup(q[1..])
  {
    if x in q[1..] {
      var j :| 0 <= j < |q[1..]| && q[1..][j] == x;
      assert q[j + 1] == x && Differ(q, 0, j + 1);
    }
    if x in q && x != q[0] {
      var j :| 0 <= j < |q| && q[j] == x;
      assert q[1..][j - 1] == x;
    }
    forall i: nat, j: nat | i < j < |q[1..]| ensures Differ(q[1..], i, j) { assert Differ(q, i + 1, j + 1); }
  }

  lemma {:induction false} ConcatNoDup(a: seq<nat>, b: seq<nat>)
    requires NoDup(a) && NoDup(b) && forall x :: x in a ==> x !in b
    ensures NoDup(a + b)
  {
    forall i: nat, j: nat | i < j < |a + b| ensures Differ(a + b, i, j) {
      if j < |a| { assert Differ(a, i, j); }
      else if i >= |a| { assert Differ(b, i - |a|, j - |a|); }
      else { assert a[i] in a && b[j - |a|] in b; }
    }
  }

  lemma {:induction false} RemoveAt(q: seq<nat>, i: nat, x: nat)
    requires NoDup(q) && i < |q|
    ensures NoDup(q[..i] + q[i + 1..])
    ensures x in q[..i] + q[i + 1..] <==> x in q && x != q[i]
  {
    var r := q[..i] + q[i + 1..];
    if x in r {
      var j :| 0 <= j < |r| && r[j] == x;
      if j < i { assert Differ(q, j, i); } else { assert Differ(q, i, j + 1); }
    }
    if x in q && x != q[i] {
      var j :| 0 <= j < |q| && q[j] == x;
      assert r[if j < i then j else j - 1] == x;
    }
    forall a: nat, b: nat | a < b < |r| ensures Differ(r, a, b) {
      assert Differ(q, if a < i then a else a + 1, if b < i then b else b + 1);
    }
  }

  // ---------------------------------------------------------------- enqueue()

  predicate SamePriority(ps: seq<Pcb>, ps': seq<Pcb>) {
    |ps| == |ps'| && forall i :: 0 <= i < |ps| ==> ps[i].priority == ps'[i].priority
  }

  /** enqueue() on a sorted queue: p lands behind every PROC of at least its priority and
      before every PROC of lower priority, the others keep their order, nothing is lost. */
  lemma {:induction false} InsertIsStable(ps: seq<Pcb>, q: seq<nat>, p: nat) returns (i: nat)
    requires InRange(q, |ps|) && p < |ps| && Sorted(ps, q)
    ensures i <= |q| && Insert(ps, q, p) == q[..i] + [p] + q[i..]
    ensures forall j :: 0 <= j < i ==> ps[q[j]].priority >= ps[p].priority
    ensures forall j :: i <= j < |q| ==> ps[q[j]].priority < ps[p].priority
    ensures Sorted(ps, Insert(ps, q, p))
    ensures multiset(Insert(ps, q, p)) == multiset(q) + multiset{p}
  {
    i := Pos(ps, q, p);
    assert q == q[..i] + q[i..];
    forall j | i <= j < |q| ensures ps[q[j]].priority < ps[p].priority {
      if i < j { assert NotBelow(ps, q, i, j); }
    }
    SpliceSorted(ps, q, p, i);
  }

  lemma {:induction false} SpliceSorted(ps: seq<Pcb>, q: seq<nat>, p: nat, i: nat)
    requires InRange(q, |ps|) && p < |ps| && Sorted(ps, q) && i <= |q|
    requires forall j :: 0 <= j < i ==> ps[q[j]].priority >= ps[p].priority
    requires forall j :: i <= j < |q| ==> ps[q[j]].priority < ps[p].priority
    ensures InRange(q[..i] + [p] + q[i..], |ps|) && Sorted(ps, q[..i] + [p] + q[i..])
  {
    var r := q[..i] + [p] + q[i..];
    assert forall j :: 0 <= j < |r| ==> r[j] == if j < i then q[j] else if j == i then p else q[j - 1];
    forall j: nat, l: nat | j < l < |r| ensures NotBelow(ps, r, j, l) {
      if j != i && l != i { assert NotBelow(ps, q, if j < i then j else j - 1, if l < i then l else l - 1); }
    }
  }

  /** The rest of a sorted queue, behind its highest PROC. */
  lemma {:induction false} SortedTail(ps: seq<Pcb>, q: seq<nat>)
    requires InRange(q, |ps|) && Sorted(ps, q) && q != []
    ensures Sorted(ps, q[1..])
    ensures forall j :: 0 <= j < |q[1..]| ==> ps[q[1..][j]].priority <= ps[q[0]].priority
  {
    forall i: nat, j: nat | i < j < |q[1..]| ensures NotBelow(ps, q[1..], i, j) { assert NotBelow(ps, q, i + 1, j + 1); }
    forall j | 0 <= j < |q[1..]| ensures ps[q[1..][j]].priority <= ps[q[0]].priority { assert NotBelow(ps, q, 0, j + 1); }
  }

  /** The place found is the only one with these two properties. */
  lemma {:induction false} PosIs(ps: seq<Pcb>, q: seq<nat>, p: nat, i: nat)
    requires InRange(q, |ps|) && p < |ps| && i <= |q|
    requires forall j :: 0 <= j < i ==> ps[q[j]].priority >= ps[p].priority
    requires i < |q| ==> ps[q[i]].priority < ps[p].priority
    ensures Pos(ps, q, p) == i
  {
    var k := Pos(ps, q, p);
    if i < k { assert i < |q|; }
  }

  lemma {:induction false} SpliceMember(q: seq<nat>, i: nat, p: nat, x: nat)
    requires i <= |q|
    ensures x in q[..i] + [p] + q[i..] <==> x == p || x in q
  {
    var r := q[..i] + [p] + q[i..];
    if x in q {
      var j :| 0 <= j < |q| && q[j] == x;
      assert r[if j < i then j else j + 1] == x;
    }
    assert r[i] == p;
  }

  lemma {:induction false} SpliceNoDup(q: seq<nat>, i: nat, p: nat)
    requires i <= |q| && NoDup(q) && p !in q
    ensures NoDup(q[..i] + [p] + q[i..])
  {
    var r := q[..i] + [p] + q[i..];
    forall a: nat, b: nat | a < b < |r| ensures Differ(r, a, b) {
      if a != i && b != i { assert Differ(q, if a < i then a else a - 1, if b < i then b else b - 1); }
    }
  }

  lemma {:induction false} InsertMembers(ps: seq<Pcb>, q: seq<nat>, p: nat)
    requires InRange(q, |ps|) && p < |ps|
    ensures forall x :: x in Insert(ps, q, p) <==> x == p || x in q
    ensures NoDup(q) && p !in q ==> NoDup(Insert(ps, q, p))
  {
    var i := Pos(ps, q, p);
    forall x ensures x in Insert(ps, q, p) <==> x == p || x in q {
      SpliceMember(q, i, p, x);
    }
    if NoDup(q) && p !in q { SpliceNoDup(q, i, p); }
  }

  /** The place found depends on priorities only. */
  lemma {:induction false} PosByPriority(ps: seq<Pcb>, ps': seq<Pcb>, q: seq<nat>, p: nat)
    requires InRange(q, |ps|) && p < |ps| && SamePriority(ps, ps')
    ensures Pos(ps, q, p) == Pos(ps', q, p)
  {
    if q != [] { PosByPriority(ps, ps', q[1..], p); }
  }

  lemma {:induction false} InsertByPriority(ps: seq<Pcb>, ps': seq<Pcb>, q: seq<nat>, p: nat)
    requires InRange(q, |ps|) && p < |ps| && SamePriority(ps, ps')
    ensures Insert(ps, q, p) == Insert(ps', q, p)
  {
    PosByPriority(ps, ps', q, p);
  }

  lemma {:induction false} InsertAllMembers(ps: seq<Pcb>, q: seq<nat>, ws: seq<nat>)
    requires InRange(q, |ps|) && InRange(ws, |ps|)
    ensures forall x :: x in InsertAll(ps, q, ws) <==> x in q || x in ws
    ensures NoDup(q) && NoDup(ws) && (forall x :: x in ws ==> x !in q) ==> NoDup(InsertAll(ps, q, ws))
    ensures Sorted(ps, q) ==> Sorted(ps, InsertAll(ps, q, ws))
    decreases |ws|
  {
    if ws != [] {
      var q' := Insert(ps, q, ws[0]);
      InsertMembers(ps, q, ws[0]);
      if Sorted(ps, q) { var _ := InsertIsStable(ps, q, ws[0]); }
      assert ws == [ws[0]] + ws[1..];
      if NoDup(ws) {
        forall x ensures x in ws[1..] ==> x != ws[0] { TailMembers(ws, x); }
        TailMembers(ws, 0);
      }
      InsertAllMembers(ps, q', ws[1..]);
    }
  }

  lemma {:induction false} InsertAllByPriority(ps: seq<Pcb>, ps': seq<Pcb>, q: seq<nat>, ws: seq<nat>)
    requires InRange(q, |ps|) && InRange(ws, |ps|) && SamePriority(ps, ps')
    ensures InsertAll(ps, q, ws) == InsertAll(ps', q, ws)
    decreases |ws|
  {
    if ws != [] {
      PosByPriority(ps, ps', q, ws[0]);
      InsertAllByPriority(ps, ps', Insert(ps, q, ws[0]), ws[1..]);
    }
  }

  /** Inserting PROCs of one priority, not lower than any of the tail and not higher than
      any of the head, puts them as a block, in order, between head and tail. */
  lemma {:induction false} InsertAllBlock(ps: seq<Pcb>, head: seq<nat>, tail: seq<nat>, ws: seq<nat>, prio: int)
    requires InRange(head, |ps|) && InRange(tail, |ps|) && InRange(ws, |ps|)
    requires forall j :: 0 <= j < |head| ==> ps[head[j]].priority >= prio
    requires forall j :: 0 <= j < |tail| ==> ps[tail[j]].priority < prio
    requires forall j :: 0 <= j < |ws| ==> ps[ws[j]].priority == prio
    ensures InsertAll(ps, head + tail, ws) == head + ws + tail
    decreases |ws|
  {
    if ws == [] {
      assert head + ws + tail == head + tail;
    } else {
      var q := head + tail;
      PosIs(ps, q, ws[0], |head|);
      assert q[..|head|] == head && q[|head|..] == tail;
      assert Insert(ps, q, ws[0]) == (head + [ws[0]]) + tail;
      InsertAllBlock(ps, head + [ws[0]], tail, ws[1..], prio);
      assert (head + [ws[0]]) + ws[1..] == head + ws;
    }
  }

  /** Re-inserting a sorted list into an empty queue gives it back. */
  lemma {:induction false} InsertAllSorted(ps: seq<Pcb>, q: seq<nat>, ws: seq<nat>)
    requires InRange(q, |ps|) && InRange(ws, |ps|) && Sorted(ps, q + ws)
    ensures InsertAll(ps, q, ws) == q + ws
    decreases |ws|
  {
    if ws == [] {
      assert q + ws == q;
    } else {
      forall j | 0 <= j < |q| ensures ps[q[j]].priority >= ps[ws[0]].priority {
        assert NotBelow(ps, q + ws, j, |q|);
      }
      PosIs(ps, q, ws[0], |q|);
      assert Insert(ps, q, ws[0]) == q + [ws[0]];
      assert (q + [ws[0]]) + ws[1..] == q + ws;
      InsertAllSorted(ps, q + [ws[0]], ws[1..]);
    }
  }

  /** Sleepers and Others split a list by the event; each part keeps the order. */
  lemma {:induction false} SplitMembers(ps: seq<Pcb>, q: seq<nat>, event: int)
    requires InRange(q, |ps|)
    ensures forall x :: x in Sleepers(ps, q, event) <==> x in q && ps[x].event == event
    ensures forall x :: x in Others(ps, q, event) <==> x in q && ps[x].event != event
  {
    if q != [] {
      SplitMembers(ps, q[1..], event);
      assert q == [q[0]] + q[1..];
    }
  }

  lemma {:induction false} SplitNoDup(ps: seq<Pcb>, q: seq<nat>, event: int)
    requires InRange(q, |ps|) && NoDup(q)
    ensures NoDup(Sleepers(ps, q, event)) && NoDup(Others(ps, q, event))
  {
    if q != [] {
      TailMembers(q, q[0]);
      SplitNoDup(ps, q[1..], event);
      SplitMembers(ps, q[1..], event);
      if ps[q[0]].event == event {
        ConcatNoDup([q[0]], Sleepers(ps, q[1..], event));
        assert Others(ps, q, event) == Others(ps, q[1..], event);
      } else {
        ConcatNoDup([q[0]], Others(ps, q[1..], event));
        assert Sleepers(ps, q, event) == Sleepers(ps, q[1..], event);
      }
    }
  }

  lemma {:induction false} ConsSorted(ps: seq<Pcb>, p: nat, q: seq<nat>)
    requires p < |ps| && InRange(q, |ps|) && Sorted(ps, q)
    requires forall x :: x in q ==> ps[p].priority >= ps[x].priority
    ensures InRange([p] + q, |ps|) && Sorted(ps, [p] + q)
  {
    forall i: nat, j: nat | i < j < |[p] + q| ensures NotBelow(ps, [p] + q, i, j) {
      assert ([p] + q)[j] == q[j - 1] && q[j - 1] in q;
      if i > 0 { assert ([p] + q)[i] == q[i - 1] && NotBelow(ps, q, i - 1, j - 1); }
    }
  }

  lemma {:induction false} SplitSorted(ps: seq<Pcb>, q: seq<nat>, event: int)
    requires InRange(q, |ps|) && Sorted(ps, q)
    ensures Sorted(ps, Others(ps, q, event))
  {
    if q != [] {
      SortedTail(ps, q);
      SplitSorted(ps, q[1..], event);
      SplitMembers(ps, q[1..], event);
      if ps[q[0]].event == event {
        assert Others(ps, q, event) == Others(ps, q[1..], event);
      } else {
        ConsSorted(ps, q[0], Others(ps, q[1..], event));
      }
    }
  }

  /** Nothing is lost or copied by the split. */
  lemma {:induction false} SplitAll(ps: seq<Pcb>, q: seq<nat>, event: int)
    requires InRange(q, |ps|)
    ensures multiset(Sleepers(ps, q, event)) + multiset(Others(ps, q, event)) == multiset(q)
  {
    if q != [] {
      SplitAll(ps, q[1..], event);
      assert q == [q[0]] + q[1..];
    }
  }

  function Members(q: seq<nat>): set<nat> {
    set x | x in q
  }

  /** A queue without repetition holds as many PROCs as its set of members. */
  lemma {:induction false} NoDupCount(q: seq<nat>)
    requires NoDup(q)
    ensures |Members(q)| == |q|
  {
    if q != [] {
      TailMembers(q, q[0]);
      NoDupCount(q[1..]);
      var all, rest := Members(q), Members(q[1..]);
      forall x ensures x in all <==> x in rest + {q[0]} { TailMembers(q, x); }
      assert all == rest + {q[0]};
    }
  }
}
