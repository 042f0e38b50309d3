/** The matrix sum by threads under a mutex: PreLab4/Code/Part2.c, one round of the test loop
    of main().  Every machine-level access to shared data is a step of its own, and any
    thread that can move may move next.  `mysum` and `temp` are 32-bit ints. */
module ThreadSum {

  /** Conversion to int: the value modulo 2^32 in the range of int. */
  function Int32(x: int): (r: int)
    ensures -0x8000_0000 <= r < 0x8000_0000 && (r - x) % 0x1_0000_0000 == 0
  {
    (x + 0x8000_0000) % 0x1_0000_0000 - 0x8000_0000
  }

  /** The points of func(), in program order. */
  datatype Point = NotCreated | Adding(col: nat) | AtLock | AtRead | AtAdd | AtWrite | AtUnlock | Exited

  datatype Thread = Thread(at: Point, mysum: int, temp: int)

  /** `holder` is the thread in the critical region, or -1; main() has created and joined the
      threads below `created` and `joined`. */
  datatype State = State(total: int, holder: int, threads: seq<Thread>, created: nat, joined: nat)

  datatype Mover = Main | Worker(t: nat)

  function Start(a: seq<seq<int>>): State {
    State(0, -1, seq(|a|, t => Thread(NotCreated, 0, 0)), 0, 0)
  }

  predicate CanMove(a: seq<seq<int>>, s: State, m: Mover) {
    match m
    case Main =>
      || s.created < |s.threads|
      || (s.joined < |s.threads| && s.threads[s.joined].at == Exited)
    case Worker(t) =>
      && t < |s.threads| == |a|
      && s.threads[t].at != NotCreated && s.threads[t].at != Exited
      && (s.threads[t].at == AtLock ==> s.holder == -1)
  }

  function Move(a: seq<seq<int>>, s: State, m: Mover): (s': State)
    requires CanMove(a, s, m)
    ensures |s'.threads| == |s.threads|
  {
    match m
    case Main =>
      if s.created < |s.threads| then
        s.(threads := s.threads[s.created := Thread(Adding(0), 0, 0)], created := s.created + 1)
      else s.(joined := s.joined + 1)
    case Worker(t) =>
      var me := s.threads[t];
      match me.at
      case Adding(col) =>
        if col < |a[t]| then
          s.(threads := s.threads[t := me.(at := Adding(col + 1), mysum := Int32(me.mysum + a[t][col]))])
        else s.(threads := s.threads[t := me.(at := AtLock)])
      case AtLock => s.(holder := t, threads := s.threads[t := me.(at := AtRead)])
      case AtRead => s.(threads := s.threads[t := me.(at := AtAdd, temp := Int32(s.total))])
      case AtAdd => s.(threads := s.threads[t := me.(at := AtWrite, temp := Int32(me.temp + me.mysum))])
      case AtWrite => s.(total := me.temp, threads := s.threads[t := me.(at := AtUnlock)])
      case AtUnlock => s.(holder := -1, threads := s.threads[t := me.(at := Exited)])
  }

  predicate ValidRun(a: seq<seq<int>>, s: State, ms: seq<Mover>)
    decreases |ms|
  {
    ms == [] || (CanMove(a, s, ms[0]) && ValidRun(a, Move(a, s, ms[0]), ms[1..]))
  }

  function Run(a: seq<seq<int>>, s: State, ms: seq<Mover>): State
    requires ValidRun(a, s, ms)
    decreases |ms|
  {
    if ms == [] then s else Run(a, Move(a, s, ms[0]), ms[1..])
  }

  // ---------------------------------------------------------------- sums

  function Sum(row: seq<int>): int {
    if row == [] then 0 else Sum(row[..|row| - 1]) + row[|row| - 1]
  }

  function MatrixSum(a: seq<seq<int>>): int {
    if a == [] then 0 else MatrixSum(a[..|a| - 1]) + Sum(a[|a| - 1])
  }

  predicate HasWritten(th: Thread) {
    th.at == AtUnlock || th.at == Exited
  }

  /** The sum of the rows whose thread has written, among the first n. */
  function WrittenSum(a: seq<seq<int>>, ths: seq<Thread>, n: nat): int
    requires n <= |a| == |ths|
  {
    if n == 0 then 0
    else WrittenSum(a, ths, n - 1) + (if HasWritten(ths[n - 1]) then Sum(a[n - 1]) else 0)
  }

  lemma {:induction false} Int32Add(x: int, y: int)
    ensures Int32(Int32(x) + y) == Int32(x + y)
    ensures Int32(x + Int32(y)) == Int32(x + y)
  {
    Congruent(Int32(x) + y, x + y);
    Congruent(x + Int32(y), x + y);
  }

  lemma {:induction false} Congruent(x: int, y: int)
    requires (x - y) % 0x1_0000_0000 == 0
    ensures Int32(x) == Int32(y)
  {
    var q := (x - y) / 0x1_0000_0000;
    assert x == y + q * 0x1_0000_0000;
  }

  lemma {:induction false} WrittenSumSame(a: seq<seq<int>>, ths: seq<Thread>, ths': seq<Thread>, n: nat)
    requires n <= |a| == |ths| == |ths'|
    requires forall i :: 0 <= i < n ==> HasWritten(ths[i]) == HasWritten(ths'[i])
    ensures WrittenSum(a, ths, n) == WrittenSum(a, ths', n)
  {
    if n > 0 { WrittenSumSame(a, ths, ths', n - 1); }
  }

  /** A thread that writes adds its row, and nothing else, to the written sum. */
  lemma {:induction false} WrittenSumMore(a: seq<seq<int>>, ths: seq<Thread>, t: nat, th: Thread, n: nat)
    requires t < n <= |a| == |ths| && !HasWritten(ths[t]) && HasWritten(th)
    ensures WrittenSum(a, ths[t := th], n) == WrittenSum(a, ths, n) + Sum(a[t])
  {
    if t == n - 1 { WrittenSumSame(a, ths, ths[t := th], n - 1); }
    else { WrittenSumMore(a, ths, t, th, n - 1); }
  }

  lemma {:induction false} WrittenSumAll(a: seq<seq<int>>, ths: seq<Thread>, n: nat)
    requires n <= |a| == |ths| && forall i :: 0 <= i < n ==> HasWritten(ths[i])
    ensures WrittenSum(a, ths, n) == MatrixSum(a[..n])
  {
    if n > 0 {
      WrittenSumAll(a, ths, n - 1);
      assert a[..n][..n - 1] == a[..n - 1];
    }
  }

  // ---------------------------------------------------------------- the invariant

  predicate InRegion(p: Point) {
    p == AtRead || p == AtAdd || p == AtWrite || p == AtUnlock
  }

  /** What a thread knows at each of its points. */
  predicate ThreadOk(a: seq<seq<int>>, s: State, t: nat)
    requires t < |s.threads| == |a|
  {
    var th := s.threads[t];
    && (t < s.created <==> th.at != NotCreated)
    && (t < s.joined ==> th.at == Exited)
    && (InRegion(th.at) <==> s.holder == t)
    && (th.at.Adding? ==> th.at.col <= |a[t]| && th.mysum == Int32(Sum(a[t][..th.at.col])))
    && (th.at != NotCreated && !th.at.Adding? ==> th.mysum == Int32(Sum(a[t])))
    && (th.at == AtAdd ==> th.temp == s.total)
    && (th.at == AtWrite ==> th.temp == Int32(s.total + Sum(a[t])))
  }

  predicate Inv(a: seq<seq<int>>, s: State) {
    && |s.threads| == |a| && s.joined <= |a| && s.created <= |a| && -1 <= s.holder < |a|
    && (s.joined > 0 ==> s.created == |a|)
    && (forall t: nat {:trigger ThreadOk(a, s, t)} :: t < |a| ==> ThreadOk(a, s, t))
    && s.total == Int32(WrittenSum(a, s.threads, |a|))
  }

  lemma {:induction false} StartOk(a: seq<seq<int>>)
    ensures Inv(a, Start(a))
  {
    forall t: nat | t < |a| ensures ThreadOk(a, Start(a), t) { }
    NothingWritten(a, Start(a).threads, |a|);
  }

  lemma {:induction false} NothingWritten(a: seq<seq<int>>, ths: seq<Thread>, n: nat)
    requires n <= |a| == |ths| && forall i :: 0 <= i < n ==> !HasWritten(ths[i])
    ensures WrittenSum(a, ths, n) == 0
  {
    if n > 0 { NothingWritten(a, ths, n - 1); }
  }

  lemma {:induction false} MainKeeps(a: seq<seq<int>>, s: State)
    requires Inv(a, s) && CanMove(a, s, Main)
    ensures Inv(a, Move(a, s, Main))
  {
    var s' := Move(a, s, Main);
    if s.created < |a| { assert ThreadOk(a, s, s.created); }
    forall t: nat | t < |a| ensures ThreadOk(a, s', t) && HasWritten(s'.threads[t]) == HasWritten(s.threads[t]) {
      assert ThreadOk(a, s, t);
    }
    WrittenSumSame(a, s.threads, s'.threads, |a|);
  }

  lemma {:induction false} TotalKept(a: seq<seq<int>>, s: State, t: nat)
    requires Inv(a, s) && CanMove(a, s, Worker(t))
    ensures var s' := Move(a, s, Worker(t)); s'.total == Int32(WrittenSum(a, s'.threads, |a|))
  {
    var s' := Move(a, s, Worker(t));
    assert ThreadOk(a, s, t);
    if s.threads[t].at == AtWrite {
      WrittenSumMore(a, s.threads, t, s'.threads[t], |a|);
      Int32Add(WrittenSum(a, s.threads, |a|), Sum(a[t]));
    } else {
      WrittenSumSame(a, s.threads, s'.threads, |a|);
    }
  }

  lemma {:induction false} OthersOk(a: seq<seq<int>>, s: State, t: nat, u: nat)
    requires Inv(a, s) && CanMove(a, s, Worker(t)) && u < |a|
    ensures ThreadOk(a, Move(a, s, Worker(t)), u)
  {
    assert ThreadOk(a, s, t) && ThreadOk(a, s, u);
    if u == t { AddStep(a, s, t); }
  }

  /** Every step of every thread and of main() keeps the invariant: in particular `total` does
      not change between the read and the write of the thread that holds the mutex. */
  lemma {:induction false} MoveKeeps(a: seq<seq<int>>, s: State, m: Mover)
    requires Inv(a, s) && CanMove(a, s, m)
    ensures Inv(a, Move(a, s, m))
  {
    match m
    case Main => MainKeeps(a, s);
    case Worker(t) =>
      TotalKept(a, s, t);
      forall u: nat | u < |a| ensures ThreadOk(a, Move(a, s, m), u) { OthersOk(a, s, t, u); }
  }

  lemma {:induction false} AddStep(a: seq<seq<int>>, s: State, t: nat)
    requires |s.threads| == |a| && t < |a| && ThreadOk(a, s, t)
    ensures var th := s.threads[t];
            && (th.at.Adding? && th.at.col < |a[t]| ==>
                  Int32(th.mysum + a[t][th.at.col]) == Int32(Sum(a[t][..th.at.col + 1])))
            && (th.at.Adding? && th.at.col == |a[t]| ==> a[t][..th.at.col] == a[t])
            && (th.at == AtAdd ==> Int32(th.temp + th.mysum) == Int32(s.total + Sum(a[t])))
  {
    var th := s.threads[t];
    if th.at.Adding? && th.at.col < |a[t]| {
      var row := a[t][..th.at.col + 1];
      assert row[..|row| - 1] == a[t][..th.at.col];
      Int32Add(Sum(a[t][..th.at.col]), a[t][th.at.col]);
    }
    Int32Add(s.total, Sum(a[t]));
  }

  lemma {:induction false} RunKeeps(a: seq<seq<int>>, s: State, ms: seq<Mover>)
    requires Inv(a, s) && ValidRun(a, s, ms)
    ensures Inv(a, Run(a, s, ms))
    decreases |ms|
  {
    if ms != [] {
      MoveKeeps(a, s, ms[0]);
      RunKeeps(a, Move(a, s, ms[0]), ms[1..]);
    }
  }

  // ---------------------------------------------------------------- theorems

  /** Under every interleaving, for any number of threads and any cells, main() sees the sum of
      the matrix (as an int) once it has joined all threads.  Where mysum or temp leaves the
      range of int, C leaves the result open; the model wraps, as the compiler's code does. */
  lemma {:induction false} JoinedTotal(a: seq<seq<int>>, ms: seq<Mover>)
    requires ValidRun(a, Start(a), ms) && Run(a, Start(a), ms).joined == |a|
    ensures Run(a, Start(a), ms).total == Int32(MatrixSum(a))
    ensures Run(a, Start(a), ms).total == MatrixSum(a) <==> -0x8000_0000 <= MatrixSum(a) < 0x8000_0000
  {
    var s := Run(a, Start(a), ms);
    StartOk(a);
    RunKeeps(a, Start(a), ms);
    forall t: nat | t < |a| ensures HasWritten(s.threads[t]) { assert ThreadOk(a, s, t); }
    WrittenSumAll(a, s.threads, |a|);
    assert a[..|a|] == a;
  }

  /** The thread with number t has added up row t, whatever the others do. */
  lemma {:induction false} EachAddsItsRow(a: seq<seq<int>>, ms: seq<Mover>, t: nat)
    requires ValidRun(a, Start(a), ms) && t < |a| && t < |Run(a, Start(a), ms).threads|
    requires var at := Run(a, Start(a), ms).threads[t].at; at != NotCreated && !at.Adding?
    ensures Run(a, Start(a), ms).threads[t].mysum == Int32(Sum(a[t]))
  {
    StartOk(a);
    RunKeeps(a, Start(a), ms);
    assert ThreadOk(a, Run(a, Start(a), ms), t);
  }

  /** At most one thread is in the critical region. */
  lemma {:induction false} MutualExclusion(a: seq<seq<int>>, ms: seq<Mover>, t: nat, u: nat)
    requires ValidRun(a, Start(a), ms)
    requires t < |Run(a, Start(a), ms).threads| && u < |Run(a, Start(a), ms).threads|
    requires InRegion(Run(a, Start(a), ms).threads[t].at) && InRegion(Run(a, Start(a), ms).threads[u].at)
    ensures t == u
  {
    StartOk(a);
    RunKeeps(a, Start(a), ms);
    assert ThreadOk(a, Run(a, Start(a), ms), t) && ThreadOk(a, Run(a, Start(a), ms), u);
  }

  /** No deadlock: until main() has joined every thread, somebody can move. */
  lemma {:induction false} SomebodyMoves(a: seq<seq<int>>, ms: seq<Mover>)
    requires ValidRun(a, Start(a), ms) && Run(a, Start(a), ms).joined < |a|
    ensures exists m :: CanMove(a, Run(a, Start(a), ms), m)
  {
    var s := Run(a, Start(a), ms);
    StartOk(a);
    RunKeeps(a, Start(a), ms);
    if s.created < |a| || s.threads[s.joined].at == Exited {
      assert CanMove(a, s, Main);
    } else if s.holder == -1 {
      assert ThreadOk(a, s, s.joined);
      assert CanMove(a, s, Worker(s.joined));
    } else {
      assert ThreadOk(a, s, s.holder);
      assert CanMove(a, s, Worker(s.holder));
    }
  }

  // ---------------------------------------------------------------- every run ends

  /** The steps that a thread still has to take, its creation included. */
  function Work(row: seq<int>, at: Point): int {
    match at
    case NotCreated => |row| + 7
    case Adding(col) => |row| - col + 6
    case AtLock => 5
    case AtRead => 4
    case AtAdd => 3
    case AtWrite => 2
    case AtUnlock => 1
    case Exited => 0
  }

  function WorkLeft(a: seq<seq<int>>, ths: seq<Thread>, n: nat): int
    requires n <= |a| == |ths|
  {
    if n == 0 then 0 else WorkLeft(a, ths, n - 1) + Work(a[n - 1], ths[n - 1].at)
  }

  /** The number of cells, and eight steps beside them for each thread. */
  function Steps(a: seq<seq<int>>): int {
    if a == [] then 0 else Steps(a[..|a| - 1]) + |a[|a| - 1]| + 8
  }

  lemma {:induction false} WorkChanged(a: seq<seq<int>>, ths: seq<Thread>, t: nat, th: Thread, n: nat)
    requires n <= |a| == |ths| && t < |a|
    ensures WorkLeft(a, ths[t := th], n)
            == WorkLeft(a, ths, n) + if t < n then Work(a[t], th.at) - Work(a[t], ths[t].at) else 0
  {
    if n > 0 { WorkChanged(a, ths, t, th, n - 1); }
  }

  /** What is left to do: of every step, by whoever takes it, exactly one less. */
  function Left(a: seq<seq<int>>, s: State): int
    requires |s.threads| == |a|
  {
    WorkLeft(a, s.threads, |a|) + |a| - s.joined
  }

  lemma {:induction false} MoveCounts(a: seq<seq<int>>, s: State, m: Mover)
    requires Inv(a, s) && CanMove(a, s, m)
    ensures Left(a, Move(a, s, m)) == Left(a, s) - 1
  {
    var s' := Move(a, s, m);
    match m
    case Main =>
      if s.created < |a| {
        assert ThreadOk(a, s, s.created);
        WorkChanged(a, s.threads, s.created, Thread(Adding(0), 0, 0), |a|);
      }
    case Worker(t) =>
      assert ThreadOk(a, s, t) && s'.threads == s.threads[t := s'.threads[t]];
      WorkChanged(a, s.threads, t, s'.threads[t], |a|);
  }

  lemma {:induction false} RunCounts(a: seq<seq<int>>, s: State, ms: seq<Mover>)
    requires Inv(a, s) && ValidRun(a, s, ms)
    ensures |Run(a, s, ms).threads| == |a| && Left(a, Run(a, s, ms)) == Left(a, s) - |ms|
    decreases |ms|
  {
    if ms != [] {
      MoveKeeps(a, s, ms[0]);
      MoveCounts(a, s, ms[0]);
      RunCounts(a, Move(a, s, ms[0]), ms[1..]);
    }
  }

  lemma {:induction false} WorkAtStart(a: seq<seq<int>>, ths: seq<Thread>, n: nat)
    requires n <= |a| == |ths| && forall i :: 0 <= i < n ==> ths[i].at == NotCreated
    ensures WorkLeft(a, ths, n) + n == Steps(a[..n])
  {
    if n > 0 {
      WorkAtStart(a, ths, n - 1);
      assert a[..n][..n - 1] == a[..n - 1];
    }
  }

  /** All threads have come to their end when no work is left, and no work is ever negative. */
  lemma {:induction false} WorkIsDone(a: seq<seq<int>>, s: State, n: nat)
    requires Inv(a, s) && n <= |a|
    ensures WorkLeft(a, s.threads, n) >= 0
    ensures s.joined == |a| ==> WorkLeft(a, s.threads, n) == 0
  {
    if n > 0 {
      WorkIsDone(a, s, n - 1);
      assert ThreadOk(a, s, n - 1);
    }
  }

  /** No run is longer than the steps that there are to take, and the runs of this length are
      exactly those in which main() has joined every thread and nobody can move: whatever the
      interleaving, a run that goes on as long as it can ends with all threads joined. */
  lemma {:induction false} EveryRunEnds(a: seq<seq<int>>, ms: seq<Mover>)
    requires ValidRun(a, Start(a), ms)
    ensures var s := Run(a, Start(a), ms);
            && |ms| <= Steps(a)
            && (|ms| == Steps(a) <==> s.joined == |a|)
            && (|ms| == Steps(a) <==> forall m :: !CanMove(a, s, m))
  {
    var s := Run(a, Start(a), ms);
    StartOk(a);
    RunKeeps(a, Start(a), ms);
    RunCounts(a, Start(a), ms);
    WorkAtStart(a, Start(a).threads, |a|);
    assert a[..|a|] == a;
    WorkIsDone(a, s, |a|);
    if s.joined < |a| {
      SomebodyMoves(a, ms);
    } else {
      forall m ensures !CanMove(a, s, m) {
        if m.Worker? && m.t < |a| { assert ThreadOk(a, s, m.t); }
      }
    }
  }
}
