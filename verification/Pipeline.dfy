/** The pipelines of the shell: Lab3/Lab3.c.  A process is its table of open descriptors;
    pipe(), dup() and close() act on it as POSIX.1-2017 says (System Interfaces, section 2.14:
    the lowest descriptor not open is allocated), and what the stages of a pipeline hold at
    execve() is what Shell and Utilities, section 2.9.2, asks for. */
module Pipeline {
  import opened Text

  /** What a descriptor refers to: an end of pipe number n, or something opened earlier. */
  datatype File = ReadEnd(pipe: nat) | WriteEnd(pipe: nat) | Opened(what: int)

  type Table = map<nat, File>

  // ---------------------------------------------------------------- descriptors

  /** The lowest descriptor from `from` on that is not open. */
  function Lowest(t: Table, from: nat): (fd: nat)
    ensures fd >= from && fd !in t && forall i: nat :: from <= i < fd ==> i in t
    decreases |t.Keys|
  {
    if from !in t then from
    else
      assert (t - {from}).Keys == t.Keys - {from};
      var fd := Lowest(t - {from}, from + 1);
      assert forall i: nat {:trigger i in t} :: from + 1 <= i < fd ==> i in t - {from};
      fd
  }

  /** close(); on a descriptor that is not open it fails and changes nothing. */
  function Close(t: Table, fd: nat): Table {
    t - {fd}
  }

  /** dup(); on a descriptor that is not open it fails and changes nothing. */
  function Dup(t: Table, fd: nat): Table {
    if fd in t then t[Lowest(t, 0) := t[fd]] else t
  }

  // ---------------------------------------------------------------- what is wanted

  /** The words of a command line split at "|". */
  function Stages(args: seq<string>): (ss: seq<seq<string>>)
    ensures ss != []
    decreases |args|
  {
    var i := FirstBar(args);
    if i == |args| then [args] else [args[..i]] + Stages(args[i + 1..])
  }

  function FirstBar(args: seq<string>): (i: nat)
    ensures i <= |args| && (i < |args| ==> args[i] == "|")
    ensures forall j :: 0 <= j < i ==> args[j] != "|"
  {
    if args == [] || args[0] == "|" then 0 else 1 + FirstBar(args[1..])
  }

  /** A process that handlePipes() hands to linuxExe(). */
  datatype Stage = Stage(args: seq<string>, fds: Table)

  /** The table of stage k of n: the shell's, with standard input and output on the pipes
      `first + k - 1` and `first + k`, except at the two ends of the pipeline. */
  function Wired(base: Table, first: nat, k: nat, n: nat): Table {
    var t := if k > 0 then base[0 := ReadEnd(first + k - 1)] else base;
    if k + 1 < n then t[1 := WriteEnd(first + k)] else t
  }

  function WiredStages(base: Table, first: nat, ss: seq<seq<string>>): seq<Stage> {
    seq(|ss|, k requires 0 <= k < |ss| => Stage(ss[k], Wired(base, first, k, |ss|)))
  }

  /** The stages have no bar in them, and with one between each two they are the line. */
  lemma {:induction false} StagesJoin(args: seq<string>)
    ensures Join(Stages(args), "|") == args
    ensures forall s :: s in Stages(args) ==> "|" !in s
    decreases |args|
  {
    var i := FirstBar(args);
    if i < |args| {
      StagesJoin(args[i + 1..]);
      assert args == args[..i] + ["|"] + args[i + 1..];
    }
  }

  /** They are the only ones. */
  lemma {:induction false} JoinedStages(ss: seq<seq<string>>)
    requires ss != [] && forall s :: s in ss ==> "|" !in s
    ensures Stages(Join(ss, "|")) == ss
  {
    assert ss[0] in ss;
    if |ss| == 1 {
      NoBarIn(ss[0]);
    } else {
      var rest := Join(ss[1..], "|");
      JoinedStages(ss[1..]);
      BarBehind(ss[0], rest);
      hide Stages;
      assert [ss[0]] + ss[1..] == ss;
    }
  }

  lemma {:induction false} NoBarIn(s: seq<string>)
    requires "|" !in s
    ensures Stages(s) == [s]
  {
    forall j | 0 <= j < |s| ensures s[j] != "|" { assert s[j] in s; }
    BarAt(s, |s|);
  }

  lemma {:induction false} BarBehind(s: seq<string>, rest: seq<string>)
    requires "|" !in s
    ensures Stages(s + ["|"] + rest) == [s] + Stages(rest)
  {
    var args := s + ["|"] + rest;
    forall j | 0 <= j < |s| ensures args[j] != "|" { assert args[j] == s[j] && s[j] in s; }
    BarAt(args, |s|);
    assert args[..|s|] == s && args[|s| + 1..] == rest;
  }

  lemma {:induction false} BarAt(args: seq<string>, i: nat)
    requires i <= |args| && (i < |args| ==> args[i] == "|") && forall j :: 0 <= j < i ==> args[j] != "|"
    ensures FirstBar(args) == i
  {
    var b := FirstBar(args);
  }

  // ---------------------------------------------------------------- one pipe

  /** The two descriptors of pipe(): the read end gets the lower one. */
  function PipeRead(t: Table): nat {
    Lowest(t, 0)
  }

  function PipeWrite(t: Table): nat {
    Lowest(t, PipeRead(t) + 1)
  }

  function WithPipe(t: Table, n: nat): Table {
    t[PipeRead(t) := ReadEnd(n)][PipeWrite(t) := WriteEnd(n)]
  }

  /** The parent after fork(): the writer of the pipe. */
  function Writer(t: Table, n: nat): Table {
    var u := Close(Close(WithPipe(t, n), PipeRead(t)), 1);
    Close(Dup(u, PipeWrite(t)), PipeWrite(t))
  }

  /** The child: the reader. */
  function Reader(t: Table, n: nat): Table {
    var u := Close(Close(WithPipe(t, n), PipeWrite(t)), 0);
    Close(Dup(u, PipeRead(t)), PipeRead(t))
  }

  /** When standard input is open, both processes end up with one end of the pipe each, in
      the right place, and with nothing else changed. */
  lemma {:induction false} OnePipe(t: Table, n: nat)
    requires 0 in t
    ensures Writer(t, n) == t[1 := WriteEnd(n)]
    ensures Reader(t, n) == t[0 := ReadEnd(n)]
  {
    var r, w := PipeRead(t), PipeWrite(t);
    var a := Close(Close(WithPipe(t, n), r), 1);
    assert Lowest(a, 0) == 1;
    var b := Close(Close(WithPipe(t, n), w), 0);
    assert Lowest(b, 0) == 0;
  }

  /** When standard input is closed, the writer's standard output is not the pipe. */
  lemma {:induction false} OnePipeWithoutInput(t: Table, n: nat)
    requires 0 !in t
    ensures Writer(t, n) != t[1 := WriteEnd(n)]
  {
    var w := PipeWrite(t);
    var a := Close(Close(WithPipe(t, n), 0), 1);
    assert PipeRead(t) == 0 && Lowest(a, 0) == 0;
    assert 1 !in Writer(t, n);
  }

  // ---------------------------------------------------------------- handlePipes()

  /** A "|" is the last word. */
  predicate EndsInBar(args: seq<string>) {
    args != [] && args[|args| - 1] == "|"
  }

  /** `Ran`: every process has come to its end in the code, linuxExe() or execve();
      `NoCommand`: every process has come to linuxExe(), but one without words took args[0],
      which is NULL, for a command; `Died`: the last process copied from a NULL pointer in
      hasPipe(); `Overrun`: the last process wrote behind PIPE. */
  datatype Outcome = Ran | NoCommand | Died | Overrun

  /** What handlePipes() does, as a function of the descriptors it starts with. */
  function Handled(t: Table, size: nat, head: seq<string>, tail: seq<string>, pCount: nat, n: nat): (seq<Stage>, Outcome)
    decreases |tail|
  {
    if pCount + 1 >= size then ([], Overrun)
    else
      var w := Stage(head, Writer(t, n));
      var i := FirstBar(tail);
      if i == |tail| then ([w, Stage(tail, Reader(t, n))], Ran)
      else if i + 1 == |tail| then ([w], Died)
      else
        var (rest, outcome) := Handled(Reader(t, n), size, tail[..i], tail[i + 1..], pCount + 1, n + 1);
        ([w] + rest, outcome)
  }

  // ---------------------------------------------------------------- theorems

  lemma {:induction false} WiredCons(t: Table, n: nat, head: seq<string>, rest: seq<seq<string>>)
    requires rest != []
    ensures WiredStages(t, n, [head] + rest)
            == [Stage(head, t[1 := WriteEnd(n)])] + WiredStages(t[0 := ReadEnd(n)], n + 1, rest)
  {
    var all, more := WiredStages(t, n, [head] + rest), WiredStages(t[0 := ReadEnd(n)], n + 1, rest);
    forall k | 0 < k < |all| ensures all[k] == more[k - 1] {
      assert t[0 := ReadEnd(n)][0 := ReadEnd(n + k - 1)] == t[0 := ReadEnd(n + k - 1)];
    }
  }

  lemma {:induction false} SplitAtBar(args: seq<string>)
    requires FirstBar(args) < |args|
    ensures Stages(args) == [args[..FirstBar(args)]] + Stages(args[FirstBar(args) + 1..])
  {
  }

  lemma {:induction false} SameEnd(args: seq<string>, tail: seq<string>)
    requires tail != [] && |tail| <= |args| && tail == args[|args| - |tail|..]
    ensures EndsInBar(tail) <==> EndsInBar(args)
  {
    assert tail[|tail| - 1] == args[|args| - 1];
  }

  lemma {:induction false} BarLast(args: seq<string>)
    ensures FirstBar(args) + 1 == |args| ==> EndsInBar(args) && |Stages(args)| == 2
  {
    if FirstBar(args) + 1 == |args| { assert Stages(args[|args|..]) == [[]] by { assert args[|args|..] == []; } }
  }

  lemma {:induction false} NoBar(args: seq<string>)
    ensures FirstBar(args) == |args| ==> !EndsInBar(args) && |Stages(args)| == 1
  {
  }

  /** In a command line that does not end in "|", neither does the part behind the first "|". */
  lemma {:induction false} TailOf(args: seq<string>)
    requires FirstBar(args) < |args| && !EndsInBar(args)
    ensures var tail := args[FirstBar(args) + 1..];
            && Stages(args) == [args[..FirstBar(args)]] + Stages(tail)
            && !EndsInBar(tail) && tail != [] && FirstBar(tail) + 1 != |tail|
  {
    var tail := args[FirstBar(args) + 1..];
    SplitAtBar(args);
    if tail != [] { SameEnd(args, tail); }
    BarLast(tail);
  }

  lemma {:induction false} HandledStep(t: Table, size: nat, head: seq<string>, tail: seq<string>, pCount: nat, n: nat)
    requires FirstBar(tail) + 1 != |tail| && pCount + 1 < size
    ensures var j, w := FirstBar(tail), Stage(head, Writer(t, n));
            Handled(t, size, head, tail, pCount, n) ==
            if j == |tail| then ([w] + [Stage(tail, Reader(t, n))], Ran)
            else var r := Handled(Reader(t, n), size, tail[..j], tail[j + 1..], pCount + 1, n + 1); ([w] + r.0, r.1)
  {
    var w, r := Stage(head, Writer(t, n)), Stage(tail, Reader(t, n));
    assert [w] + [r] == [w, r];
  }

  /** For a pipeline of any length and a PIPE long enough, started with standard input open:
      the stages are the command line split at "|", and stage k holds exactly the shell's
      descriptors with its input on pipe k - 1 and its output on pipe k. */
  lemma {:induction false} PipelineIsWired(t: Table, size: nat, args: seq<string>, pCount: nat, n: nat)
    requires 0 in t && FirstBar(args) < |args| && !EndsInBar(args)
    requires pCount + |Stages(args)| <= size
    ensures var i := FirstBar(args);
            Handled(t, size, args[..i], args[i + 1..], pCount, n) == (WiredStages(t, n, Stages(args)), Ran)
    decreases |args|
  {
    var i := FirstBar(args);
    var head, tail := args[..i], args[i + 1..];
    TailOf(args);
    OnePipe(t, n);
    WiredCons(t, n, head, Stages(tail));
    HandledStep(t, size, head, tail, pCount, n);
    hide Handled, Writer, Reader, Lowest;
    if FirstBar(tail) == |tail| {
      assert WiredStages(Reader(t, n), n + 1, [tail]) == [Stage(tail, Reader(t, n))];
    } else {
      PipelineIsWired(Reader(t, n), size, tail, pCount + 1, n + 1);
    }
  }

  /** The wiring is right exactly when the shell has standard input open. */
  lemma {:induction false} WiredIffInputOpen(t: Table, size: nat, args: seq<string>, n: nat)
    requires FirstBar(args) < |args| && !EndsInBar(args) && |Stages(args)| <= size
    ensures var i := FirstBar(args);
            Handled(t, size, args[..i], args[i + 1..], 0, n) == (WiredStages(t, n, Stages(args)), Ran) <==> 0 in t
  {
    var i := FirstBar(args);
    var head, tail := args[..i], args[i + 1..];
    if 0 in t {
      PipelineIsWired(t, size, args, 0, n);
    } else {
      TailOf(args);
      OnePipeWithoutInput(t, n);
      WiredCons(t, n, head, Stages(tail));
      HandledFirst(t, size, head, tail, n);
    }
  }

  lemma {:induction false} HandledFirst(t: Table, size: nat, head: seq<string>, tail: seq<string>, n: nat)
    requires 1 < size
    ensures var ss := Handled(t, size, head, tail, 0, n).0; ss != [] && ss[0] == Stage(head, Writer(t, n))
  {
  }

  lemma {:induction false} OutcomeStep(t: Table, size: nat, head: seq<string>, tail: seq<string>, pCount: nat, n: nat)
    ensures var j := FirstBar(tail);
            Handled(t, size, head, tail, pCount, n).1 ==
            if pCount + 1 >= size then Overrun
            else if j == |tail| then Ran
            else if j + 1 == |tail| then Died
            else Handled(Reader(t, n), size, tail[..j], tail[j + 1..], pCount + 1, n + 1).1
  {
  }

  /** PIPE is not overrun exactly when there are no more stages than elements; with the
      PIPE[4] of the code, up to four. */
  lemma {:induction false} InBoundsIff(t: Table, size: nat, args: seq<string>, pCount: nat, n: nat)
    requires FirstBar(args) < |args| && !EndsInBar(args)
    ensures var i := FirstBar(args);
            Handled(t, size, args[..i], args[i + 1..], pCount, n).1 != Overrun <==> pCount + |Stages(args)| <= size
    decreases |args|
  {
    var i := FirstBar(args);
    var tail := args[i + 1..];
    TailOf(args);
    OutcomeStep(t, size, args[..i], tail, pCount, n);
    hide Handled, Writer, Reader;
    if FirstBar(tail) < |tail| {
      InBoundsIff(Reader(t, n), size, tail, pCount + 1, n + 1);
    }
  }

  lemma {:induction false} TailOfAny(args: seq<string>)
    requires FirstBar(args) + 1 < |args|
    ensures var tail := args[FirstBar(args) + 1..];
            && Stages(args) == [args[..FirstBar(args)]] + Stages(tail) && |Stages(args)| == 1 + |Stages(tail)|
            && (EndsInBar(tail) <==> EndsInBar(args))
            && (FirstBar(tail) == |tail| ==> !EndsInBar(tail) && |Stages(tail)| == 1)
            && (FirstBar(tail) + 1 == |tail| ==> EndsInBar(tail) && |Stages(tail)| == 2)
  {
    var tail := args[FirstBar(args) + 1..];
    SplitAtBar(args);
    SameEnd(args, tail);
    BarLast(tail);
    NoBar(tail);
    hide EndsInBar, Stages, FirstBar;
  }

  function EndOf(size: nat, pCount: nat, stages: nat, bar: bool): Outcome {
    if pCount + stages > size + (if bar then 1 else 0) then Overrun else if bar then Died else Ran
  }

  /** The stages and the end of what is behind the first bar. */
  lemma {:induction false} BehindBar(args: seq<string>, rest: seq<string>)
    requires FirstBar(args) + 1 < |args| && rest == args[FirstBar(args) + 1..]
    ensures |Stages(args)| == 1 + |Stages(rest)| && (EndsInBar(rest) <==> EndsInBar(args))
    ensures |Stages(rest)| >= 1 + if EndsInBar(rest) then 1 else 0
  {
    SplitAtBar(args);
    SameEnd(args, rest);
    BarCounts(rest);
  }

  lemma {:induction false} BarCounts(args: seq<string>)
    ensures |Stages(args)| >= 1 + if EndsInBar(args) then 1 else 0
  {
  }

  lemma {:induction false} OutcomeOf(t: Table, size: nat, head: seq<string>, tail: seq<string>, pCount: nat, n: nat)
    requires tail != []
    ensures Handled(t, size, head, tail, pCount, n).1 == EndOf(size, pCount, 1 + |Stages(tail)|, EndsInBar(tail))
    decreases |tail|
  {
    var j := FirstBar(tail);
    OutcomeStep(t, size, head, tail, pCount, n);
    NoBar(tail);
    BarLast(tail);
    BarCounts(tail);
    hide Handled, Reader, EndsInBar;
    if j + 1 < |tail| {
      var rest := tail[j + 1..];
      BehindBar(tail, rest);
      OutcomeOf(Reader(t, n), size, tail[..j], rest, pCount + 1, n + 1);
      hide Stages, FirstBar;
    }
  }

  /** How a pipeline ends: a bar at the end makes the last process die, if PIPE has lasted so
      far; otherwise every process is handed to linuxExe(), again if PIPE has lasted. */
  lemma {:induction false} OutcomeIs(t: Table, size: nat, args: seq<string>, pCount: nat, n: nat)
    requires FirstBar(args) + 1 < |args|
    ensures var i := FirstBar(args);
            Handled(t, size, args[..i], args[i + 1..], pCount, n).1 == EndOf(size, pCount, |Stages(args)|, EndsInBar(args))
  {
    hide Handled, EndsInBar, EndOf;
    var i := FirstBar(args);
    var head, tail := args[..i], args[i + 1..];
    BehindBar(args, tail);
    OutcomeOf(t, size, head, tail, pCount, n);
  }

  // ---------------------------------------------------------------- linuxExe()

  /** The processes that get through getCMD() to execve(): the ones with a word. */
  function Commands(ss: seq<Stage>): seq<Stage> {
    if ss == [] then [] else (if ss[0].args == [] then [] else [ss[0]]) + Commands(ss[1..])
  }

  /** The processes that reach execve(), and how it ends. */
  function Executed(h: (seq<Stage>, Outcome)): (seq<Stage>, Outcome) {
    (Commands(h.0), if h.1.Ran? && exists k :: 0 <= k < |h.0| && h.0[k].args == [] then NoCommand else h.1)
  }

  lemma {:induction false} CommandsAll(ss: seq<Stage>)
    requires forall k :: 0 <= k < |ss| ==> ss[k].args != []
    ensures Commands(ss) == ss
  {
    if ss != [] {
      CommandsAll(ss[1..]);
      assert ss == [ss[0]] + ss[1..];
    }
  }

  function ArgsOf(ss: seq<Stage>): (r: seq<seq<string>>)
    ensures |r| == |ss| && forall k :: 0 <= k < |r| ==> r[k] == ss[k].args
  {
    if ss == [] then [] else [ss[0].args] + ArgsOf(ss[1..])
  }

  lemma {:induction false} ArgsOfCons(w: Stage, ss: seq<Stage>)
    ensures ArgsOf([w] + ss) == [w.args] + ArgsOf(ss)
  {
    assert ([w] + ss)[1..] == ss;
  }

  lemma {:induction false} ArgsStep(t: Table, size: nat, head: seq<string>, tail: seq<string>, pCount: nat, n: nat)
    requires FirstBar(tail) + 1 != |tail| && pCount + 1 < size
    ensures var j := FirstBar(tail);
            ArgsOf(Handled(t, size, head, tail, pCount, n).0) ==
            if j == |tail| then [head] + [tail]
            else [head] + ArgsOf(Handled(Reader(t, n), size, tail[..j], tail[j + 1..], pCount + 1, n + 1).0)
  {
    var j, w := FirstBar(tail), Stage(head, Writer(t, n));
    HandledStep(t, size, head, tail, pCount, n);
    if j == |tail| {
      ArgsOfCons(w, [Stage(tail, Reader(t, n))]);
      assert ArgsOf([Stage(tail, Reader(t, n))]) == [tail];
    } else {
      ArgsOfCons(w, Handled(Reader(t, n), size, tail[..j], tail[j + 1..], pCount + 1, n + 1).0);
    }
  }

  /** Whatever their descriptors, the processes have the words between the bars. */
  lemma {:induction false} HandledArgs(t: Table, size: nat, args: seq<string>, pCount: nat, n: nat)
    requires FirstBar(args) < |args| && !EndsInBar(args) && pCount + |Stages(args)| <= size
    ensures var i := FirstBar(args);
            ArgsOf(Handled(t, size, args[..i], args[i + 1..], pCount, n).0) == Stages(args)
    decreases |args|
  {
    var i := FirstBar(args);
    var tail := args[i + 1..];
    TailOf(args);
    ArgsStep(t, size, args[..i], tail, pCount, n);
    hide Handled, Writer, Reader, ArgsOf, EndsInBar;
    if FirstBar(tail) < |tail| {
      HandledArgs(Reader(t, n), size, tail, pCount + 1, n + 1);
    }
  }

  /** A bar at the end makes an empty stage. */
  lemma {:induction false} BarMakesEmpty(args: seq<string>)
    requires FirstBar(args) + 1 < |args| && EndsInBar(args)
    ensures [] in Stages(args)
    decreases |args|
  {
    var tail := args[FirstBar(args) + 1..];
    TailOfAny(args);
    assert forall s :: s in Stages(tail) ==> s in Stages(args);
    if FirstBar(tail) + 1 == |tail| {
      assert tail[|tail|..] == [] && Stages(tail) == [tail[..FirstBar(tail)]] + [[]];
      assert Stages(tail)[1] == [];
    } else {
      BarMakesEmpty(tail);
    }
  }

  lemma {:induction false} SomeEmpty(ss: seq<Stage>)
    ensures [] in ArgsOf(ss) <==> exists k :: 0 <= k < |ss| && ss[k].args == []
  {
    if exists k :: 0 <= k < |ss| && ss[k].args == [] {
      var k :| 0 <= k < |ss| && ss[k].args == [];
      assert ArgsOf(ss)[k] == [];
    }
  }

  /** How a line ends that has a word behind its first bar. */
  lemma {:induction false} LineEnds(t: Table, size: nat, args: seq<string>, n: nat)
    requires FirstBar(args) + 1 < |args|
    ensures var i := FirstBar(args);
            Executed(Handled(t, size, args[..i], args[i + 1..], 0, n)).1 ==
            if |Stages(args)| > size + (if EndsInBar(args) then 1 else 0) then Overrun
            else if EndsInBar(args) then Died
            else if [] in Stages(args) then NoCommand
            else Ran
  {
    hide Handled, EndsInBar, ArgsOf, Commands;
    OutcomeIs(t, size, args, 0, n);
    var i := FirstBar(args);
    var h := Handled(t, size, args[..i], args[i + 1..], 0, n);
    if h.1.Ran? {
      HandledArgs(t, size, args, 0, n);
      SomeEmpty(h.0);
    }
  }

  /** The processes that reach execve() are those of the pipeline, wired as they are to be,
      exactly when the shell has standard input open, no stage is empty (nor is there a bar at
      the end, which would make one), and PIPE has an element for each stage. */
  lemma {:induction false} WiredIff(t: Table, size: nat, args: seq<string>, n: nat)
    requires FirstBar(args) + 1 < |args|
    ensures var i := FirstBar(args);
            Executed(Handled(t, size, args[..i], args[i + 1..], 0, n)) == (WiredStages(t, n, Stages(args)), Ran)
            <==> 0 in t && [] !in Stages(args) && |Stages(args)| <= size
  {
    hide Handled, EndsInBar, Executed, WiredStages;
    LineEnds(t, size, args, n);
    if EndsInBar(args) { BarMakesEmpty(args); }
    if [] !in Stages(args) && |Stages(args)| <= size {
      AllExecuted(t, size, args, n);
      WiredIffInputOpen(t, size, args, n);
    }
  }

  /** Without an empty stage getCMD() stops nobody. */
  lemma {:induction false} AllExecuted(t: Table, size: nat, args: seq<string>, n: nat)
    requires FirstBar(args) + 1 < |args| && !EndsInBar(args) && [] !in Stages(args) && |Stages(args)| <= size
    ensures var i := FirstBar(args);
            var h := Handled(t, size, args[..i], args[i + 1..], 0, n);
            Executed(h) == h
  {
    hide Handled, EndsInBar, Commands;
    var i := FirstBar(args);
    var h := Handled(t, size, args[..i], args[i + 1..], 0, n);
    HandledArgs(t, size, args, 0, n);
    forall k | 0 <= k < |h.0| ensures h.0[k].args != [] { assert ArgsOf(h.0)[k] in Stages(args); }
    CommandsAll(h.0);
  }

  /** `a | | b`: the process in the middle has no command. */
  lemma {:induction false} EmptyStage(t: Table, n: nat)
    requires 0 in t
    ensures var args := ["a", "|", "|", "b"];
            && FirstBar(args) == 1 && Stages(args) == [["a"], [], ["b"]]
            && Handled(t, 4, ["a"], ["|", "b"], 0, n).1 == Ran
            && Executed(Handled(t, 4, ["a"], ["|", "b"], 0, n)).1 == NoCommand
  {
    hide Executed;
    var args := ["a", "|", "|", "b"];
    StagesOf([], ["b"]);
    LastStage(["b"]);
    assert [] + ["|"] + ["b"] == ["|", "b"] && [[]] + [["b"]] == [[], ["b"]];
    StagesOf(["a"], ["|", "b"]);
    assert ["a"] + ["|"] + ["|", "b"] == args && [["a"]] + [[], ["b"]] == [["a"], [], ["b"]];
    assert Stages(args)[1] == [];
    OutcomeIs(t, 4, args, 0, n);
    LineEnds(t, 4, args, n);
  }

  lemma {:induction false} LastStage(args: seq<string>)
    requires "|" !in args
    ensures FirstBar(args) == |args| && Stages(args) == [args]
  {
    forall i | 0 <= i < |args| ensures args[i] != "|" { assert args[i] in args; }
  }

  lemma {:induction false} StagesOf(head: seq<string>, tail: seq<string>)
    requires "|" !in head
    ensures var args := head + ["|"] + tail;
            && FirstBar(args) == |head| && args[..|head|] == head && args[|head| + 1..] == tail
            && Stages(args) == [head] + Stages(tail)
  {
    var args := head + ["|"] + tail;
    var i := FirstBar(args);
    assert args[|head|] == "|";
    assert forall j :: 0 <= j < |head| ==> args[j] == head[j] && head[j] in head;
    assert args[..|head|] == head && args[|head| + 1..] == tail;
  }

  /** `a | b |`: the process behind `b` dies in hasPipe(). */
  lemma {:induction false} BarAtTheEnd(t: Table, n: nat)
    ensures var args := ["a", "|", "b", "|"];
            FirstBar(args) == 1 && Executed(Handled(t, 4, ["a"], ["b", "|"], 0, n)).1 == Died
  {
    var args := ["a", "|", "b", "|"];
    StagesOf(["a"], ["b", "|"]);
    StagesOf(["b"], []);
    LastStage([]);
    assert ["a"] + ["|"] + ["b", "|"] == args && ["b"] + ["|"] + [] == ["b", "|"];
    LineEnds(t, 4, args, n);
  }

  /** The words `ws` with bars between them. */
  function Barred(ws: seq<string>): seq<string>
    requires ws != []
  {
    if |ws| == 1 then ws else [ws[0]] + ["|"] + Barred(ws[1..])
  }

  lemma {:induction false} BarredStages(ws: seq<string>)
    requires ws != [] && forall i :: 0 <= i < |ws| ==> ws[i] != "|"
    ensures |Stages(Barred(ws))| == |ws| && Barred(ws) != [] && !EndsInBar(Barred(ws))
    ensures |ws| > 1 ==> FirstBar(Barred(ws)) == 1 && |Barred(ws)| > 2
  {
    if |ws| == 1 {
      LastStage(ws);
    } else {
      BarredStages(ws[1..]);
      StagesOf([ws[0]], Barred(ws[1..]));
    }
  }

  /** Any five words with bars between them overrun PIPE[4]. */
  lemma {:induction false} FiveStages(t: Table, n: nat, ws: seq<string>)
    requires |ws| == 5 && forall i :: 0 <= i < |ws| ==> ws[i] != "|"
    ensures var args := Barred(ws);
            |args| > 2 && Executed(Handled(t, 4, args[..1], args[2..], 0, n)).1 == Overrun
  {
    BarredStages(ws);
    LineEnds(t, 4, Barred(ws), n);
  }

  /** With descriptor 0 closed, `a | b` writes nowhere: dup() puts the pipe on descriptor 0. */
  lemma {:induction false} MiswiredWithoutInput(n: nat)
    ensures var t, args := map[1 := Opened(1), 2 := Opened(2)], ["a", "|", "b"];
            && FirstBar(args) == 1 && Stages(args) == [["a"], ["b"]]
            && Handled(t, 4, ["a"], ["b"], 0, n) != (WiredStages(t, n, Stages(args)), Ran)
            && Writer(t, n) == map[0 := WriteEnd(n), 2 := Opened(2)]
  {
    var t: Table, args := map[1 := Opened(1), 2 := Opened(2)], ["a", "|", "b"];
    assert args[1..] == ["|", "b"] && args[1..][0] == "|" && args[..1] == ["a"] && args[2..] == ["b"];
    assert FirstBar(args) == 1 && FirstBar(["b"]) == 1 by { assert ["b"][1..] == []; }
    assert Stages(["b"]) == [["b"]];
    WiredIffInputOpen(t, 4, args, n);
    WriterWithoutInput(n);
    hide Writer, Stages, FirstBar, WiredStages, Handled;
  }

  lemma {:induction false} WriterWithoutInput(n: nat)
    ensures var t: Table := map[1 := Opened(1), 2 := Opened(2)]; Writer(t, n) == map[0 := WriteEnd(n), 2 := Opened(2)]
  {
    var t: Table := map[1 := Opened(1), 2 := Opened(2)];
    assert PipeRead(t) == 0 && Lowest(t, 1) == 3;
    var u := Close(Close(WithPipe(t, n), 0), 1);
    assert Lowest(u, 0) == 0;
  }

  lemma {:induction false} WiredEnds(t: Table, n: nat, ss: seq<seq<string>>, k: nat, fd: nat, p: nat)
    requires k < |ss| && forall f :: f in t ==> t[f].Opened?
    ensures var fds := WiredStages(t, n, ss)[k].fds;
            && (fd in fds && fds[fd] == WriteEnd(p) <==> fd == 1 && p == n + k && k + 1 < |ss|)
            && (fd in fds && fds[fd] == ReadEnd(p) <==> fd == 0 && p == n + k - 1 && k > 0)
  {
  }

  /** Each end of each pipe is held by the one stage of handlePipes() that it is for, on its one
      descriptor, and by nobody else. */
  lemma {:induction false} EndsHeldOnce(t: Table, size: nat, args: seq<string>, n: nat, k: nat, fd: nat, p: nat)
    requires 0 in t && FirstBar(args) + 1 < |args| && !EndsInBar(args) && |Stages(args)| <= size
    requires forall f :: f in t ==> t[f].Opened?
    ensures var i := FirstBar(args);
            var ss := Handled(t, size, args[..i], args[i + 1..], 0, n).0;
            && |ss| == |Stages(args)|
            && (k < |ss| ==>
                  && (fd in ss[k].fds && ss[k].fds[fd] == WriteEnd(p) <==> fd == 1 && p == n + k && k + 1 < |ss|)
                  && (fd in ss[k].fds && ss[k].fds[fd] == ReadEnd(p) <==> fd == 0 && p == n + k - 1 && k > 0))
  {
    PipelineIsWired(t, size, args, 0, n);
    var ss := Stages(args);
    assert |WiredStages(t, n, ss)| == |ss|;
    if k < |ss| { WiredEnds(t, n, ss, k, fd, p); }
    hide WiredStages, Wired, Writer, Reader, EndsInBar;
  }

  /** argvInfo() undoes ArrtoStr() exactly on words without blanks. */
  lemma {:induction false} ArgvOfJoined(args: seq<string>)
    ensures Tokens(Join(args, ' '), ' ') == args <==> Words(args, ' ')
  {
    if Words(args, ' ') { TokensJoin(args, ' '); }
  }
}
