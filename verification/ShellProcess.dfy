/** The shell's processes: hasPipe() and handlePipes() of Lab3/Lab3.c, in place on the
    descriptors of each process and on its copy of the global PIPE. */
module ShellProcess {
  import opened Text
  import opened Pipeline

  // ---------------------------------------------------------------- words and lines

  /** ArrtoStr() */
  method ArrtoStr(arr: seq<string>) returns (str: string)
    ensures str == Join(arr, ' ')
  {
    str := "";
    var i := 0;
    assert arr[0..] == arr;
    while i < |arr|
      invariant 0 <= i <= |arr| && str + Join(arr[i..], ' ') == Join(arr, ' ')
    {
      assert arr[i..][0] == arr[i] && arr[i..][1..] == arr[i + 1..];
      str := str + arr[i];
      if i + 1 < |arr| { str := str + " "; }
      i := i + 1;
    }
    assert arr[i..] == [];
  }

  /** argvInfo() */
  method ArgvInfo(line: string) returns (args: seq<string>)
    ensures args == Tokens(line, ' ')
  {
    args := [];
    var rest := line;
    while rest != ""
      invariant args + Tokens(rest, ' ') == Tokens(line, ' ')
      decreases |rest|
    {
      if rest[0] == ' ' {
        rest := rest[1..];
      } else {
        var n := Span(rest, ' ');
        args, rest := args + [rest[..n]], rest[n..];
      }
    }
  }

  /** The line that run() makes of the words, taken apart again. */
  method Rejoined(args: seq<string>) returns (again: seq<string>)
    ensures again == args <==> Words(args, ' ')
  {
    var line := ArrtoStr(args);
    again := ArgvInfo(line);
    ArgvOfJoined(args);
  }

  // ---------------------------------------------------------------- linuxExe()

  /** getCMD(): each directory of PATH up to /bin is joined with args[0], which is NULL for no
      words: `dead`.  Without /bin there is no command. */
  method GetCmd(args: seq<string>, dirs: seq<string>) returns (dead: bool, cmd: string)
    ensures dead <==> args == [] && dirs != []
    ensures !dead ==> cmd == if "/bin" in dirs then "/bin/" + args[0] else ""
  {
    var i := 0;
    while i < |dirs|
      invariant 0 <= i <= |dirs| && "/bin" !in dirs[..i] && (i > 0 ==> args != [])
    {
      if args == [] { return true, ""; }
      assert dirs[..i + 1] == dirs[..i] + [dirs[i]];
      if dirs[i] == "/bin" { return false, dirs[i] + "/" + args[0]; }
      i := i + 1;
    }
    assert dirs[..i] == dirs;
    return false, "";
  }

  lemma {:induction false} CommandsStep(stages: seq<Stage>, k: nat, reached: seq<Stage>)
    requires k < |stages|
    ensures reached + Commands(stages[k..]) ==
            (if stages[k].args == [] then reached else reached + [stages[k]]) + Commands(stages[k + 1..])
  {
    assert stages[k..][0] == stages[k] && stages[k..][1..] == stages[k + 1..];
  }

  /** linuxExe() in every process of the line, with a PATH of at least one directory. */
  method LinuxExe(stages: seq<Stage>, outcome: Outcome, dirs: seq<string>) returns (reached: seq<Stage>, end: Outcome)
    requires dirs != []
    ensures (reached, end) == Executed((stages, outcome))
  {
    reached := [];
    var k, empty := 0, false;
    assert stages[0..] == stages;
    while k < |stages|
      invariant 0 <= k <= |stages| && reached + Commands(stages[k..]) == Commands(stages)
      invariant empty <==> exists i :: 0 <= i < k && stages[i].args == []
    {
      CommandsStep(stages, k, reached);
      var dead, cmd := GetCmd(stages[k].args, dirs);
      if dead { empty := true; } else { reached := reached + [stages[k]]; }
      k := k + 1;
    }
    assert stages[k..] == [] && reached + [] == reached;
    end := if outcome.Ran? && empty then NoCommand else outcome;
  }

  // ---------------------------------------------------------------- hasPipe()

  datatype Split = NoBar | Bar(head: seq<string>, tail: seq<string>) | Crash

  /** hasPipe(): the words before the first "|" and the words behind it.  A "|" as last word
      makes it copy from a NULL pointer. */
  method HasPipe(args: seq<string>) returns (s: Split)
    ensures var i := FirstBar(args);
            s == if i == |args| then NoBar else if i + 1 == |args| then Crash else Bar(args[..i], args[i + 1..])
  {
    var foundPipe := false;
    var head: seq<string>, tail: seq<string> := [], [];
    var i := 0;
    ghost var bar := FirstBar(args);
    while i < |args|
      invariant 0 <= i <= |args| && bar == FirstBar(args)
      invariant !foundPipe ==> i <= bar && head == args[..i] && tail == []
      invariant foundPipe ==> bar + 1 < i && head == args[..bar] && tail == args[bar + 1..i]
    {
      if args[i] == "|" || foundPipe {
        if !foundPipe {
          foundPipe := true;
          i := i + 1;
          if i == |args| { return Crash; }
        }
        tail := tail + [args[i]];
        assert args[bar + 1..i + 1] == args[bar + 1..i] + [args[i]];
      } else {
        head := head + [args[i]];
        assert args[..i + 1] == args[..i] + [args[i]];
      }
      i := i + 1;
    }
    if !foundPipe { return NoBar; }
    assert args[bar + 1..i] == args[bar + 1..];
    return Bar(head, tail);
  }

  /** A process: its descriptors and its copy of the global PIPE. */
  class Process {
    var fds: Table
    const pipe: array<int>

    constructor (fds: Table, size: nat)
      ensures this.fds == fds && fresh(pipe) && pipe.Length == size
    {
      this.fds := fds;
      this.pipe := new int[size](_ => 0);
    }

    /** fork(): a second process with the same descriptors and the same contents of PIPE. */
    method Fork() returns (child: Process)
      ensures fresh(child) && fresh(child.pipe) && child.fds == fds && child.pipe[..] == pipe[..]
    {
      child := new Process(fds, pipe.Length);
      for i := 0 to pipe.Length
        modifies child.pipe
        invariant child.fds == fds
        invariant forall j :: 0 <= j < i ==> child.pipe[j] == pipe[j]
      {
        child.pipe[i] := pipe[i];
      }
    }

    /** pipe(pd) with pd = &PIPE[at]; n numbers the new pipe. */
    method MakePipe(at: nat, n: nat)
      requires at + 1 < pipe.Length
      modifies this, pipe
      ensures fds == WithPipe(old(fds), n)
      ensures pipe[at] == PipeRead(old(fds)) && pipe[at + 1] == PipeWrite(old(fds))
    {
      var r, w := PipeRead(fds), PipeWrite(fds);
      fds := WithPipe(fds, n);
      pipe[at] := r;
      pipe[at + 1] := w;
    }

    /** The parent's branch of handlePipes(), up to execve(). */
    method BecomeWriter(at: nat, ghost base: Table, ghost n: nat)
      requires at + 1 < pipe.Length && fds == WithPipe(base, n)
      requires pipe[at] == PipeRead(base) && pipe[at + 1] == PipeWrite(base)
      modifies this
      ensures fds == Writer(base, n)
    {
      fds := Close(fds, pipe[at]);
      fds := Close(fds, 1);
      fds := Dup(fds, pipe[at + 1]);
      fds := Close(fds, pipe[at + 1]);
    }

    /** The child's branch of handlePipes(), up to the next hasPipe(). */
    method BecomeReader(at: nat, ghost base: Table, ghost n: nat)
      requires at + 1 < pipe.Length && fds == WithPipe(base, n)
      requires pipe[at] == PipeRead(base) && pipe[at + 1] == PipeWrite(base)
      modifies this
      ensures fds == Reader(base, n)
    {
      fds := Close(fds, pipe[at + 1]);
      fds := Close(fds, 0);
      fds := Dup(fds, pipe[at]);
      fds := Close(fds, pipe[at]);
    }

    /** handlePipes(head, tail, pCount) in this process, which becomes the first stage; n
        numbers the next pipe.  The stages are those that reach execve(), in order. */
    method HandlePipes(head: seq<string>, tail: seq<string>, pCount: nat, n: nat)
      returns (stages: seq<Stage>, outcome: Outcome)
      modifies this, pipe
      ensures (stages, outcome) == Handled(old(fds), pipe.Length, head, tail, pCount, n)
      decreases |tail|
    {
      if pCount + 1 >= pipe.Length { return [], Overrun; }
      ghost var base := fds;
      MakePipe(pCount, n);
      var child := Fork();
      assert child.pipe[pCount] == child.pipe[..][pCount] && child.pipe[pCount + 1] == child.pipe[..][pCount + 1];
      BecomeWriter(pCount, base, n);
      stages := [Stage(head, fds)];
      child.BecomeReader(pCount, base, n);
      var split := HasPipe(tail);
      match split {
        case NoBar => return [Stage(head, fds), Stage(tail, child.fds)], Ran;
        case Crash => return stages, Died;
        case Bar(h, t) =>
          var rest;
          rest, outcome := child.HandlePipes(h, t, pCount + 1, n + 1);
          stages := stages + rest;
      }
    }
  }
}
