/** The commands of Lab5/Code/Main.c as a user of a plain tree of directories sees them, and the
    references that they leave behind. */
module MountCommands {
  import opened Text
  import opened Directory
  import opened InodeCache
  import opened DirWalk
  import opened CacheView
  import opened TableRoom

  /** The references that getino() as written leaves behind. */
  function LeftByGetino(dev: int, t: Room, cwd: nat, path: seq<nat>, w: Walk<nat>): Holdings {
    if path == [SLASH] then multiset{}
    else if Tokens(path, SLASH) == [] then multiset{(dev, StartOf(cwd, path))}
    else if w.Hit? && Fits(t, (dev, w.value as int)) then multiset{(dev, w.value)}
    else multiset{}
  }

  lemma {:induction false} HitLeaves(s: State, dev: int, t: Room, cwd: nat, path: seq<nat>)
    requires OnDisk(s.disk, s.start, dev, ROOT) && OnDisk(s.disk, s.start, dev, cwd)
    ensures var w := GetinoWith(s, dev, t, cwd, path);
            w.Hit? && OnDisk(s.disk, s.start, dev, w.value) ==>
              && w.value > 0 && (path == [SLASH] ==> w.value == ROOT)
              && LeftByGetino(dev, t, cwd, path, w)
                 == if path == [SLASH] || !Fits(t, (dev, w.value as int)) then multiset{} else multiset{(dev, w.value as int)}
  {
  }

  /** Without a hit nothing changes. */
  lemma {:induction false} LeftNothing(s: State, dev: int, t: Room, cwd: nat, path: seq<nat>)
    requires OnDisk(s.disk, s.start, dev, ROOT) && OnDisk(s.disk, s.start, dev, cwd)
    ensures path != [] && !CommandWalk(s, dev, t, cwd, path).Hit? ==> CdTarget(s, dev, t, cwd, path) == cwd
  {
  }

  lemma {:induction false} SwapHold(h: Holdings, c: (int, int), n: (int, int))
    requires c in h
    ensures h + multiset{n} - multiset{c} == h - multiset{c} + multiset{n}
    ensures h - multiset{c} + multiset{c} == h
  {
  }

  /** The directory that cd leads to: a missing name or a file changes nothing, and so does an
      empty path. */
  function CdTarget(s: State, dev: int, t: Room, cwd: nat, path: seq<nat>): nat
    requires OnDisk(s.disk, s.start, dev, ROOT) && OnDisk(s.disk, s.start, dev, cwd)
  {
    if path == [] then cwd
    else
      var w := CommandWalk(s, dev, t, cwd, path);
      if w.Hit? && OnDisk(s.disk, s.start, dev, w.value) && Logical(s, dev, w.value).mode.Dir? then w.value else cwd
  }

  // ---------------------------------------------------------------- a session

  datatype Command = Ls(path: seq<nat>) | Cd(path: seq<nat>) | Pwd

  /** `Dead`: the command never ends, or uses a NULL pointer or memory that is not its own. */
  datatype Output = Listed(entries: seq<(Name, Inode)>) | Path(path: seq<nat>) | Silent | Dead

  /** The path does not lead through a file. */
  predicate Straight(v: Volume, cwd: nat, path: seq<nat>)
    requires Tree(v) && cwd in v.dirs
  {
    Walkable(v, StartOf(cwd, path), Tokens(path, SLASH))
  }

  /** The meaning of a path in the tree; 0 when there is no such file. */
  function Target(v: Volume, cwd: nat, path: seq<nat>): nat
    requires Tree(v) && cwd in v.dirs && Straight(v, cwd, path)
  {
    if path == [SLASH] then ROOT
    else if Tokens(path, SLASH) == [] then 0
    else Resolve(v, StartOf(cwd, path), Tokens(path, SLASH))
  }

  ghost predicate Shown(v: Volume, s: State, dev: int) {
    Tree(v) && Stored(v, s, dev)
  }

  lemma {:induction false} ShownIsStored(v: Volume, s: State, dev: int)
    requires Shown(v, s, dev)
    ensures Tree(v) && Stored(v, s, dev)
  {
  }

  lemma {:induction false} RootAndCwdOnDisk(v: Volume, s: State, dev: int, cwd: nat)
    requires Tree(v) && Stored(v, s, dev) && cwd in v.dirs
    ensures OnDisk(s.disk, s.start, dev, ROOT) && OnDisk(s.disk, s.start, dev, cwd)
    ensures Logical(s, dev, cwd).mode.Dir?
  {
    assert DirStored(v, s, dev, ROOT) && DirStored(v, s, dev, cwd);
  }

  lemma {:induction false} GetinoIsTarget(v: Volume, s: State, dev: int, cwd: nat, path: seq<nat>)
    requires Tree(v) && Stored(v, s, dev) && cwd in v.dirs && Straight(v, cwd, path)
    ensures OnDisk(s.disk, s.start, dev, ROOT) && OnDisk(s.disk, s.start, dev, cwd)
    ensures var n := Target(v, cwd, path);
            && Getino(s, dev, cwd, path) == (if n == 0 then Miss else Hit(n))
            && (n != 0 ==> OnDisk(s.disk, s.start, dev, n) && (Logical(s, dev, n).mode.Dir? <==> n in v.dirs))
  {
    assert DirStored(v, s, dev, ROOT) && DirStored(v, s, dev, cwd);
    if path != [SLASH] && Tokens(path, SLASH) != [] {
      ResolveInIsResolve(v, s, dev, StartOf(cwd, path), Tokens(path, SLASH));
    }
  }

  /** A path through a regular file has no meaning, and yet getino() searches the blocks of the
      file as if they were a directory's.  It answers 0, as it should, exactly when the rest of
      the path leads nowhere by the bytes of the first file on it; for one name behind the file:
      when the bytes carry no record with it, or a first one that is not in use. */
  lemma {:induction false} PathThroughFileIff(v: Volume, s: State, dev: int, cwd: nat, path: seq<nat>)
    requires Tree(v) && Stored(v, s, dev) && cwd in v.dirs && !Straight(v, cwd, path)
    ensures OnDisk(s.disk, s.start, dev, ROOT) && OnDisk(s.disk, s.start, dev, cwd)
    ensures var (f, rest) := FirstFile(v, StartOf(cwd, path), Tokens(path, SLASH));
            && f !in v.dirs && rest != [] && OnDisk(s.disk, s.start, dev, f) && !Logical(s, dev, f).mode.Dir?
            && (Getino(s, dev, cwd, path) == Miss <==> LeadsNowhere(s, dev, f, rest))
            && (|rest| == 1 ==>
                  (LeadsNowhere(s, dev, f, rest) <==>
                   Lacks(s.disk, dev, Logical(s, dev, f), 0, rest[0]) || FirstIn(s.disk, dev, Logical(s, dev, f), 0, rest[0], 0)))
  {
    RootAndCwdOnDisk(v, s, dev, cwd);
    FromFirstFile(v, s, dev, StartOf(cwd, path), Tokens(path, SLASH));
    SlashHasNoNames();
    var (f, rest) := FirstFile(v, StartOf(cwd, path), Tokens(path, SLASH));
    MissIff(s, dev, f, rest);
  }

  /** Where a path goes: its meaning, or, through a file, wherever the bytes lead. */
  ghost function Goes(v: Volume, s: State, dev: int, cwd: nat, path: seq<nat>): Walk<nat>
    requires Shown(v, s, dev) && cwd in v.dirs
  {
    if Straight(v, cwd, path) then (if Target(v, cwd, path) == 0 then Miss else Hit(Target(v, cwd, path)))
    else
      assert DirStored(v, s, dev, ROOT) && DirStored(v, s, dev, cwd);
      Getino(s, dev, cwd, path)
  }

  /** The path does not come, through the bytes of a file, to a directory outside the tree. */
  ghost predicate PathOk(v: Volume, s: State, dev: int, cwd: nat, path: seq<nat>)
    requires Shown(v, s, dev) && cwd in v.dirs
  {
    var w := Goes(v, s, dev, cwd, path);
    w.Hit? && OnDisk(s.disk, s.start, dev, w.value) && Logical(s, dev, w.value).mode.Dir? ==> w.value in v.dirs
  }

  /** Where a command comes with a path: there, if every inode that it loads has a slot, and to
      a NULL pointer otherwise. */
  ghost function Comes(v: Volume, s: State, dev: int, t: Room, cwd: nat, path: seq<nat>): Walk<nat>
    requires Shown(v, s, dev) && cwd in v.dirs
  {
    assert DirStored(v, s, dev, ROOT) && DirStored(v, s, dev, cwd);
    if AllFit(t, Needs(s, dev, cwd, path)) then Goes(v, s, dev, cwd, path) else Wild
  }

  lemma {:induction false} GetinoGoes(v: Volume, s: State, dev: int, cwd: nat, path: seq<nat>)
    requires Shown(v, s, dev) && cwd in v.dirs
    ensures OnDisk(s.disk, s.start, dev, ROOT) && OnDisk(s.disk, s.start, dev, cwd)
    ensures var w := Goes(v, s, dev, cwd, path);
            && w == Getino(s, dev, cwd, path)
            && (w.Hit? ==> OnDisk(s.disk, s.start, dev, w.value))
            && (w.Hit? && w.value in v.dirs ==> Logical(s, dev, w.value).mode.Dir?)
            && (Straight(v, cwd, path) ==> PathOk(v, s, dev, cwd, path))
  {
    RootAndCwdOnDisk(v, s, dev, cwd);
    var w := Goes(v, s, dev, cwd, path);
    hide Tree, Stored, OnDisk, Logical, ResolveIn, Tokens, Target, Walkable;
    if Straight(v, cwd, path) {
      GetinoIsTarget(v, s, dev, cwd, path);
    } else {
      HitIsOnDisk(s, dev, StartOf(cwd, path), Tokens(path, SLASH));
    }
    if w.Hit? && w.value in v.dirs { RootAndCwdOnDisk(v, s, dev, w.value); }
  }

  lemma {:induction false} CommandComes(v: Volume, s: State, dev: int, t: Room, cwd: nat, path: seq<nat>)
    requires Shown(v, s, dev) && cwd in v.dirs
    ensures OnDisk(s.disk, s.start, dev, ROOT) && OnDisk(s.disk, s.start, dev, cwd)
    ensures var w := Comes(v, s, dev, t, cwd, path);
            && w == CommandWalk(s, dev, t, cwd, path)
            && (w.Hit? ==> OnDisk(s.disk, s.start, dev, w.value) && Fits(t, (dev, w.value as int)))
            && (w.Hit? || w.Miss? ==> w == Goes(v, s, dev, cwd, path) && w == GetinoWith(s, dev, t, cwd, path))
            && (w.Hit? && w.value in v.dirs ==> Logical(s, dev, w.value).mode.Dir?)
  {
    GetinoGoes(v, s, dev, cwd, path);
    CommandWalkIff(s, dev, t, cwd, path);
  }

  lemma {:induction false} HitIsOnDisk(s: State, dev: int, d: nat, names: seq<Name>)
    requires OnDisk(s.disk, s.start, dev, d)
    ensures var w := ResolveIn(s, dev, d, names); w.Hit? ==> OnDisk(s.disk, s.start, dev, w.value)
    decreases |names|
  {
    if names != [] {
      var w := SearchFrom(s.disk, dev, Logical(s, dev, d), 0, names[0]);
      if w.Hit? && OnDisk(s.disk, s.start, dev, w.value) { HitIsOnDisk(s, dev, w.value, names[1..]); }
    }
  }

  /** cd, in the tree. */
  ghost function CdTo(v: Volume, s: State, dev: int, t: Room, cwd: nat, path: seq<nat>): (cwd': nat)
    requires Shown(v, s, dev) && cwd in v.dirs
    ensures cwd' in v.dirs
  {
    var w := Comes(v, s, dev, t, cwd, path);
    if path != [] && w.Hit? && w.value in v.dirs then w.value else cwd
  }

  /** cd ends where the tree says, exactly unless it is led out of the tree by the bytes of a
      file. */
  lemma {:induction false} CdTargetIsCdTo(v: Volume, s: State, dev: int, t: Room, cwd: nat, path: seq<nat>)
    requires Shown(v, s, dev) && cwd in v.dirs
    ensures OnDisk(s.disk, s.start, dev, ROOT) && OnDisk(s.disk, s.start, dev, cwd)
    ensures PathOk(v, s, dev, cwd, path) ==> CdTarget(s, dev, t, cwd, path) == CdTo(v, s, dev, t, cwd, path)
    ensures Comes(v, s, dev, t, cwd, path).Hit? ==>
              (CdTarget(s, dev, t, cwd, path) == CdTo(v, s, dev, t, cwd, path) <==> path == [] || PathOk(v, s, dev, cwd, path))
  {
    CommandComes(v, s, dev, t, cwd, path);
  }

  /** cd without a path leaves the cwd alone, where ReadMe asks for the root: it does what `cd /`
      does in the root only. */
  lemma {:induction false} CdAloneIsRightIff(v: Volume, s: State, dev: int, t: Room, cwd: nat)
    requires Shown(v, s, dev) && cwd in v.dirs && Fits(t, (dev, ROOT as int))
    ensures CdTo(v, s, dev, t, cwd, [SLASH]) == ROOT
    ensures CdTo(v, s, dev, t, cwd, []) == CdTo(v, s, dev, t, cwd, [SLASH]) <==> cwd == ROOT
  {
    CommandComes(v, s, dev, t, cwd, [SLASH]);
  }

  function Shows(w: Walk<seq<(Name, Inode)>>): Output {
    if w.Hit? then Listed(w.value) else Dead
  }

  function Returned(w: Walk<nat>, out: Output): Output {
    if w.Hit? || w.Miss? then out else Dead
  }

  /** What ls prints: a directory entry by entry, a file as itself. */
  function InodeOutput(v: Volume, s: State, dev: int, t: Room, path: seq<nat>, n: nat): Output
    requires OnDisk(s.disk, s.start, dev, n)
  {
    if n in v.dirs then Shows(Listing(s, dev, t, EntriesOf(v, n)))
    else if Logical(s, dev, n).mode.Reg? then Listed([(path, Logical(s, dev, n))])
    else Silent
  }

  ghost function LsOutput(v: Volume, s: State, dev: int, t: Room, cwd: nat, path: seq<nat>): Output
    requires Shown(v, s, dev) && cwd in v.dirs
  {
    if path == [] then Shows(Listing(s, dev, t, EntriesOf(v, cwd)))
    else
      var w := Comes(v, s, dev, t, cwd, path);
      CommandComes(v, s, dev, t, cwd, path);
      // the inode itself is held meanwhile
      if w.Hit? then InodeOutput(v, s, dev, Add(t, multiset{(dev, w.value as int)}), path, w.value) else Returned(w, Silent)
  }

  ghost predicate CommandOk(v: Volume, s: State, dev: int, cwd: nat, cmd: Command)
    requires Shown(v, s, dev) && cwd in v.dirs
  {
    cmd.Pwd? || PathOk(v, s, dev, cwd, cmd.path)
  }

  ghost function Output1(v: Volume, s: State, dev: int, t: Room, cwd: nat, cmd: Command): Output
    requires Shown(v, s, dev) && cwd in v.dirs
  {
    match cmd
    case Ls(path) => LsOutput(v, s, dev, t, cwd, path)
    case Cd(path) => if path == [] then Silent else Returned(Comes(v, s, dev, t, cwd, path), Silent)
    case Pwd => if FitTogether(t, Ancestors(v, dev, cwd)) then Path(PwdPath(v, cwd)) else Dead
  }

  ghost function NextCwd(v: Volume, s: State, dev: int, t: Room, cwd: nat, cmd: Command): (cwd': nat)
    requires Shown(v, s, dev) && cwd in v.dirs
    ensures cwd' in v.dirs
  {
    if cmd.Cd? then CdTo(v, s, dev, t, cwd, cmd.path) else cwd
  }

  /** The reference that getino() as written leaves. */
  ghost function LeftBy(v: Volume, s: State, dev: int, t: Room, cwd: nat, path: seq<nat>): Holdings
    requires Shown(v, s, dev) && cwd in v.dirs
  {
    if path == [] then multiset{} else LeftByGetino(dev, t, cwd, path, Comes(v, s, dev, t, cwd, path))
  }

  /** The references behind a command that is not `Dead`: as ReadMe asks that of the new cwd takes
      the place of the old one; as written, those that it left are added. */
  ghost function RoomAfter(v: Volume, s: State, dev: int, readme: bool, t: Room, cwd: nat, cmd: Command): Room
    requires Shown(v, s, dev) && cwd in v.dirs
  {
    if readme then
      (if t.Endless? then t
       else t.(holds := t.holds - multiset{(dev, cwd as int)} + multiset{(dev, NextCwd(v, s, dev, t, cwd, cmd) as int)}))
    else Add(t, if cmd.Pwd? then Ancestors(v, dev, cwd) else LeftBy(v, s, dev, t, cwd, cmd.path))
  }

  ghost predicate SessionOk(v: Volume, s: State, dev: int, readme: bool, t: Room, cwd: nat, cmds: seq<Command>)
    requires Shown(v, s, dev) && cwd in v.dirs
    decreases |cmds|
  {
    cmds == []
    || (&& CommandOk(v, s, dev, cwd, cmds[0])
        && SessionOk(v, s, dev, readme, RoomAfter(v, s, dev, readme, t, cwd, cmds[0]), NextCwd(v, s, dev, t, cwd, cmds[0]), cmds[1..]))
  }

  /** A session: the outputs, the last cwd and what is held in the end.  A `Dead` command is the
      last one.  With an `Endless` table it is the session on the plain tree. */
  datatype Result = Result(out: seq<Output>, cwd: nat, room: Room)

  ghost function Session(v: Volume, s: State, dev: int, readme: bool, t: Room, cwd: nat, cmds: seq<Command>): (r: Result)
    requires Shown(v, s, dev) && cwd in v.dirs
    ensures r.cwd in v.dirs
    decreases |cmds|
  {
    if cmds == [] then Result([], cwd, t)
    else
      var out, next := Output1(v, s, dev, t, cwd, cmds[0]), NextCwd(v, s, dev, t, cwd, cmds[0]);
      if out.Dead? then Result([out], next, t)
      else
        var rest := Session(v, s, dev, readme, RoomAfter(v, s, dev, readme, t, cwd, cmds[0]), next, cmds[1..]);
        rest.(out := [out] + rest.out)
  }

  /** The last command is `Dead`. */
  predicate Died(out: seq<Output>) {
    out != [] && out[|out| - 1].Dead?
  }

  /** What a command is to do, in the terms of the methods that do it. */
  lemma {:induction false} LsMeans(v: Volume, s: State, dev: int, readme: bool, h: Holdings, n: nat, cwd: nat, path: seq<nat>)
    requires Shown(v, s, dev) && cwd in v.dirs && (dev, cwd as int) in h && CommandOk(v, s, dev, cwd, Ls(path))
    ensures var t, cmd := Slots(h, n), Ls(path);
            && PathOk(v, s, dev, cwd, path) && NextCwd(v, s, dev, t, cwd, cmd) == cwd
            && Output1(v, s, dev, t, cwd, cmd) == LsOutput(v, s, dev, t, cwd, path)
            && RoomAfter(v, s, dev, readme, t, cwd, cmd) == Slots(if readme then h else h + LeftBy(v, s, dev, t, cwd, path), n)
  {
    hide Shown, Tree, Stored, PathOk, CdTo, LsOutput, LeftByGetino, Comes, Goes, CommandWalk, CdTarget, Held, PwdPath, Fits, Tokens;
    SwapHold(h, (dev, cwd as int), (dev, cwd as int));
  }

  lemma {:induction false} CdMeans(v: Volume, s: State, dev: int, readme: bool, h: Holdings, n: nat, cwd: nat, path: seq<nat>)
    requires Shown(v, s, dev) && cwd in v.dirs && CommandOk(v, s, dev, cwd, Cd(path))
    ensures OnDisk(s.disk, s.start, dev, ROOT) && OnDisk(s.disk, s.start, dev, cwd)
    ensures var t, cmd := Slots(h, n), Cd(path);
            var w, next := if path == [] then Hit(cwd) else CommandWalk(s, dev, t, cwd, path), CdTarget(s, dev, t, cwd, path);
            && NextCwd(v, s, dev, t, cwd, cmd) == next && Output1(v, s, dev, t, cwd, cmd) == Returned(w, Silent)
            && RoomAfter(v, s, dev, readme, t, cwd, cmd)
               == Slots(if readme then h - multiset{(dev, cwd as int)} + multiset{(dev, next as int)}
                        else if path == [] then h else h + LeftByGetino(dev, t, cwd, path, w), n)
  {
    hide Shown, Tree, Stored, PathOk, CdTo, LsOutput, LeftByGetino, Comes, Goes, CommandWalk, CdTarget, Held, PwdPath, Fits, Tokens;
    CdTargetIsCdTo(v, s, dev, Slots(h, n), cwd, path);
    CommandComes(v, s, dev, Slots(h, n), cwd, path);
  }

  lemma {:induction false} PwdMeans(v: Volume, s: State, dev: int, readme: bool, h: Holdings, n: nat, cwd: nat)
    requires Shown(v, s, dev) && cwd in v.dirs && (dev, cwd as int) in h && Tree(v)
    ensures var t := Slots(h, n);
            && NextCwd(v, s, dev, t, cwd, Pwd) == cwd
            && Output1(v, s, dev, t, cwd, Pwd) == (if |Held(h + Ancestors(v, dev, cwd))| <= n then Path(PwdPath(v, cwd)) else Dead)
            && RoomAfter(v, s, dev, readme, t, cwd, Pwd) == Slots(h + if readme then multiset{} else Ancestors(v, dev, cwd), n)
  {
    hide Shown, Tree, Stored, PathOk, CdTo, LsOutput, LeftByGetino, Comes, Goes, CommandWalk, CdTarget, Held, PwdPath, Fits, Tokens;
    SwapHold(h, (dev, cwd as int), (dev, cwd as int));
  }

  /** With the releases that ReadMe asks for, root and the new cwd are held again. */
  lemma {:induction false} KeepsBoth(v: Volume, s: State, dev: int, t: Room, cwd: nat, cmd: Command)
    requires Shown(v, s, dev) && cwd in v.dirs && t.Slots? && RootAndCwd(dev, cwd) <= t.holds
    ensures var t' := RoomAfter(v, s, dev, true, t, cwd, cmd);
            t'.Slots? && RootAndCwd(dev, NextCwd(v, s, dev, t, cwd, cmd)) <= t'.holds
  {
    hide Shown, NextCwd;
  }

  lemma {:induction false} NoneDied()
    ensures !Died([])
  {
  }

  lemma {:induction false} LastDied(out: seq<Output>, last: Output)
    ensures Died(out + [last]) <==> last.Dead?
  {
  }

  /** A session that has printed `out` and goes on with `cmds`. */
  ghost predicate Continues(v: Volume, s: State, dev: int, readme: bool, all: Result, out: seq<Output>, t: Room, cwd: nat, cmds: seq<Command>)
    requires Shown(v, s, dev)
  {
    && cwd in v.dirs && SessionOk(v, s, dev, readme, t, cwd, cmds)
    && var rest := Session(v, s, dev, readme, t, cwd, cmds);
       all == rest.(out := out + rest.out)
  }

  lemma {:induction false} SessionStart(v: Volume, s: State, dev: int, readme: bool, t: Room, cwd: nat, cmds: seq<Command>)
    requires Shown(v, s, dev) && cwd in v.dirs && SessionOk(v, s, dev, readme, t, cwd, cmds)
    ensures Continues(v, s, dev, readme, Session(v, s, dev, readme, t, cwd, cmds), [], t, cwd, cmds)
  {
    hide Shown, SessionOk, Session;
    var r := Session(v, s, dev, readme, t, cwd, cmds);
    assert [] + r.out == r.out;
  }

  lemma {:induction false} SessionStep(v: Volume, s: State, dev: int, readme: bool, all: Result, out: seq<Output>, t: Room, cwd: nat, cmds: seq<Command>)
    requires Shown(v, s, dev) && Continues(v, s, dev, readme, all, out, t, cwd, cmds)
    ensures cwd in v.dirs
    ensures cmds == [] ==> all == Result(out, cwd, t)
    ensures cmds != [] ==>
              var shown, next := Output1(v, s, dev, t, cwd, cmds[0]), NextCwd(v, s, dev, t, cwd, cmds[0]);
              && CommandOk(v, s, dev, cwd, cmds[0])
              && (shown.Dead? ==> all == Result(out + [shown], next, t))
              && (!shown.Dead? ==>
                    Continues(v, s, dev, readme, all, out + [shown], RoomAfter(v, s, dev, readme, t, cwd, cmds[0]), next, cmds[1..]))
  {
    hide Shown, Output1, NextCwd, CommandOk, RoomAfter;
    if cmds == [] {
      assert out + [] == out;
    } else {
      var first, next := [Output1(v, s, dev, t, cwd, cmds[0])], NextCwd(v, s, dev, t, cwd, cmds[0]);
      var rest := Session(v, s, dev, readme, RoomAfter(v, s, dev, readme, t, cwd, cmds[0]), next, cmds[1..]);
      assert out + (first + rest.out) == (out + first) + rest.out;
    }
  }

  // ---------------------------------------------------------------- the same, later

  lemma {:induction false} ShownKept(v: Volume, s: State, s': State, dev: int)
    requires SameView(s, s') && Shown(v, s, dev)
    ensures Shown(v, s', dev)
  {
    StoredKept(v, s, s', dev);
  }

  lemma {:induction false} GoesKept(v: Volume, s: State, s': State, dev: int, cwd: nat, path: seq<nat>)
    requires SameView(s, s') && Shown(v, s, dev) && cwd in v.dirs
    ensures Shown(v, s', dev) && Goes(v, s', dev, cwd, path) == Goes(v, s, dev, cwd, path)
    ensures PathOk(v, s', dev, cwd, path) <==> PathOk(v, s, dev, cwd, path)
  {
    ShownKept(v, s, s', dev);
    GetinoGoes(v, s, dev, cwd, path);
    ResolveKept(s, s', dev, StartOf(cwd, path), Tokens(path, SLASH));
    var w := Goes(v, s, dev, cwd, path);
    if w.Hit? { Seen(s, s', dev, w.value); }
  }

  lemma {:induction false} ComesKept(v: Volume, s: State, s': State, dev: int, t: Room, cwd: nat, path: seq<nat>)
    requires SameView(s, s') && Shown(v, s, dev) && cwd in v.dirs
    ensures Shown(v, s', dev) && Comes(v, s', dev, t, cwd, path) == Comes(v, s, dev, t, cwd, path)
    ensures PathOk(v, s', dev, cwd, path) <==> PathOk(v, s, dev, cwd, path)
    ensures CdTo(v, s', dev, t, cwd, path) == CdTo(v, s, dev, t, cwd, path)
    ensures LeftBy(v, s', dev, t, cwd, path) == LeftBy(v, s, dev, t, cwd, path)
  {
    GoesKept(v, s, s', dev, cwd, path);
    GetinoGoes(v, s, dev, cwd, path);
    GetinoGoes(v, s', dev, cwd, path);
    SearchedKept(s, s', dev, StartOf(cwd, path), Tokens(path, SLASH));
  }

  lemma {:induction false} InodeOutputKept(v: Volume, s: State, s': State, dev: int, t: Room, t': Room, path: seq<nat>, n: nat)
    requires SameView(s, s') && SameRoom(t, t') && OnDisk(s.disk, s.start, dev, n)
    ensures OnDisk(s'.disk, s'.start, dev, n) && InodeOutput(v, s', dev, t', path, n) == InodeOutput(v, s, dev, t, path, n)
  {
    Seen(s, s', dev, n);
    if n in v.dirs { ListingKept(s, s', dev, t, t', EntriesOf(v, n)); }
  }

  lemma {:induction false} LsOutputKept(v: Volume, s: State, s': State, dev: int, t: Room, cwd: nat, path: seq<nat>)
    requires SameView(s, s') && Shown(v, s, dev) && cwd in v.dirs
    ensures Shown(v, s', dev) && LsOutput(v, s', dev, t, cwd, path) == LsOutput(v, s, dev, t, cwd, path)
  {
    hide Shown, Comes, OnDisk, Logical, SameView, Listing, InodeOutput;
    ComesKept(v, s, s', dev, t, cwd, path);
    CommandComes(v, s, dev, t, cwd, path);
    ListingKept(s, s', dev, t, t, EntriesOf(v, cwd));
    var w := Comes(v, s, dev, t, cwd, path);
    if w.Hit? {
      var t' := Add(t, multiset{(dev, w.value as int)});
      InodeOutputKept(v, s, s', dev, t', t', path, w.value);
    }
  }

  lemma {:induction false} CommandKept(v: Volume, s: State, s': State, dev: int, readme: bool, t: Room, cwd: nat, cmd: Command)
    requires SameView(s, s') && Shown(v, s, dev) && cwd in v.dirs
    ensures Shown(v, s', dev)
    ensures CommandOk(v, s', dev, cwd, cmd) <==> CommandOk(v, s, dev, cwd, cmd)
    ensures Output1(v, s', dev, t, cwd, cmd) == Output1(v, s, dev, t, cwd, cmd)
    ensures NextCwd(v, s', dev, t, cwd, cmd) == NextCwd(v, s, dev, t, cwd, cmd)
    ensures RoomAfter(v, s', dev, readme, t, cwd, cmd) == RoomAfter(v, s, dev, readme, t, cwd, cmd)
  {
    hide Shown, SameView, Comes, LsOutput, CdTo, LeftBy, PathOk;
    ShownKept(v, s, s', dev);
    ShownIsStored(v, s, dev);
    if !cmd.Pwd? { ComesKept(v, s, s', dev, t, cwd, cmd.path); }
    if cmd.Ls? { LsOutputKept(v, s, s', dev, t, cwd, cmd.path); }
  }

  // ---------------------------------------------------------------- room for pwd

  lemma {:induction false} NoneHeld()
    ensures Held(multiset{}) == {}
  {
  }

  lemma {:induction false} AncestorsAbove(v: Volume, dev: int, d: nat, k: (int, int))
    requires Tree(v) && d in v.dirs && k in Ancestors(v, dev, d)
    ensures exists a: nat :: k == (dev, a as int) && a in v.depth && v.depth[a] < v.depth[d]
    decreases v.depth[d]
  {
    assert DirOk(v, d);
    var p := Parent(v, d);
    if k != (dev, p as int) { AncestorsAbove(v, dev, p, k); }
  }

  /** A directory's ancestors are different inodes, as many as its path has names. */
  lemma {:induction false} AncestorsCount(v: Volume, dev: int, d: nat)
    requires Tree(v) && d in v.dirs && d != ROOT
    ensures |Held(Ancestors(v, dev, d))| == |PwdNames(v, d)| && (dev, ROOT as int) in Ancestors(v, dev, d)
    ensures (dev, d as int) !in Ancestors(v, dev, d)
    decreases v.depth[d]
  {
    assert DirOk(v, d);
    var p := Parent(v, d);
    assert DirOk(v, p);
    var up, k := Ancestors(v, dev, p), (dev, p as int);
    assert Ancestors(v, dev, d) == up + multiset{k} && |PwdNames(v, d)| == |PwdNames(v, p)| + 1;
    if (dev, d as int) in Ancestors(v, dev, d) { AncestorsAbove(v, dev, d, (dev, d as int)); }
    if k in up { AncestorsAbove(v, dev, p, k); }
    hide Tree, DirOk;
    assert Held(up + multiset{k}) == Held(up) + {k};
    if p == ROOT {
      NoneHeld();
    } else {
      AncestorsCount(v, dev, p);
    }
  }

  /** The parent of a directory is the first that pwd needs. */
  lemma {:induction false} ParentFirst(v: Volume, s: State, dev: int, h: Holdings, d: nat)
    requires Tree(v) && Stored(v, s, dev) && d in v.dirs && d != ROOT
    ensures var p := Parent(v, d);
            && p in v.dirs && p in v.depth && d in v.depth && v.depth[p] < v.depth[d] && p > 0
            && OnDisk(s.disk, s.start, dev, p)
            && Ancestors(v, dev, d) == multiset{(dev, p as int)} + Ancestors(v, dev, p)
            && |Held(h + multiset{(dev, p as int)})| <= |Held(h + Ancestors(v, dev, d))|
  {
    assert DirOk(v, d);
    var p := Parent(v, d);
    assert DirOk(v, p) && DirStored(v, s, dev, p);
    NoMore(Held(h + multiset{(dev, p as int)}), Held(h + Ancestors(v, dev, d)));
  }

  /** What a process holds between commands. */
  function RootAndCwd(dev: int, cwd: int): Holdings {
    multiset{(dev, ROOT as int), (dev, cwd)}
  }

  lemma {:induction false} RootAndCwdCount(dev: int, cwd: int)
    ensures |Held(RootAndCwd(dev, cwd))| <= 2
  {
    var k, r := (dev, cwd), (dev, ROOT as int);
    assert Held(RootAndCwd(dev, cwd)) == {r, k};
  }

  lemma {:induction false} SwapCwd(dev: int, c: int, c': int)
    ensures RootAndCwd(dev, c) - multiset{(dev, c)} + multiset{(dev, c')} == RootAndCwd(dev, c')
  {
  }

  /** pwd holds one inode for each level of the tree, the root's included: it fits exactly when
      the depth of cwd is less than the number of slots. */
  lemma {:induction false} RoomForPwd(v: Volume, dev: int, d: nat)
    requires Tree(v) && d in v.dirs
    ensures |Held(RootAndCwd(dev, d) + Ancestors(v, dev, d))| == |PwdNames(v, d)| + 1
  {
    var k, r, up := (dev, d as int), (dev, ROOT as int), Ancestors(v, dev, d);
    assert RootAndCwd(dev, d) + up == up + multiset{k} + multiset{r};
    HeldAdds(up, k);
    HeldAdds(up + multiset{k}, r);
    if d == ROOT {
      assert up == multiset{} && |PwdNames(v, d)| == 0;
      NoneHeld();
    } else {
      AncestorsCount(v, dev, d);
    }
  }

  /** The path names nothing that exists, and getino() finds that out by a search. */
  ghost predicate NotFound(v: Volume, s: State, dev: int, t: Room, cwd: nat, path: seq<nat>)
    requires Shown(v, s, dev) && cwd in v.dirs
  {
    Tokens(path, SLASH) != [] && Comes(v, s, dev, t, cwd, path).Miss?
  }

  lemma {:induction false} LeavesNothingIff(v: Volume, s: State, dev: int, t: Room, cwd: nat, path: seq<nat>)
    requires Shown(v, s, dev) && cwd in v.dirs
    requires path != [] ==> Comes(v, s, dev, t, cwd, path).Hit? || Comes(v, s, dev, t, cwd, path).Miss?
    ensures LeftBy(v, s, dev, t, cwd, path) == multiset{} <==> path == [] || path == [SLASH] || NotFound(v, s, dev, t, cwd, path)
    ensures |LeftBy(v, s, dev, t, cwd, path)| <= 1
    ensures Tokens([SLASH], SLASH) == []
  {
    SlashHasNoNames();
    CommandComes(v, s, dev, t, cwd, path);
    hide Shown, Comes, Tokens, Logical, OnDisk, Fits, CommandWalk, GetinoWith, Goes;
  }

  /** cd as written, when it returns, keeps the counts exact only when it leads nowhere: without
      a path, for a name that does not exist, or from the root to the root. */
  lemma {:induction false} WrittenCdIsExactIff(v: Volume, s: State, dev: int, t: Room, cwd: nat, path: seq<nat>)
    requires Shown(v, s, dev) && cwd in v.dirs
    requires path != [] ==> Comes(v, s, dev, t, cwd, path).Hit? || Comes(v, s, dev, t, cwd, path).Miss?
    ensures RootAndCwd(dev, cwd) + LeftBy(v, s, dev, t, cwd, path) == RootAndCwd(dev, CdTo(v, s, dev, t, cwd, path))
            <==> path == [] || (path == [SLASH] && cwd == ROOT) || NotFound(v, s, dev, t, cwd, path)
  {
    var before, left, c := RootAndCwd(dev, cwd), LeftBy(v, s, dev, t, cwd, path), CdTo(v, s, dev, t, cwd, path);
    LeavesNothingIff(v, s, dev, t, cwd, path);
    assert |before + left| == 2 + |left| && |RootAndCwd(dev, c)| == 2;
    if left == multiset{} {
      assert before + left == before;
      assert c != cwd ==> before[(dev, c as int)] != RootAndCwd(dev, c)[(dev, c as int)];
    }
  }

  /** ls as written keeps the counts exact exactly when it looks at cwd or "/", or finds nothing. */
  lemma {:induction false} WrittenLsIsExactIff(v: Volume, s: State, dev: int, t: Room, cwd: nat, path: seq<nat>)
    requires Shown(v, s, dev) && cwd in v.dirs
    requires path != [] ==> Comes(v, s, dev, t, cwd, path).Hit? || Comes(v, s, dev, t, cwd, path).Miss?
    ensures RootAndCwd(dev, cwd) + LeftBy(v, s, dev, t, cwd, path) == RootAndCwd(dev, cwd)
            <==> path == [] || path == [SLASH] || NotFound(v, s, dev, t, cwd, path)
  {
    var before, left := RootAndCwd(dev, cwd), LeftBy(v, s, dev, t, cwd, path);
    LeavesNothingIff(v, s, dev, t, cwd, path);
    assert |before + left| == |before| + |left|;
  }

  /** pwd as written keeps them exact in the root only. */
  lemma {:induction false} WrittenPwdIsExactIff(v: Volume, dev: int, cwd: nat)
    requires Tree(v) && cwd in v.dirs
    ensures RootAndCwd(dev, cwd) + Ancestors(v, dev, cwd) == RootAndCwd(dev, cwd) <==> cwd == ROOT
  {
    var before, left := RootAndCwd(dev, cwd), Ancestors(v, dev, cwd);
    assert |before + left| == |before| + |left|;
    if cwd != ROOT { AncestorsCount(v, dev, cwd); }
  }
}
