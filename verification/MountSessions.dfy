/** Whole sessions of Lab5: with the references that ReadMe asks for a table of fixed size is as
    good as one without a limit; as written it fills up. */
module MountSessions {
  import opened Text
  import opened Directory
  import opened InodeCache
  import opened DirWalk
  import opened CacheView
  import opened TableRoom
  import opened MountCommands

  // ---------------------------------------------------------------- when a command is the last

  /** With this path getino() never ends, or comes to a NULL pointer or to memory that is not its own. */
  ghost predicate Lost(v: Volume, s: State, dev: int, t: Room, cwd: nat, path: seq<nat>)
    requires Shown(v, s, dev) && cwd in v.dirs
  {
    RootAndCwdOnDisk(v, s, dev, cwd);
    !AllFit(t, Needs(s, dev, cwd, path)) || Goes(v, s, dev, cwd, path).Hang? || Goes(v, s, dev, cwd, path).Wild?
  }

  /** A record that is not in use has a slot. */
  predicate ListDies(v: Volume, dev: int, t: Room, d: nat)
    requires d in v.dirs
  {
    !AllInUse(EntriesOf(v, d)) && Fits(t, (dev, 0))
  }

  /** ls is the last command: its path is lost, or the directory cannot be listed. */
  ghost predicate LsDies(v: Volume, s: State, dev: int, t: Room, cwd: nat, path: seq<nat>)
    requires Shown(v, s, dev) && cwd in v.dirs
  {
    if path == [] then ListDies(v, dev, t, cwd)
    else
      var w := Goes(v, s, dev, cwd, path);
      || Lost(v, s, dev, t, cwd, path)
      || (w.Hit? && w.value in v.dirs && ListDies(v, dev, Add(t, multiset{(dev, w.value as int)}), w.value))
  }

  /** The commands that are the last of a session: pwd below more directories than fit, a path
      that loads an inode for which there is no slot, ls of a directory with an unused record
      while a slot is free. */
  lemma {:induction false} DeadIff(v: Volume, s: State, dev: int, t: Room, cwd: nat, cmd: Command)
    requires Shown(v, s, dev) && cwd in v.dirs && (t.Slots? ==> (dev, 0) !in t.holds)
    ensures Output1(v, s, dev, t, cwd, cmd).Dead? <==>
            match cmd
            case Pwd => !FitTogether(t, Ancestors(v, dev, cwd))
            case Cd(path) => path != [] && Lost(v, s, dev, t, cwd, path)
            case Ls(path) => LsDies(v, s, dev, t, cwd, path)
  {
    hide Shown, Goes, Comes, OnDisk, Logical, Lost, LsDies, LsOutput, Ancestors, PwdPath, FitTogether, Tree, Stored;
    ShownIsStored(v, s, dev);
    if !cmd.Pwd? {
      LostIff(v, s, dev, t, cwd, cmd.path);
      if cmd.Ls? { LsDeadIff(v, s, dev, t, cwd, cmd.path); }
    }
  }

  lemma {:induction false} LostIff(v: Volume, s: State, dev: int, t: Room, cwd: nat, path: seq<nat>)
    requires Shown(v, s, dev) && cwd in v.dirs
    ensures OnDisk(s.disk, s.start, dev, ROOT) && OnDisk(s.disk, s.start, dev, cwd)
    ensures var w := Comes(v, s, dev, t, cwd, path);
            && (Lost(v, s, dev, t, cwd, path) <==> w.Hang? || w.Wild?)
            && (!Lost(v, s, dev, t, cwd, path) ==> w == Goes(v, s, dev, cwd, path))
  {
    hide Shown, Tree, Stored, OnDisk, Logical, Needs, Goes;
    ShownIsStored(v, s, dev);
    RootAndCwdOnDisk(v, s, dev, cwd);
  }

  /** A path that stays on directories is lost in the table only. */
  lemma {:induction false} StraightLostIff(v: Volume, s: State, dev: int, t: Room, cwd: nat, path: seq<nat>)
    requires Shown(v, s, dev) && cwd in v.dirs && Straight(v, cwd, path)
    ensures OnDisk(s.disk, s.start, dev, ROOT) && OnDisk(s.disk, s.start, dev, cwd)
    ensures Lost(v, s, dev, t, cwd, path) <==> !AllFit(t, Needs(s, dev, cwd, path))
  {
    RootAndCwdOnDisk(v, s, dev, cwd);
    GoesStraight(v, s, dev, cwd, path);
    hide OnDisk, Needs, Goes, Shown;
  }

  lemma {:induction false} GoesStraight(v: Volume, s: State, dev: int, cwd: nat, path: seq<nat>)
    requires Shown(v, s, dev) && cwd in v.dirs && Straight(v, cwd, path)
    ensures Goes(v, s, dev, cwd, path).Hit? || Goes(v, s, dev, cwd, path).Miss?
  {
    ShownIsStored(v, s, dev);
    hide Shown, Target, Stored, Tree, Straight;
  }

  lemma {:induction false} LsDeadIff(v: Volume, s: State, dev: int, t: Room, cwd: nat, path: seq<nat>)
    requires Shown(v, s, dev) && cwd in v.dirs && (t.Slots? ==> (dev, 0) !in t.holds)
    ensures LsOutput(v, s, dev, t, cwd, path).Dead? <==> LsDies(v, s, dev, t, cwd, path)
  {
    hide Shown, Goes, Comes, OnDisk, Logical, Lost, ListDies, Listing, EntriesOf, Held, Fits, CommandWalk, GetinoWith;
    LostIff(v, s, dev, t, cwd, path);
    CommandComes(v, s, dev, t, cwd, path);
    var w := Comes(v, s, dev, t, cwd, path);
    if path == [] {
      DirIsListed(v, s, dev, t, cwd);
    } else if w.Hit? && w.value in v.dirs {
      DirIsListed(v, s, dev, Add(t, multiset{(dev, w.value as int)}), w.value);
    }
  }

  lemma {:induction false} DirIsListed(v: Volume, s: State, dev: int, t: Room, d: nat)
    requires Shown(v, s, dev) && d in v.dirs && (t.Slots? ==> (dev, 0) !in t.holds)
    ensures Listing(s, dev, t, EntriesOf(v, d)).Hit? <==> !ListDies(v, dev, t, d)
  {
    assert DirStored(v, s, dev, d);
    ListsIff(v, s, dev, t, d);
  }

  // ---------------------------------------------------------------- with room to spare

  lemma {:induction false} ListingWithRoom(s: State, dev: int, t: Room, es: seq<Entry>)
    requires t.Slots? ==> |Held(t.holds)| < t.n
    ensures Listing(s, dev, t, es) == Listing(s, dev, Endless, es)
  {
    if es != [] { ListingWithRoom(s, dev, t, es[1..]); }
  }

  /** With two slots free for the inodes of a path and of a directory, and one for each ancestor,
      a command does what it does without a limit. */
  lemma {:induction false} CommandWithRoom(v: Volume, s: State, dev: int, t: Room, cwd: nat, cmd: Command)
    requires Shown(v, s, dev) && cwd in v.dirs && t.Slots? && |Held(t.holds)| + 2 <= t.n
    requires cmd.Pwd? ==> FitTogether(t, Ancestors(v, dev, cwd))
    ensures Output1(v, s, dev, t, cwd, cmd) == Output1(v, s, dev, Endless, cwd, cmd)
    ensures NextCwd(v, s, dev, t, cwd, cmd) == NextCwd(v, s, dev, Endless, cwd, cmd)
  {
    if !cmd.Pwd? {
      ComesWithRoom(v, s, dev, t, cwd, cmd.path);
      hide Comes, Shown, LsOutput;
      if cmd.Ls? { LsWithRoom(v, s, dev, t, cwd, cmd.path); }
    }
  }

  lemma {:induction false} ComesWithRoom(v: Volume, s: State, dev: int, t: Room, cwd: nat, path: seq<nat>)
    requires Shown(v, s, dev) && cwd in v.dirs && t.Slots? && |Held(t.holds)| < t.n
    ensures Comes(v, s, dev, t, cwd, path) == Comes(v, s, dev, Endless, cwd, path)
  {
    RootAndCwdOnDisk(v, s, dev, cwd);
    hide Goes, OnDisk, Needs, Shown;
  }

  lemma {:induction false} LsWithRoom(v: Volume, s: State, dev: int, t: Room, cwd: nat, path: seq<nat>)
    requires Shown(v, s, dev) && cwd in v.dirs && t.Slots? && |Held(t.holds)| + 2 <= t.n
    ensures LsOutput(v, s, dev, t, cwd, path) == LsOutput(v, s, dev, Endless, cwd, path)
  {
    ComesWithRoom(v, s, dev, t, cwd, path);
    CommandComes(v, s, dev, t, cwd, path);
    var w := Comes(v, s, dev, t, cwd, path);
    hide Goes, Comes, Shown, Logical, OnDisk, Needs, Listing, Held;
    if path == [] {
      ListingWithRoom(s, dev, t, EntriesOf(v, cwd));
    } else if w.Hit? && w.value in v.dirs {
      HeldAdds(t.holds, (dev, w.value as int));
      ListingWithRoom(s, dev, Add(t, multiset{(dev, w.value as int)}), EntriesOf(v, w.value));
    }
  }

  /** There is a slot for each level of the tree. */
  predicate Roomy(v: Volume, slots: nat)
    requires Tree(v)
  {
    slots >= 4 && forall d :: d in v.dirs ==> |PwdNames(v, d)| < slots
  }

  lemma {:induction false} CommandIsPlain(v: Volume, s: State, dev: int, n: nat, cwd: nat, cmd: Command)
    requires Shown(v, s, dev) && cwd in v.dirs && Tree(v) && Roomy(v, n)
    ensures var t := Slots(RootAndCwd(dev, cwd), n);
            && Output1(v, s, dev, t, cwd, cmd) == Output1(v, s, dev, Endless, cwd, cmd)
            && NextCwd(v, s, dev, t, cwd, cmd) == NextCwd(v, s, dev, Endless, cwd, cmd)
            && RoomAfter(v, s, dev, true, t, cwd, cmd) == Slots(RootAndCwd(dev, NextCwd(v, s, dev, Endless, cwd, cmd)), n)
            && RoomAfter(v, s, dev, true, Endless, cwd, cmd) == Endless
  {
    var t := Slots(RootAndCwd(dev, cwd), n);
    hide Shown, Output1, NextCwd, Tree;
    RootAndCwdCount(dev, cwd);
    RoomForPwd(v, dev, cwd);
    CommandWithRoom(v, s, dev, t, cwd, cmd);
    SwapCwd(dev, cwd, NextCwd(v, s, dev, t, cwd, cmd));
  }

  /** With the references that ReadMe asks for, a session on a table with a slot for each level of
      the tree is the session on the plain tree, however long it is: the table is never full. */
  lemma {:induction false} SessionIsPlain(v: Volume, s: State, dev: int, n: nat, cwd: nat, cmds: seq<Command>)
    requires Shown(v, s, dev) && cwd in v.dirs && Tree(v) && Roomy(v, n)
    ensures var t := Slots(RootAndCwd(dev, cwd), n);
            var r, plain := Session(v, s, dev, true, t, cwd, cmds), Session(v, s, dev, true, Endless, cwd, cmds);
            && r.out == plain.out && r.cwd == plain.cwd
            && (!Died(r.out) ==> r.room == Slots(RootAndCwd(dev, r.cwd), n))
    decreases |cmds|
  {
    hide Shown, Output1, NextCwd, RoomAfter, Tree, CommandOk, Roomy, RootAndCwd;
    if cmds != [] {
      CommandIsPlain(v, s, dev, n, cwd, cmds[0]);
      var next := NextCwd(v, s, dev, Endless, cwd, cmds[0]);
      SessionIsPlain(v, s, dev, n, next, cmds[1..]);
      var rest := Session(v, s, dev, true, Slots(RootAndCwd(dev, next), n), next, cmds[1..]);
      DiedCons(Output1(v, s, dev, Endless, cwd, cmds[0]), rest.out);
    }
  }

  lemma {:induction false} DiedCons(first: Output, rest: seq<Output>)
    ensures Died([first] + rest) <==> if rest == [] then first.Dead? else Died(rest)
  {
  }

  // ---------------------------------------------------------------- as written

  lemma {:induction false} HeldTogether(a: Holdings, b: Holdings)
    ensures Held(a + b) == Held(a) + Held(b)
    ensures |Held(a)| <= |Held(a + b)| <= |Held(a)| + |Held(b)|
    ensures |Held(b)| <= |b|
    decreases |b|
  {
    assert Held(a + b) == Held(a) + Held(b);
    assert |Held(a) + Held(b)| == |Held(a)| + |Held(b) - Held(a)|;
    NoMore(Held(b) - Held(a), Held(b));
    if b != multiset{} {
      var k :| k in b;
      var b' := b - multiset{k};
      HeldTogether(multiset{}, b');
      assert b == b' + multiset{k};
      HeldAdds(b', k);
    } else {
      NoneHeld();
    }
  }

  /** What a command as written leaves: at most one inode more for ls and cd, the ancestors for
      pwd. */
  lemma {:induction false} LeftCount(v: Volume, s: State, dev: int, t: Room, cwd: nat, cmd: Command, deepest: nat)
    requires Shown(v, s, dev) && cwd in v.dirs && t.Slots? && Tree(v) && deepest >= 1
    requires forall d :: d in v.dirs ==> |PwdNames(v, d)| <= deepest
    ensures RoomAfter(v, s, dev, false, Endless, cwd, cmd) == Endless
    ensures var t' := RoomAfter(v, s, dev, false, t, cwd, cmd);
            t'.Slots? && t'.n == t.n && t.holds <= t'.holds && |Held(t'.holds)| <= |Held(t.holds)| + deepest
    ensures |Held(Ancestors(v, dev, cwd))| <= deepest
  {
    hide Shown, Tree, LeftBy, NextCwd;
    AncestorsHeld(v, dev, cwd);
    if !cmd.Pwd? { LeftOne(v, s, dev, t, cwd, cmd.path); }
    HeldTogether(t.holds, if cmd.Pwd? then Ancestors(v, dev, cwd) else LeftBy(v, s, dev, t, cwd, cmd.path));
  }

  lemma {:induction false} AncestorsHeld(v: Volume, dev: int, d: nat)
    requires Tree(v) && d in v.dirs
    ensures |Held(Ancestors(v, dev, d))| == |PwdNames(v, d)|
  {
    if d == ROOT { NoneHeld(); } else { AncestorsCount(v, dev, d); }
  }

  lemma {:induction false} LeftOne(v: Volume, s: State, dev: int, t: Room, cwd: nat, path: seq<nat>)
    requires Shown(v, s, dev) && cwd in v.dirs
    ensures |LeftBy(v, s, dev, t, cwd, path)| <= 1
  {
    hide Shown, Comes, Tokens;
  }

  /** As written a session is the one on the plain tree as long as slots are left for what each
      command keeps: with depth 1, for two commands less than there are slots beside those held. */
  lemma {:induction false} WrittenWithRoom(v: Volume, s: State, dev: int, t: Room, cwd: nat, cmds: seq<Command>, deepest: nat)
    requires Shown(v, s, dev) && cwd in v.dirs && t.Slots? && Tree(v) && deepest >= 1
    requires forall d :: d in v.dirs ==> |PwdNames(v, d)| <= deepest
    requires |Held(t.holds)| + deepest * |cmds| + 2 <= t.n
    ensures var r, plain := Session(v, s, dev, false, t, cwd, cmds), Session(v, s, dev, false, Endless, cwd, cmds);
            r.out == plain.out && r.cwd == plain.cwd
    decreases |cmds|
  {
    hide Shown, Tree, Output1, NextCwd, RoomAfter, PwdNames;
    if cmds != [] {
      LeftCount(v, s, dev, t, cwd, cmds[0], deepest);
      HeldTogether(t.holds, Ancestors(v, dev, cwd));
      assert deepest * |cmds| == deepest * |cmds[1..]| + deepest;
      CommandWithRoom(v, s, dev, t, cwd, cmds[0]);
      var t', next := RoomAfter(v, s, dev, false, t, cwd, cmds[0]), NextCwd(v, s, dev, t, cwd, cmds[0]);
      WrittenWithRoom(v, s, dev, t', next, cmds[1..], deepest);
    }
  }

  /** Root and cwd are held, as they are between commands. */
  predicate Based(t: Room, dev: int, cwd: nat) {
    t.Slots? ==> (dev, ROOT as int) in t.holds && (dev, cwd as int) in t.holds
  }

  /** Once all slots are held, no command as written changes what is held: from then on a path
      leads somewhere only if all the inodes that it loads are held already. */
  lemma {:induction false} FullStaysFull(v: Volume, s: State, dev: int, t: Room, cwd: nat, cmds: seq<Command>)
    requires Shown(v, s, dev) && cwd in v.dirs && t.Slots? && Based(t, dev, cwd) && |Held(t.holds)| >= t.n && Tree(v)
    ensures var r := Session(v, s, dev, false, t, cwd, cmds);
            !Died(r.out) ==> r.room.Slots? && r.room.n == t.n && Held(r.room.holds) == Held(t.holds)
    decreases |cmds|
  {
    hide Shown, Output1, NextCwd, RoomAfter, Tree, Based;
    if cmds != [] {
      var out, t' := Output1(v, s, dev, t, cwd, cmds[0]), RoomAfter(v, s, dev, false, t, cwd, cmds[0]);
      if !out.Dead? {
        FullKeeps(v, s, dev, t, cwd, cmds[0]);
        var next := NextCwd(v, s, dev, t, cwd, cmds[0]);
        FullStaysFull(v, s, dev, t', next, cmds[1..]);
        DiedCons(out, Session(v, s, dev, false, t', next, cmds[1..]).out);
      }
    }
  }

  lemma {:induction false} FullKeeps(v: Volume, s: State, dev: int, t: Room, cwd: nat, cmd: Command)
    requires Shown(v, s, dev) && cwd in v.dirs && t.Slots? && Based(t, dev, cwd) && |Held(t.holds)| >= t.n && Tree(v)
    requires !Output1(v, s, dev, t, cwd, cmd).Dead?
    ensures var t' := RoomAfter(v, s, dev, false, t, cwd, cmd);
            t'.Slots? && t'.n == t.n && Held(t'.holds) == Held(t.holds) && Based(t', dev, NextCwd(v, s, dev, t, cwd, cmd))
  {
    var left := if cmd.Pwd? then Ancestors(v, dev, cwd) else LeftBy(v, s, dev, t, cwd, cmd.path);
    if cmd.Pwd? {
      hide Shown, Tree;
      HeldTogether(t.holds, left);
      NoMore(Held(t.holds), Held(t.holds + left));
    } else {
      FullLeaves(v, s, dev, t, cwd, cmd.path);
      hide Shown, Tree, LeftBy, CdTo;
      HeldTogether(t.holds, left);
    }
  }

  /** What is left was held before; it includes the directory that cd comes to. */
  lemma {:induction false} FullLeaves(v: Volume, s: State, dev: int, t: Room, cwd: nat, path: seq<nat>)
    requires Shown(v, s, dev) && cwd in v.dirs && t.Slots? && Based(t, dev, cwd) && |Held(t.holds)| >= t.n
    ensures Held(LeftBy(v, s, dev, t, cwd, path)) <= Held(t.holds)
    ensures (dev, CdTo(v, s, dev, t, cwd, path) as int) in t.holds
  {
    hide Shown, Comes, Tokens, Held, OnDisk, Logical, CommandWalk, GetinoWith;
    CommandComes(v, s, dev, t, cwd, path);
    var left := LeftBy(v, s, dev, t, cwd, path);
    forall k | k in left ensures k in t.holds { }
    HeldSubset(left, t.holds);
  }

  lemma {:induction false} HeldSubset(a: Holdings, b: Holdings)
    ensures (forall k :: k in a ==> k in b) ==> Held(a) <= Held(b)
  {
  }
}
