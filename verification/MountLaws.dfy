/** What paths mean and what each command of Lab5 shows, leaves and leads to, in the terms of the
    tree, the disk and the walk only. */
module MountLaws {
  import opened Text
  import opened Directory
  import opened InodeCache
  import opened DirWalk
  import opened CacheView
  import opened TableRoom
  import opened MountCommands
  import opened MountSessions

  // ---------------------------------------------------------------- paths

  /** getino() of names joined by slashes looks them up one behind the other, from the cwd. */
  lemma {:induction false} RelativePath(v: Volume, s: State, dev: int, cwd: nat, names: seq<Name>)
    requires Tree(v) && Stored(v, s, dev) && cwd in v.dirs
    requires names != [] && Words(names, SLASH) && Walkable(v, cwd, names)
    ensures OnDisk(s.disk, s.start, dev, ROOT) && OnDisk(s.disk, s.start, dev, cwd)
    ensures Getino(s, dev, cwd, Join(names, SLASH))
            == if Resolve(v, cwd, names) == 0 then Miss else Hit(Resolve(v, cwd, names))
  {
    hide Tree, Stored, OnDisk, Logical, ResolveIn, Tokens, Resolve, Walkable, EntriesOf;
    RootAndCwdOnDisk(v, s, dev, cwd);
    TokensJoin(names, SLASH);
    JoinIsRelative(names);
    ResolveInIsResolve(v, s, dev, cwd, names);
  }

  lemma {:induction false} JoinIsRelative(names: seq<Name>)
    requires names != [] && Words(names, SLASH)
    ensures var path := Join(names, SLASH); path != [] && path[0] != SLASH
  {
    JoinEnd(names, SLASH);
  }

  /** Behind a slash each, from the root. */
  lemma {:induction false} AbsolutePath(v: Volume, s: State, dev: int, cwd: nat, names: seq<Name>)
    requires Tree(v) && Stored(v, s, dev) && cwd in v.dirs
    requires names != [] && Words(names, SLASH) && Walkable(v, ROOT, names)
    ensures OnDisk(s.disk, s.start, dev, ROOT) && OnDisk(s.disk, s.start, dev, cwd)
    ensures Getino(s, dev, cwd, Prefixed(names, SLASH))
            == if Resolve(v, ROOT, names) == 0 then Miss else Hit(Resolve(v, ROOT, names))
  {
    RootAndCwdOnDisk(v, s, dev, cwd);
    TokensPrefixed(names, SLASH);
    assert Word(names[0], SLASH) && |Prefixed(names, SLASH)| > 1;
    ResolveInIsResolve(v, s, dev, ROOT, names);
  }

  /** "/" is the root; the empty path and a path of several slashes are nothing. */
  lemma {:induction false} PathWithoutNames(s: State, dev: int, cwd: nat, path: seq<nat>)
    requires OnDisk(s.disk, s.start, dev, ROOT) && OnDisk(s.disk, s.start, dev, cwd)
    requires forall i :: 0 <= i < |path| ==> path[i] == SLASH
    ensures Getino(s, dev, cwd, path) == if |path| == 1 then Hit(ROOT) else Miss
  {
    SlashesHaveNoNames(path);
    if |path| == 1 { assert path == [SLASH]; }
  }

  lemma {:induction false} SlashesHaveNoNames(path: seq<nat>)
    requires forall i :: 0 <= i < |path| ==> path[i] == SLASH
    ensures Tokens(path, SLASH) == []
  {
    if path != [] { SlashesHaveNoNames(path[1..]); }
  }

  /** A slash behind a path, other than "" and "/", makes no difference, and neither does a second
      one beside a slash. */
  lemma {:induction false} SlashesMakeNoDifference(s: State, dev: int, cwd: nat, a: seq<nat>, b: seq<nat>)
    requires OnDisk(s.disk, s.start, dev, ROOT) && OnDisk(s.disk, s.start, dev, cwd) && a != []
    ensures a != [SLASH] ==> Getino(s, dev, cwd, a + [SLASH]) == Getino(s, dev, cwd, a)
    ensures Getino(s, dev, cwd, a + [SLASH] + ([SLASH] + b)) == Getino(s, dev, cwd, a + [SLASH] + b)
  {
    TokensSplit(a, [], SLASH);
    assert a + [SLASH] + [] == a + [SLASH];
    TokensSplit(a, b, SLASH);
    TokensSplit(a, [SLASH] + b, SLASH);
    assert ([SLASH] + b)[1..] == b;
    assert Tokens(a, SLASH) + [] == Tokens(a, SLASH);
    hide Tokens, ResolveIn;
  }

  // ---------------------------------------------------------------- commands

  /** The output is the list of the records of d for which there is a slot, in order, each with the
      inode that all users see. */
  predicate Lists(v: Volume, s: State, dev: int, t: Room, d: nat, out: Output)
    requires d in v.dirs
  {
    out.Listed? && Lines(s, dev, out.entries, Fitting(dev, t, EntriesOf(v, d)))
  }

  lemma {:induction false} ListedAre(v: Volume, s: State, dev: int, t: Room, d: nat)
    requires Shown(v, s, dev) && d in v.dirs
    ensures var w := Listing(s, dev, t, EntriesOf(v, d));
            w.Hit? ==> Lines(s, dev, w.value, Fitting(dev, t, EntriesOf(v, d)))
  {
    assert DirStored(v, s, dev, d);
    var es := EntriesOf(v, d);
    forall e | e in es ensures e.ino != 0 ==> OnDisk(s.disk, s.start, dev, e.ino) { assert EntryOk(v, s, dev, e); }
    hide Shown, Logical, OnDisk, Listing, Fitting, Lines;
    ListingIff(s, dev, t, es);
  }

  /** ls: without a path the cwd is listed; a directory is listed while it is held itself; a
      regular file is shown as one line; anything else, and a path that is not found, shows
      nothing.  A walk that ends badly is the end of the program. */
  lemma {:induction false} LsShows(v: Volume, s: State, dev: int, t: Room, cwd: nat, path: seq<nat>)
    requires Shown(v, s, dev) && cwd in v.dirs
    ensures OnDisk(s.disk, s.start, dev, ROOT) && OnDisk(s.disk, s.start, dev, cwd)
    ensures var out, w := Output1(v, s, dev, t, cwd, Ls(path)), CommandWalk(s, dev, t, cwd, path);
            && (path == [] ==> out == Dead || Lists(v, s, dev, t, cwd, out))
            && (path != [] && w.Hit? && w.value in v.dirs ==>
                  out == Dead || Lists(v, s, dev, Add(t, multiset{(dev, w.value as int)}), w.value, out))
            && (path != [] && w.Hit? && w.value !in v.dirs ==>
                  && OnDisk(s.disk, s.start, dev, w.value)
                  && var inode := Logical(s, dev, w.value);
                     out == if inode.mode.Reg? then Listed([(path, inode)]) else Silent)
            && (path != [] && w.Miss? ==> out == Silent)
            && (path != [] && (w.Hang? || w.Wild?) ==> out == Dead)
    ensures NextCwd(v, s, dev, t, cwd, Ls(path)) == cwd
  {
    hide Shown, Comes, CommandWalk, GetinoWith, OnDisk, Logical, EntriesOf, Listing, Lines, Fitting, Tokens, Fits;
    CommandComes(v, s, dev, t, cwd, path);
    var w := CommandWalk(s, dev, t, cwd, path);
    if path == [] {
      ListedAre(v, s, dev, t, cwd);
    } else if w.Hit? && w.value in v.dirs {
      ListedAre(v, s, dev, Add(t, multiset{(dev, w.value as int)}), w.value);
    }
  }

  /** cd: a directory of the tree becomes the cwd; a file, a path that is not found and no path at
      all leave it; nothing is shown. */
  lemma {:induction false} CdLeads(v: Volume, s: State, dev: int, t: Room, cwd: nat, path: seq<nat>)
    requires Shown(v, s, dev) && cwd in v.dirs
    ensures OnDisk(s.disk, s.start, dev, ROOT) && OnDisk(s.disk, s.start, dev, cwd)
    ensures var cmd, w := Cd(path), CommandWalk(s, dev, t, cwd, path);
            && NextCwd(v, s, dev, t, cwd, cmd) == (if path != [] && w.Hit? && w.value in v.dirs then w.value else cwd)
            && Output1(v, s, dev, t, cwd, cmd) == (if path != [] && (w.Hang? || w.Wild?) then Dead else Silent)
  {
    hide Shown, Comes, CommandWalk, OnDisk, Logical, GetinoWith, Tokens;
    CommandComes(v, s, dev, t, cwd, path);
  }

  lemma {:induction false} PwdIsEmptyIff(v: Volume, d: nat)
    requires Tree(v) && d in v.dirs
    ensures PwdPath(v, d) == [] <==> d == ROOT
  {
    PwdResolves(v, d);
  }

  /** pwd shows a path that getino() leads back to cwd, unless a dead record hides it; in the root it
      shows an empty one. */
  lemma {:induction false} PwdShows(v: Volume, s: State, dev: int, t: Room, cwd: nat)
    requires Shown(v, s, dev) && cwd in v.dirs && Tree(v)
    ensures OnDisk(s.disk, s.start, dev, ROOT) && OnDisk(s.disk, s.start, dev, cwd)
    ensures var out := Output1(v, s, dev, t, cwd, Pwd);
            && NextCwd(v, s, dev, t, cwd, Pwd) == cwd
            && (FitTogether(t, Ancestors(v, dev, cwd)) <==> out.Path?)
            && (!out.Path? ==> out == Dead)
            && (out.Path? ==>
                  && (cwd == ROOT <==> out.path == [])
                  && (cwd != ROOT && !PathHidden(v, cwd) ==>
                        forall d :: d in v.dirs && OnDisk(s.disk, s.start, dev, d) ==> Getino(s, dev, d, out.path) == Hit(cwd)))
  {
    hide Shown, Tree, Stored, OnDisk, Logical, Getino, PathHidden, PwdPath, Ancestors, Held;
    ShownIsStored(v, s, dev);
    RootAndCwdOnDisk(v, s, dev, cwd);
    PwdIsEmptyIff(v, cwd);
    forall d | d in v.dirs && OnDisk(s.disk, s.start, dev, d)
      ensures Getino(s, dev, d, PwdPath(v, cwd)) == if cwd == ROOT || PathHidden(v, cwd) then Miss else Hit(cwd)
    {
      PwdIsUndoneIff(v, s, dev, d, cwd);
    }
  }

  /** The parent of d, or a directory above it. */
  predicate Above(v: Volume, d: nat, a: nat)
    requires Tree(v) && d in v.dirs
    decreases v.depth[d]
  {
    assert DirOk(v, d);
    d != ROOT && (a == Parent(v, d) || Above(v, Parent(v, d), a))
  }

  lemma {:induction false} AboveIsHigher(v: Volume, d: nat, a: nat)
    requires Tree(v) && d in v.dirs && Above(v, d, a)
    ensures a in v.depth && d in v.depth && v.depth[a] < v.depth[d]
    decreases v.depth[d]
  {
    assert DirOk(v, d);
    if a != Parent(v, d) { AboveIsHigher(v, Parent(v, d), a); }
  }

  /** pwd as written leaves one reference on each directory above cwd, and no other. */
  lemma {:induction false} PwdLeaves(v: Volume, s: State, dev: int, t: Room, cwd: nat, a: nat)
    requires Shown(v, s, dev) && cwd in v.dirs && Tree(v)
    ensures var t' := RoomAfter(v, s, dev, false, t, cwd, Pwd);
            t.Slots? ==> t'.Slots? && t'.n == t.n
                         && t'.holds[(dev, a as int)] == t.holds[(dev, a as int)] + if Above(v, cwd, a) then 1 else 0
  {
    hide Shown;
    AboveOnce(v, dev, cwd, a);
  }

  lemma {:induction false} AboveOnce(v: Volume, dev: int, d: nat, a: nat)
    requires Tree(v) && d in v.dirs
    ensures Ancestors(v, dev, d)[(dev, a as int)] == if Above(v, d, a) then 1 else 0
    decreases v.depth[d]
  {
    assert DirOk(v, d);
    if d != ROOT {
      var p := Parent(v, d);
      AboveOnce(v, dev, p, a);
      if Above(v, p, p) { AboveIsHigher(v, p, p); }
    }
  }

  /** What ls and cd as written leave: the inode they come to, unless it is named by "/" or by no
      path; for a path of several slashes the inode at which getino() starts. */
  lemma {:induction false} WrittenLeaves(v: Volume, s: State, dev: int, t: Room, cwd: nat, cmd: Command)
    requires Shown(v, s, dev) && cwd in v.dirs && !cmd.Pwd?
    ensures OnDisk(s.disk, s.start, dev, ROOT) && OnDisk(s.disk, s.start, dev, cwd)
    ensures var w, t' := CommandWalk(s, dev, t, cwd, cmd.path), RoomAfter(v, s, dev, false, t, cwd, cmd);
            && (cmd.path == [] || cmd.path == [SLASH] ==> t' == Add(t, multiset{}))
            && (cmd.path != [SLASH] && cmd.path != [] && w.Hit? ==> t' == Add(t, multiset{(dev, w.value as int)}))
            && (Tokens(cmd.path, SLASH) != [] && w.Miss? ==> t' == Add(t, multiset{}))
            && (Tokens(cmd.path, SLASH) == [] && |cmd.path| > 1 ==> t' == Add(t, multiset{(dev, ROOT as int)}))
  {
    hide Shown, Comes, OnDisk, Logical, Fits;
    CommandComes(v, s, dev, t, cwd, cmd.path);
    if Tokens(cmd.path, SLASH) == [] && cmd.path != [] { assert cmd.path[0] == SLASH; }
  }

  // ---------------------------------------------------------------- sessions

  lemma {:induction false} SessionOfOne(v: Volume, s: State, dev: int, readme: bool, t: Room, cwd: nat, cmd: Command)
    requires Shown(v, s, dev) && cwd in v.dirs
    ensures var out, r := Output1(v, s, dev, t, cwd, cmd), Session(v, s, dev, readme, t, cwd, [cmd]);
            && r.out == [out] && r.cwd == NextCwd(v, s, dev, t, cwd, cmd)
            && r.room == if out.Dead? then t else RoomAfter(v, s, dev, readme, t, cwd, cmd)
  {
    hide Shown, Output1, NextCwd, RoomAfter;
    var none: seq<Command> := [];
    assert [cmd][1..] == none;
    var t', next := RoomAfter(v, s, dev, readme, t, cwd, cmd), NextCwd(v, s, dev, t, cwd, cmd);
    assert Session(v, s, dev, readme, t', next, none) == Result([], next, t');
  }

  /** A session goes on where its first part ended, unless that was the end of the program. */
  lemma {:induction false} SessionAppend(v: Volume, s: State, dev: int, readme: bool, t: Room, cwd: nat, a: seq<Command>, b: seq<Command>)
    requires Shown(v, s, dev) && cwd in v.dirs
    ensures var r, all := Session(v, s, dev, readme, t, cwd, a), Session(v, s, dev, readme, t, cwd, a + b);
            if Died(r.out) then all == r
            else
              var rest := Session(v, s, dev, readme, r.room, r.cwd, b);
              all == rest.(out := r.out + rest.out)
    decreases |a|
  {
    hide Shown, Output1, NextCwd, RoomAfter;
    if a == [] {
      assert a + b == b;
      var rest := Session(v, s, dev, readme, t, cwd, b);
      assert [] + rest.out == rest.out;
    } else {
      assert (a + b)[1..] == a[1..] + b;
      var out, next := Output1(v, s, dev, t, cwd, a[0]), NextCwd(v, s, dev, t, cwd, a[0]);
      var t' := RoomAfter(v, s, dev, readme, t, cwd, a[0]);
      SessionAppend(v, s, dev, readme, t', next, a[1..], b);
      var r := Session(v, s, dev, readme, t', next, a[1..]);
      DiedCons(out, r.out);
      var rest := Session(v, s, dev, readme, r.room, r.cwd, b);
      assert [out] + (r.out + rest.out) == ([out] + r.out) + rest.out;
    }
  }
}
