/** A small disk that Lab5 can mount, a root directory with a directory "a" and a file "b", and
    what goes wrong on it as written. */
module SmallDisk {
  import opened Text
  import opened Directory
  import opened InodeCache
  import opened DirWalk
  import opened CacheView
  import opened TableRoom
  import opened MountCommands
  import opened MountSessions

  const DEV := 3
  const DOT: Name := [46]
  const A: Name := [97]
  const B: Name := [98]
  const INODE_A: nat := 3
  const INODE_B: nat := 4

  function RootEntries(): (es: seq<Entry>)
    ensures |es| == 4
  {
    [Entry(ROOT, 2, DOT, Zeros(3)), Entry(ROOT, 2, DOTDOT, Zeros(2)), Entry(INODE_A, 2, A, Zeros(3)),
     Entry(INODE_B, 1, B, Zeros(979))]
  }

  function SubEntries(): (es: seq<Entry>)
    ensures |es| == 2
  {
    [Entry(INODE_A, 2, DOT, Zeros(3)), Entry(ROOT, 2, DOTDOT, Zeros(1002))]
  }

  const File := Inode(Reg, 0, [], 0)

  function SomeDisk(): Disk {
    var blank := Inode(Other, 0, [], 0);
    map[(DEV, 9) := Data(Encode(RootEntries())), (DEV, 10) := Data(Encode(SubEntries())),
        (DEV, 5) := Inodes([blank, Inode(Dir, 2, [9, 0], 0), Inode(Dir, 2, [10, 0], 0), File, blank, blank, blank, blank])]
  }

  function Vol(): Volume {
    Volume(map[ROOT := [RootEntries()], INODE_A := [SubEntries()]], map[ROOT := 0, INODE_A := 1])
  }

  /** The disk with an empty table of n slots. */
  function Start(n: nat): State {
    Init(n, SomeDisk(), 5)
  }

  lemma {:induction false} OneBlock(es: seq<Entry>)
    ensures Flat([es]) == es
  {
    var none: seq<seq<Entry>> := [];
    assert [es][1..] == none && es + Flat(none) == es;
  }

  lemma {:induction false} Lengths()
    ensures ValidEntries(RootEntries()) && |Encode(RootEntries())| == BLKSIZE
    ensures ValidEntries(SubEntries()) && |Encode(SubEntries())| == BLKSIZE
  {
    var es, sub := RootEntries(), SubEntries();
    assert es[1..] == [es[1], es[2], es[3]] && es[1..][1..] == [es[2], es[3]] && es[1..][1..][1..] == [es[3]];
    assert |Encode([es[3]])| == RecLen(es[3]);
    assert sub[1..] == [sub[1]];
    assert |Encode([sub[1]])| == RecLen(sub[1]);
  }

  lemma {:induction false} RootFound()
    ensures EntriesOf(Vol(), ROOT) == RootEntries()
    ensures var es := RootEntries();
            && Lookup(es, DOT) == ROOT && Lookup(es, DOTDOT) == ROOT && Lookup(es, A) == INODE_A && Lookup(es, B) == INODE_B
            && HasName(es, DOT) && HasName(es, DOTDOT) && HasName(es, A) && HasName(es, B) && HasInode(es, INODE_A)
  {
    var es := RootEntries();
    OneBlock(es);
    assert es[0].name == DOT && es[1].name == DOTDOT && es[2].name == A && es[3].name == B && es[2].ino == INODE_A;
    LookupSkips(es, 0);
    LookupSkips(es, 1);
    LookupSkips(es, 2);
    LookupSkips(es, 3);
  }

  lemma {:induction false} SubFound()
    ensures EntriesOf(Vol(), INODE_A) == SubEntries()
    ensures Lookup(SubEntries(), DOTDOT) == ROOT && HasName(SubEntries(), DOTDOT) && AllInUse(SubEntries())
  {
    var es := SubEntries();
    OneBlock(es);
    assert es[0].name == DOT && es[1].name == DOTDOT;
    LookupSkips(es, 1);
  }

  lemma {:induction false} RootOk()
    ensures DirOk(Vol(), ROOT)
  {
    RootFound();
    assert SLASH !in DOT && SLASH !in DOTDOT && SLASH !in A && SLASH !in B;
    hide Lookup, HasInode, HasName, Flat, EntriesOf;
  }

  lemma {:induction false} SubOk()
    ensures DirOk(Vol(), INODE_A)
  {
    RootFound();
    SubFound();
    assert SLASH !in DOT && SLASH !in DOTDOT;
    hide Lookup, HasInode, HasName, Flat, EntriesOf, RootEntries;
  }

  lemma {:induction false} IsTree()
    ensures Tree(Vol())
  {
    RootOk();
    SubOk();
    hide DirOk, RootEntries, SubEntries;
  }

  lemma {:induction false} Inodes8(n: nat)
    ensures var s := Start(n);
            && OnDisk(s.disk, 5, DEV, ROOT) && Logical(s, DEV, ROOT) == Inode(Dir, 2, [9, 0], 0)
            && OnDisk(s.disk, 5, DEV, INODE_A) && Logical(s, DEV, INODE_A) == Inode(Dir, 2, [10, 0], 0)
            && OnDisk(s.disk, 5, DEV, INODE_B) && Logical(s, DEV, INODE_B) == File
  {
    hide RootEntries, SubEntries, Encode;
    var s := Start(n);
    assert Find(s.slots, DEV, ROOT) == n && Find(s.slots, DEV, INODE_A) == n && Find(s.slots, DEV, INODE_B) == n;
  }

  lemma {:induction false} HoldsOneBlock(s: State, d: nat, blk: nat, es: seq<Entry>)
    requires OnDisk(s.disk, s.start, DEV, d) && Logical(s, DEV, d) == Inode(Dir, 2, [blk, 0], 0) && blk != 0
    requires (DEV, blk) in s.disk && s.disk[(DEV, blk)] == Data(Encode(es))
    requires ValidEntries(es) && |Encode(es)| == BLKSIZE
    ensures DirHolds(s.disk, DEV, Logical(s, DEV, d), [es])
  {
    hide Encode, ValidEntries, Logical;
    assert BlockHolds(s.disk, DEV, Logical(s, DEV, d), 0, [es][0]);
  }

  lemma {:induction false} RootStored(n: nat)
    ensures DirStored(Vol(), Start(n), DEV, ROOT)
  {
    var v, s, es := Vol(), Start(n), RootEntries();
    Lengths();
    RootFound();
    Inodes8(n);
    hide Logical, Encode, OnDisk, Flat, EntriesOf, ValidEntries;
    HoldsOneBlock(s, ROOT, 9, es);
    forall e | e in es ensures EntryOk(v, s, DEV, e) { }
    hide EntryOk, RootEntries;
  }

  lemma {:induction false} SubStored(n: nat)
    ensures DirStored(Vol(), Start(n), DEV, INODE_A)
  {
    var v, s, es := Vol(), Start(n), SubEntries();
    Lengths();
    SubFound();
    Inodes8(n);
    hide Logical, Encode, OnDisk, Flat, EntriesOf, ValidEntries, RootEntries;
    HoldsOneBlock(s, INODE_A, 10, es);
    forall e | e in es ensures EntryOk(v, s, DEV, e) { }
    hide EntryOk, SubEntries;
  }

  /** It is well formed, with any number of slots. */
  lemma {:induction false} IsShown(n: nat)
    ensures Inv(Start(n)) && Shown(Vol(), Start(n), DEV) && ROOT in Vol().dirs && INODE_A in Vol().dirs && INODE_B !in Vol().dirs
  {
    IsTree();
    RootStored(n);
    SubStored(n);
    InitKeepsInv(n, SomeDisk(), 5);
    hide DirStored, Inv, Tree, RootEntries, SubEntries, SomeDisk;
  }

  // ---------------------------------------------------------------- a name as a path

  /** A name in the current directory as a path. */
  lemma {:induction false} WordPath(v: Volume, s: State, dev: int, d: nat, name: Name, x: nat)
    requires Shown(v, s, dev) && d in v.dirs && Word(name, SLASH) && Lookup(EntriesOf(v, d), name) == x && x > 0
    ensures OnDisk(s.disk, s.start, dev, ROOT) && OnDisk(s.disk, s.start, dev, d)
    ensures Tokens(name, SLASH) == [name] && name != [] && name != [SLASH] && Goes(v, s, dev, d, name) == Hit(x)
    ensures Needs(s, dev, d, name) == {(dev, d as int), (dev, x as int)}
  {
    TokensWord(name, [], SLASH);
    assert name + [] == name && name != [SLASH] && !Absolute(name);
    ShownIsStored(v, s, dev);
    hide Shown, Tree, Stored, Tokens, OnDisk, Logical;
    assert Straight(v, d, name) && Target(v, d, name) == x;
    GetinoGoes(v, s, dev, d, name);
    OneSearched(v, s, dev, d, name);
  }

  /** With slots for both inodes, and without one for the last. */
  lemma {:induction false} WordComes(v: Volume, s: State, dev: int, t: Room, d: nat, name: Name, x: nat)
    requires Shown(v, s, dev) && d in v.dirs && Word(name, SLASH) && Lookup(EntriesOf(v, d), name) == x && x > 0
    ensures name != [] && name != [SLASH] && Tokens(name, SLASH) != []
    ensures Fits(t, (dev, d as int)) && Fits(t, (dev, x as int)) ==> Comes(v, s, dev, t, d, name) == Hit(x)
    ensures !Fits(t, (dev, x as int)) ==> Comes(v, s, dev, t, d, name) == Wild
  {
    hide Shown, Goes, Tokens, OnDisk, Logical, Fits, EntriesOf, Lookup, Needs;
    WordPath(v, s, dev, d, name, x);
    assert (dev, x as int) in Needs(s, dev, d, name);
  }

  lemma {:induction false} OneSearched(v: Volume, s: State, dev: int, d: nat, name: Name)
    requires OnDisk(s.disk, s.start, dev, d)
    ensures Searched(s, dev, d, [name]) == {(dev, d as int)}
  {
    var w := SearchFrom(s.disk, dev, Logical(s, dev, d), 0, name);
    if w.Hit? && OnDisk(s.disk, s.start, dev, w.value) { assert Searched(s, dev, w.value, []) == {}; }
  }

  /** ls of a file in the current directory. */
  lemma {:induction false} FileListed(v: Volume, s: State, dev: int, t: Room, d: nat, name: Name, x: nat)
    requires Shown(v, s, dev) && d in v.dirs && Word(name, SLASH) && Lookup(EntriesOf(v, d), name) == x && x > 0
    requires Fits(t, (dev, d as int)) && Fits(t, (dev, x as int)) && x !in v.dirs
    requires OnDisk(s.disk, s.start, dev, x) && Logical(s, dev, x).mode.Reg?
    ensures Output1(v, s, dev, t, d, Ls(name)) == Listed([(name, Logical(s, dev, x))])
    ensures RoomAfter(v, s, dev, false, t, d, Ls(name)) == Add(t, multiset{(dev, x as int)})
  {
    hide Shown, Comes, OnDisk, Logical, EntriesOf, Lookup, Fits, Tokens;
    WordComes(v, s, dev, t, d, name, x);
  }

  /** ls of a directory in the current directory, all of whose records are in use: shown
      if both inodes have a slot, and `Dead` if the second has none. */
  lemma {:induction false} DirListed(v: Volume, s: State, dev: int, t: Room, d: nat, name: Name, x: nat)
    requires Shown(v, s, dev) && d in v.dirs && Word(name, SLASH) && Lookup(EntriesOf(v, d), name) == x && x > 0
    requires x in v.dirs && AllInUse(EntriesOf(v, x)) && (t.Slots? ==> (dev, 0) !in t.holds)
    ensures Fits(t, (dev, d as int)) && Fits(t, (dev, x as int)) ==> !Output1(v, s, dev, t, d, Ls(name)).Dead?
    ensures !Fits(t, (dev, x as int)) ==> Output1(v, s, dev, t, d, Ls(name)).Dead?
  {
    hide Shown, Comes, OnDisk, Logical, EntriesOf, AllInUse, Lookup, Fits, Tokens, Listing, CommandWalk, GetinoWith;
    WordComes(v, s, dev, t, d, name, x);
    CommandComes(v, s, dev, t, d, name);
    DirIsListed(v, s, dev, Add(t, multiset{(dev, x as int)}), x);
  }

  // ---------------------------------------------------------------- one command

  lemma {:induction false} RootHeld(n: nat)
    requires n >= 2
    ensures forall k :: Fits(Slots(RootAndCwd(DEV, ROOT), n), k)
  {
    assert Held(RootAndCwd(DEV, ROOT)) == {(DEV, ROOT as int)};
  }

  /** `cd .` as written leaves a reference behind. */
  lemma {:induction false} CdLeaks(n: nat)
    requires n >= 2
    ensures var v, s, t := Vol(), Start(n), Slots(RootAndCwd(DEV, ROOT), n);
            && Shown(v, s, DEV) && ROOT in v.dirs
            && Comes(v, s, DEV, t, ROOT, DOT) == Hit(ROOT) && CdTo(v, s, DEV, t, ROOT, DOT) == ROOT
            && RootAndCwd(DEV, ROOT) + LeftBy(v, s, DEV, t, ROOT, DOT) != RootAndCwd(DEV, ROOT)
  {
    RootFound();
    IsShown(n);
    RootHeld(n);
    hide Vol, Start, Shown, EntriesOf, Lookup, RootEntries, Comes, Fits, RootAndCwd, Tokens;
    var v, s, t := Vol(), Start(n), Slots(RootAndCwd(DEV, ROOT), n);
    WordComes(v, s, DEV, t, ROOT, DOT, ROOT);
    WrittenCdIsExactIff(v, s, DEV, t, ROOT, DOT);
  }

  /** So does `ls b`. */
  lemma {:induction false} LsLeaks(n: nat)
    requires n >= 2
    ensures var v, s, t := Vol(), Start(n), Slots(RootAndCwd(DEV, ROOT), n);
            && Shown(v, s, DEV) && ROOT in v.dirs && Comes(v, s, DEV, t, ROOT, B) == Hit(INODE_B)
            && RootAndCwd(DEV, ROOT) + LeftBy(v, s, DEV, t, ROOT, B) != RootAndCwd(DEV, ROOT)
  {
    RootFound();
    IsShown(n);
    RootHeld(n);
    hide Vol, Start, Shown, EntriesOf, Lookup, RootEntries, Comes, Fits, RootAndCwd, Tokens, LeftBy;
    var v, s, t := Vol(), Start(n), Slots(RootAndCwd(DEV, ROOT), n);
    WordComes(v, s, DEV, t, ROOT, B, INODE_B);
    WrittenLsIsExactIff(v, s, DEV, t, ROOT, B);
  }

  /** And pwd in the directory a. */
  lemma {:induction false} PwdLeaks()
    ensures Tree(Vol()) && INODE_A in Vol().dirs
    ensures RootAndCwd(DEV, INODE_A) + Ancestors(Vol(), DEV, INODE_A) != RootAndCwd(DEV, INODE_A)
  {
    IsTree();
    assert INODE_A in Vol().dirs;
    hide Vol, Tree;
    WrittenPwdIsExactIff(Vol(), DEV, INODE_A);
  }

  // ---------------------------------------------------------------- a dead record

  /** The root directory, where a record that is not in use still has the name of a later one. */
  function DeadEntries(): (es: seq<Entry>)
    ensures |es| == 4
  {
    [Entry(ROOT, 2, DOT, Zeros(3)), Entry(ROOT, 2, DOTDOT, Zeros(2)), Entry(0, 2, A, Zeros(3)),
     Entry(INODE_A, 2, A, Zeros(979))]
  }

  function DeadVol(): Volume {
    Volume(map[ROOT := [DeadEntries()], INODE_A := [SubEntries()]], map[ROOT := 0, INODE_A := 1])
  }

  lemma {:induction false} DeadRootOk()
    ensures EntriesOf(DeadVol(), ROOT) == DeadEntries() && DirOk(DeadVol(), ROOT) && HasInode(DeadEntries(), INODE_A)
  {
    var es := DeadEntries();
    OneBlock(es);
    assert es[1].name == DOTDOT && es[3].ino == INODE_A;
    LookupSkips(es, 1);
    assert SLASH !in DOT && SLASH !in DOTDOT && SLASH !in A;
    hide Lookup, HasInode, HasName, Flat, EntriesOf;
  }

  lemma {:induction false} DeadSubOk()
    ensures DirOk(DeadVol(), INODE_A) && Parent(DeadVol(), INODE_A) == ROOT
  {
    DeadRootOk();
    var es := SubEntries();
    OneBlock(es);
    assert es[0].name == DOT && es[1].name == DOTDOT;
    LookupSkips(es, 1);
    assert SLASH !in DOT && SLASH !in DOTDOT;
    hide Lookup, HasInode, HasName, Flat, DeadEntries;
  }

  /** The path that pwd prints for a then leads nowhere. */
  lemma {:induction false} DeadRecordHidesPath()
    ensures Tree(DeadVol()) && INODE_A in DeadVol().dirs && PathHidden(DeadVol(), INODE_A)
  {
    var v, es := DeadVol(), DeadEntries();
    DeadRootOk();
    DeadSubOk();
    assert Hidden(es, INODE_A) by {
      var k := FirstOf(es, INODE_A);
      assert es[2].ino == 0 && es[2].name == NameOf(es, INODE_A);
    }
    hide DirOk, DeadEntries, SubEntries, Hidden;
  }

  // ---------------------------------------------------------------- a full table

  /** The table of two slots behind `ls b`: the root and b fill it. */
  function Full(): Room {
    Slots(RootAndCwd(DEV, ROOT) + multiset{(DEV, INODE_B as int)}, 2)
  }

  /** The table at the start of a session, with two slots. */
  function Empty(): Room {
    Slots(RootAndCwd(DEV, ROOT), 2)
  }

  lemma {:induction false} HeldWhenFull()
    ensures Held(Full().holds) == {(DEV, ROOT as int), (DEV, INODE_B as int)}
    ensures forall k :: Fits(Full(), k) <==> k == (DEV, ROOT as int) || k == (DEV, INODE_B as int)
    ensures forall k :: Fits(Empty(), k)
    ensures Full().Slots? && (DEV, 0) !in Full().holds && !Fits(Full(), (DEV, INODE_A as int))
    ensures Add(Empty(), multiset{(DEV, INODE_B as int)}) == Full()
  {
    assert Held(RootAndCwd(DEV, ROOT)) == {(DEV, ROOT as int)};
    assert Held(Full().holds) == {(DEV, ROOT as int), (DEV, INODE_B as int)};
  }

  lemma {:induction false} LsFills()
    ensures var v, s, cmd := Vol(), Start(2), Ls(B);
            && Shown(v, s, DEV) && ROOT in v.dirs
            && Output1(v, s, DEV, Empty(), ROOT, cmd) == Listed([(B, File)])
            && RoomAfter(v, s, DEV, false, Empty(), ROOT, cmd) == Full()
  {
    IsShown(2);
    Inodes8(2);
    RootFound();
    HeldWhenFull();
    hide *;
    FileListed(Vol(), Start(2), DEV, Empty(), ROOT, B, INODE_B);
  }

  lemma {:induction false} OneCommand(v: Volume, s: State, t: Room, cmd: Command)
    requires Shown(v, s, DEV) && ROOT in v.dirs
    ensures Session(v, s, DEV, false, t, ROOT, [cmd]).out == [Output1(v, s, DEV, t, ROOT, cmd)]
  {
    hide Shown, Output1, RoomAfter, NextCwd;
    var none: seq<Command> := [];
    assert [cmd][1..] == none;
    var rest := Session(v, s, DEV, false, RoomAfter(v, s, DEV, false, t, ROOT, cmd), NextCwd(v, s, DEV, t, ROOT, cmd), none);
    assert rest.out == [];
  }

  lemma {:induction false} LsAndOne(v: Volume, s: State, t: Room, t': Room, path: seq<nat>, cmd: Command)
    requires Shown(v, s, DEV) && ROOT in v.dirs
    requires !Output1(v, s, DEV, t, ROOT, Ls(path)).Dead? && RoomAfter(v, s, DEV, false, t, ROOT, Ls(path)) == t'
    ensures Session(v, s, DEV, false, t, ROOT, [Ls(path), cmd]).out
            == [Output1(v, s, DEV, t, ROOT, Ls(path)), Output1(v, s, DEV, t', ROOT, cmd)]
  {
    hide Shown, Output1, RoomAfter;
    OneCommand(v, s, t', cmd);
    assert [Ls(path), cmd][1..] == [cmd];
  }

  /** A session of `ls b` and one more command. */
  lemma {:induction false} TwoCommands(cmd: Command)
    ensures var v, s := Vol(), Start(2);
            && Shown(v, s, DEV) && ROOT in v.dirs
            && Session(v, s, DEV, false, Empty(), ROOT, [Ls(B), cmd]).out
               == [Listed([(B, File)]), Output1(v, s, DEV, Full(), ROOT, cmd)]
  {
    LsFills();
    hide *;
    LsAndOne(Vol(), Start(2), Empty(), Full(), B, cmd);
  }

  lemma {:induction false} PathToA()
    ensures Shown(Vol(), Start(2), DEV) && ROOT in Vol().dirs
    ensures Output1(Vol(), Start(2), DEV, Full(), ROOT, Ls(A)).Dead?
    ensures !Output1(Vol(), Start(2), DEV, Endless, ROOT, Ls(A)).Dead?
  {
    assert Fits(Endless, (DEV, ROOT as int)) && Fits(Endless, (DEV, INODE_A as int)) && Word(A, SLASH);
    hide *;
    IsShown(2);
    RootFound();
    SubFound();
    HeldWhenFull();
    DirListed(Vol(), Start(2), DEV, Full(), ROOT, A, INODE_A);
    DirListed(Vol(), Start(2), DEV, Endless, ROOT, A, INODE_A);
  }

  /** Behind it `ls a` comes to a NULL pointer; without a limit it lists the directory. */
  lemma {:induction false} LsRunsOut()
    ensures var v, s := Vol(), Start(2);
            && Shown(v, s, DEV) && ROOT in v.dirs
            && Session(v, s, DEV, false, Empty(), ROOT, [Ls(B), Ls(A)]).out == [Listed([(B, File)]), Dead]
            && !Output1(v, s, DEV, Endless, ROOT, Ls(A)).Dead?
  {
    TwoCommands(Ls(A));
    PathToA();
    hide *;
  }

  /** And `ls` leaves out the directory a, for which there is no slot. */
  lemma {:induction false} LsLeavesOut()
    ensures var v, s := Vol(), Start(2);
            && Shown(v, s, DEV) && ROOT in v.dirs
            && var out := Session(v, s, DEV, false, Empty(), ROOT, [Ls(B), Ls([])]).out;
               && |out| == 2 && out[1].Listed? && |out[1].entries| == 3
               && forall line :: line in out[1].entries ==> line.0 != A
  {
    var v, s, es := Vol(), Start(2), RootEntries();
    TwoCommands(Ls([]));
    RootStored(2);
    ThreeFit();
    RootFound();
    ListsIff(v, s, DEV, Full(), ROOT);
    var w, shown := Listing(s, DEV, Full(), es), Fitting(DEV, Full(), es);
    NoLineOf(s, w.value, shown, A);
    hide Vol, Start, Shown, Full, Empty, Session, Listing, Lines, RootEntries, Fitting;
  }

  lemma {:induction false} NoLineOf(s: State, lines: seq<(Name, Inode)>, es: seq<Entry>, name: Name)
    requires Lines(s, DEV, lines, es) && forall e :: e in es ==> e.name != name
    ensures forall line :: line in lines ==> line.0 != name
  {
    forall line | line in lines ensures line.0 != name {
      var i :| 0 <= i < |lines| && lines[i] == line;
      assert Line(s, DEV, lines[i], es[i]);
    }
  }

  lemma {:induction false} ThreeOfFour(t: Room, a: Entry, b: Entry, c: Entry, d: Entry)
    requires Fits(t, (DEV, a.ino as int)) && Fits(t, (DEV, b.ino as int)) && Fits(t, (DEV, d.ino as int))
    requires !Fits(t, (DEV, c.ino as int))
    ensures Fitting(DEV, t, [a, b, c, d]) == [a, b, d]
  {
    hide Fits, Fitting;
    NextFitting(t, d, []);
    NextFitting(t, c, [d]);
    NextFitting(t, b, [c, d]);
    NextFitting(t, a, [b, c, d]);
    assert [d] + [] == [d] && [c] + [d] == [c, d] && [b] + [c, d] == [b, c, d] && [a] + [b, c, d] == [a, b, c, d];
    assert [b] + [d] == [b, d] && [a] + [b, d] == [a, b, d];
  }

  lemma {:induction false} NextFitting(t: Room, e: Entry, rest: seq<Entry>)
    ensures Fitting(DEV, t, [e] + rest) == (if Fits(t, (DEV, e.ino as int)) then [e] else []) + Fitting(DEV, t, rest)
    ensures Fitting(DEV, t, []) == []
  {
    assert ([e] + rest)[1..] == rest;
  }

  lemma {:induction false} ThreeFit()
    ensures var es := RootEntries(); Fitting(DEV, Full(), es) == [es[0], es[1], es[3]]
    ensures (DEV, 0) !in Full().holds && AllInUse(RootEntries())
  {
    var es := RootEntries();
    HeldWhenFull();
    hide Held, Fits, Fitting, Zeros;
    assert es == [es[0], es[1], es[2], es[3]];
    ThreeOfFour(Full(), es[0], es[1], es[2], es[3]);
  }
}
