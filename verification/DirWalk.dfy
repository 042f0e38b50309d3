/** Paths over directory inodes: search() and getino() of Lab5/Code/util.c, GetName() and R_Pwd()
    of Lab5/Code/Commands.c, on the inodes as the users of the cache see them. */
module DirWalk {
  import opened Text
  import opened Directory
  import opened InodeCache

  const ROOT: nat := 2
  const SLASH: nat := 47
  const DOTDOT: Name := [46, 46]

  // ---------------------------------------------------------------- the blocks of a directory

  predicate IsData(disk: Disk, dev: int, blk: nat) {
    (dev, blk) in disk && disk[(dev, blk)].Data? && |disk[(dev, blk)].bytes| == BLKSIZE
  }

  /** search() from block k on, stopping at the first zero block and ending in a miss. */
  function SearchFrom(disk: Disk, dev: int, inode: Inode, k: nat, name: Name): Walk<nat>
    decreases inode.blocks - k
  {
    if k >= inode.blocks then Miss
    else if k >= |inode.block| then Wild
    else if inode.block[k] == 0 then Miss
    else if !IsData(disk, dev, inode.block[k]) then Wild
    else
      var w := FindName(disk[(dev, inode.block[k])].bytes, 0, name);
      if w.Miss? then SearchFrom(disk, dev, inode, k + 1, name) else w
  }

  /** search() as written: block numbers of 0 are read like any other, and behind the last
      block there is no return value. */
  function SearchWritten(disk: Disk, dev: int, inode: Inode, k: nat, name: Name): Walk<nat>
    decreases inode.blocks - k
  {
    if k >= inode.blocks || k >= |inode.block| || !IsData(disk, dev, inode.block[k]) then Wild
    else
      var w := FindName(disk[(dev, inode.block[k])].bytes, 0, name);
      if w.Miss? then SearchWritten(disk, dev, inode, k + 1, name) else w
  }

  /** GetName() from block k on, stopping at the first zero block. */
  function NameFrom(disk: Disk, dev: int, inode: Inode, k: nat, ino: nat): Walk<Name>
    decreases inode.blocks - k
  {
    if k >= inode.blocks then Miss
    else if k >= |inode.block| then Wild
    else if inode.block[k] == 0 then Miss
    else if !IsData(disk, dev, inode.block[k]) then Wild
    else
      var w := FindInode(disk[(dev, inode.block[k])].bytes, 0, ino);
      if w.Miss? then NameFrom(disk, dev, inode, k + 1, ino) else w
  }

  /** Block k of the directory is filled by the entries. */
  predicate BlockHolds(disk: Disk, dev: int, inode: Inode, k: nat, es: seq<Entry>) {
    && k < |inode.block| && inode.block[k] != 0 && IsData(disk, dev, inode.block[k])
    && ValidEntries(es) && disk[(dev, inode.block[k])].bytes == Encode(es)
  }

  /** The directory consists of these blocks, the entries of each in order. */
  predicate DirHolds(disk: Disk, dev: int, inode: Inode, ess: seq<seq<Entry>>) {
    && inode.mode.Dir?
    && |ess| <= inode.blocks
    && (|ess| < inode.blocks ==> |ess| < |inode.block| && inode.block[|ess|] == 0)
    && forall k: nat {:trigger BlockHolds(disk, dev, inode, k, ess[k])} ::
         k < |ess| ==> BlockHolds(disk, dev, inode, k, ess[k])
  }

  function Flat(ess: seq<seq<Entry>>): seq<Entry> {
    if ess == [] then [] else ess[0] + Flat(ess[1..])
  }

  lemma {:induction false} LookupAppend(a: seq<Entry>, b: seq<Entry>, name: Name)
    ensures HasName(a + b, name) <==> HasName(a, name) || HasName(b, name)
    ensures Lookup(a + b, name) == if HasName(a, name) then Lookup(a, name) else Lookup(b, name)
  {
    if a == [] {
      assert a + b == b;
    } else {
      LookupAppend(a[1..], b, name);
      assert (a + b)[1..] == a[1..] + b;
      HasNameCons(a, name);
      HasNameCons(a + b, name);
    }
  }

  lemma {:induction false} NameOfAppend(a: seq<Entry>, b: seq<Entry>, ino: nat)
    ensures HasInode(a + b, ino) <==> HasInode(a, ino) || HasInode(b, ino)
    ensures HasInode(a, ino) ==> NameOf(a + b, ino) == NameOf(a, ino)
    ensures !HasInode(a, ino) && HasInode(b, ino) ==> NameOf(a + b, ino) == NameOf(b, ino)
  {
    if a == [] {
      assert a + b == b;
    } else {
      NameOfAppend(a[1..], b, ino);
      assert (a + b)[1..] == a[1..] + b;
      HasInodeCons(a, ino);
      HasInodeCons(a + b, ino);
    }
  }

  /** Across the data blocks search() finds the first entry with the name. */
  lemma {:induction false} SearchIsLookup(disk: Disk, dev: int, inode: Inode, ess: seq<seq<Entry>>, k: nat, name: Name)
    requires DirHolds(disk, dev, inode, ess) && k <= |ess|
    ensures var es := Flat(ess[k..]);
            SearchFrom(disk, dev, inode, k, name) == if HasName(es, name) then Hit(Lookup(es, name)) else Miss
    decreases |ess| - k
  {
    if k < |ess| {
      SearchIsLookup(disk, dev, inode, ess, k + 1, name);
      assert BlockHolds(disk, dev, inode, k, ess[k]);
      assert [] + Encode(ess[k]) == Encode(ess[k]);
      FindNameIsLookup([], ess[k], name);
      assert ess[k..][1..] == ess[k + 1..];
      LookupAppend(ess[k], Flat(ess[k + 1..]), name);
    }
  }

  lemma {:induction false} GetNameIsNameOf(disk: Disk, dev: int, inode: Inode, ess: seq<seq<Entry>>, k: nat, ino: nat)
    requires DirHolds(disk, dev, inode, ess) && k <= |ess|
    ensures var es := Flat(ess[k..]);
            NameFrom(disk, dev, inode, k, ino) == if HasInode(es, ino) then Hit(NameOf(es, ino)) else Miss
    decreases |ess| - k
  {
    if k < |ess| {
      GetNameIsNameOf(disk, dev, inode, ess, k + 1, ino);
      assert BlockHolds(disk, dev, inode, k, ess[k]);
      assert [] + Encode(ess[k]) == Encode(ess[k]);
      FindInodeIsNameOf([], ess[k], ino);
      assert ess[k..][1..] == ess[k + 1..];
      NameOfAppend(ess[k], Flat(ess[k + 1..]), ino);
    }
  }

  lemma {:induction false} WrittenNeverMisses(disk: Disk, dev: int, inode: Inode, k: nat, name: Name)
    ensures SearchWritten(disk, dev, inode, k, name) != Miss
    decreases inode.blocks - k
  {
    if k < inode.blocks { WrittenNeverMisses(disk, dev, inode, k + 1, name); }
  }

  /** search() as written finds what is there, and fails exactly for the names that are missing. */
  lemma {:induction false} SearchWrittenRightIff(disk: Disk, dev: int, inode: Inode, ess: seq<seq<Entry>>, k: nat, name: Name)
    requires DirHolds(disk, dev, inode, ess) && k <= |ess|
    ensures SearchWritten(disk, dev, inode, k, name) == SearchFrom(disk, dev, inode, k, name) <==> HasName(Flat(ess[k..]), name)
    decreases |ess| - k
  {
    SearchIsLookup(disk, dev, inode, ess, k, name);
    WrittenNeverMisses(disk, dev, inode, k, name);
    if k < |ess| && HasName(Flat(ess[k..]), name) {
      SearchWrittenRightIff(disk, dev, inode, ess, k + 1, name);
      assert BlockHolds(disk, dev, inode, k, ess[k]);
      assert [] + Encode(ess[k]) == Encode(ess[k]);
      FindNameIsLookup([], ess[k], name);
      assert ess[k..][1..] == ess[k + 1..];
      LookupAppend(ess[k], Flat(ess[k + 1..]), name);
    }
  }

  /** How it fails: with blocks numbered 0 left (here all zeros, as an unused boot block is) it
      walks one forever; if no i_block is left, it ends without a value. */
  lemma {:induction false} SearchWrittenFails(disk: Disk, dev: int, inode: Inode, ess: seq<seq<Entry>>, k: nat, name: Name)
    requires DirHolds(disk, dev, inode, ess) && k <= |ess| && name != [] && !HasName(Flat(ess[k..]), name)
    requires (dev, 0) in disk && disk[(dev, 0)] == Data(Zeros(BLKSIZE))
    ensures SearchWritten(disk, dev, inode, k, name) == if |ess| < inode.blocks then Hang else Wild
    decreases |ess| - k
  {
    if k < |ess| {
      assert BlockHolds(disk, dev, inode, k, ess[k]);
      assert [] + Encode(ess[k]) == Encode(ess[k]);
      FindNameIsLookup([], ess[k], name);
      assert ess[k..][1..] == ess[k + 1..];
      LookupAppend(ess[k], Flat(ess[k + 1..]), name);
      SearchWrittenFails(disk, dev, inode, ess, k + 1, name);
    } else if |ess| < inode.blocks {
      var zeros := disk[(dev, 0)].bytes;
      assert Readable(zeros, 0) && NameAt(zeros, 0) == [] && RecLenAt(zeros, 0) == 0;
    }
  }

  /** A directory of one block, with i_blocks at 2 as for every block of 1024 bytes: search()
      as written never comes back from a name that is not there. */
  lemma {:induction false} MissingNameHangs(disk: Disk, dev: int, blk: nat, es: seq<Entry>, name: Name)
    requires blk != 0 && ValidEntries(es) && |Encode(es)| == BLKSIZE && !HasName(es, name) && name != []
    requires (dev, blk) in disk && disk[(dev, blk)] == Data(Encode(es))
    requires (dev, 0) in disk && disk[(dev, 0)] == Data(Zeros(BLKSIZE))
    ensures var dir := Inode(Dir, 2, [blk, 0], 0);
            SearchFrom(disk, dev, dir, 0, name) == Miss && SearchWritten(disk, dev, dir, 0, name) == Hang
  {
    var dir, ess := Inode(Dir, 2, [blk, 0], 0), [es];
    assert BlockHolds(disk, dev, dir, 0, ess[0]);
    assert ess[0..] == ess && ess[1..] == [] && es + [] == es;
    SearchWrittenFails(disk, dev, dir, ess, 0, name);
    SearchIsLookup(disk, dev, dir, ess, 0, name);
  }

  // ---------------------------------------------------------------- getino()

  /** The walk of getino() from inode d: each name is searched in the inode before it, whatever
      that inode is. */
  function ResolveIn(s: State, dev: int, d: nat, names: seq<Name>): Walk<nat>
    requires OnDisk(s.disk, s.start, dev, d)
    decreases |names|
  {
    if names == [] then Hit(d)
    else
      var w := SearchFrom(s.disk, dev, Logical(s, dev, d), 0, names[0]);
      if w == Hit(0) then Miss
      else if !w.Hit? then w
      else if !OnDisk(s.disk, s.start, dev, w.value) then Wild
      else ResolveIn(s, dev, w.value, names[1..])
  }

  predicate Absolute(path: seq<nat>) {
    path != [] && path[0] == SLASH
  }

  /** Where getino() starts. */
  function StartOf(cwd: nat, path: seq<nat>): nat {
    if Absolute(path) then ROOT else cwd
  }

  /** getino(); `Miss` stands for 0. */
  function Getino(s: State, dev: int, cwd: nat, path: seq<nat>): Walk<nat>
    requires OnDisk(s.disk, s.start, dev, ROOT) && OnDisk(s.disk, s.start, dev, cwd)
  {
    if path == [SLASH] then Hit(ROOT)
    else if Tokens(path, SLASH) == [] then Miss
    else ResolveIn(s, dev, StartOf(cwd, path), Tokens(path, SLASH))
  }

  // ---------------------------------------------------------------- the tree of directories

  /** The directories of a file system: the entries of each, block by block, and a depth that
      shows that ".." leads to the root. */
  datatype Volume = Volume(dirs: map<nat, seq<seq<Entry>>>, depth: map<nat, nat>)

  function EntriesOf(v: Volume, d: nat): seq<Entry>
    requires d in v.dirs
  {
    Flat(v.dirs[d])
  }

  function Parent(v: Volume, d: nat): nat
    requires d in v.dirs
  {
    Lookup(EntriesOf(v, d), DOTDOT)
  }

  predicate DirOk(v: Volume, d: nat)
    requires d in v.dirs
  {
    var es := EntriesOf(v, d);
    && 0 < d && d in v.depth
    && UniqueNames(es)
    && (forall i :: 0 <= i < |es| && es[i].ino != 0 ==> Word(es[i].name, SLASH))
    && HasName(es, DOTDOT)
    && Parent(v, d) in v.dirs && Parent(v, d) in v.depth
    && (d != ROOT ==> v.depth[Parent(v, d)] < v.depth[d] && HasInode(EntriesOf(v, Parent(v, d)), d))
  }

  predicate Tree(v: Volume) {
    ROOT in v.dirs && forall d :: d in v.dirs ==> DirOk(v, d)
  }

  /** An entry in use names an inode on the disk, and the directories among them are the ones
      of the volume. */
  predicate EntryOk(v: Volume, s: State, dev: int, e: Entry) {
    e.ino != 0 ==>
      && OnDisk(s.disk, s.start, dev, e.ino)
      && (Logical(s, dev, e.ino).mode.Dir? <==> e.ino in v.dirs)
  }

  predicate DirStored(v: Volume, s: State, dev: int, d: nat)
    requires d in v.dirs
  {
    && OnDisk(s.disk, s.start, dev, d)
    && DirHolds(s.disk, dev, Logical(s, dev, d), v.dirs[d])
    && forall e :: e in EntriesOf(v, d) ==> EntryOk(v, s, dev, e)
  }

  /** The disk, seen through the cache, holds the volume. */
  predicate Stored(v: Volume, s: State, dev: int) {
    forall d :: d in v.dirs ==> DirStored(v, s, dev, d)
  }

  /** The names from the root to d: what pwd is to print. */
  function PwdNames(v: Volume, d: nat): (names: seq<Name>)
    requires Tree(v) && d in v.dirs
    decreases v.depth[d]
  {
    assert DirOk(v, d);
    if d == ROOT then []
    else
      var p := Parent(v, d);
      PwdNames(v, p) + [NameOf(EntriesOf(v, p), d)]
  }

  /** The inodes that R_Pwd() loads on the way up. */
  function Ancestors(v: Volume, dev: int, d: nat): multiset<(int, int)>
    requires Tree(v) && d in v.dirs
    decreases v.depth[d]
  {
    assert DirOk(v, d);
    if d == ROOT then multiset{} else multiset{(dev, Parent(v, d))} + Ancestors(v, dev, Parent(v, d))
  }

  function PwdPath(v: Volume, d: nat): seq<nat>
    requires Tree(v) && d in v.dirs
  {
    Prefixed(PwdNames(v, d), SLASH)
  }

  /** Every name but the last leads to a directory, or nowhere: the walk stays on directories. */
  predicate Walkable(v: Volume, d: nat, names: seq<Name>)
    requires d in v.dirs
    decreases |names|
  {
    |names| <= 1
    || (var n := Lookup(EntriesOf(v, d), names[0]);
        n == 0 || (n in v.dirs && Walkable(v, n, names[1..])))
  }

  /** The plain meaning of a path: lookups in the tree; 0 when a name is missing. */
  function Resolve(v: Volume, d: nat, names: seq<Name>): nat
    requires d in v.dirs && Walkable(v, d, names)
    decreases |names|
  {
    if names == [] then d
    else
      var n := Lookup(EntriesOf(v, d), names[0]);
      if n == 0 || |names| == 1 then n else Resolve(v, n, names[1..])
  }

  lemma {:induction false} LookupEntry(es: seq<Entry>, name: Name)
    ensures Lookup(es, name) != 0 ==> HasName(es, name) && exists e :: e in es && e.ino == Lookup(es, name)
    ensures !HasName(es, name) ==> Lookup(es, name) == 0
  {
    if es != [] {
      LookupEntry(es[1..], name);
      HasNameCons(es, name);
      if es[0].name == name {
        assert es[0] in es;
      } else if Lookup(es[1..], name) != 0 {
        var e :| e in es[1..] && e.ino == Lookup(es[1..], name);
        assert e in es;
      }
    }
  }

  /** On a stored tree getino(), through the cache and the bytes of the blocks, does the lookups
      of the tree. */
  lemma {:induction false} ResolveInIsResolve(v: Volume, s: State, dev: int, d: nat, names: seq<Name>)
    requires Tree(v) && Stored(v, s, dev) && d in v.dirs && Walkable(v, d, names)
    requires OnDisk(s.disk, s.start, dev, d)
    ensures var r := Resolve(v, d, names);
            && ResolveIn(s, dev, d, names) == (if r == 0 then Miss else Hit(r))
            && (r != 0 ==> OnDisk(s.disk, s.start, dev, r) && (Logical(s, dev, r).mode.Dir? <==> r in v.dirs))
    decreases |names|
  {
    assert DirOk(v, d) && DirStored(v, s, dev, d);
    if names != [] {
      var ess := v.dirs[d];
      SearchIsLookup(s.disk, dev, Logical(s, dev, d), ess, 0, names[0]);
      assert ess[0..] == ess;
      LookupEntry(Flat(ess), names[0]);
      var n := Lookup(Flat(ess), names[0]);
      if n != 0 {
        var e :| e in EntriesOf(v, d) && e.ino == n;
        assert EntryOk(v, s, dev, e);
        if |names| > 1 { ResolveInIsResolve(v, s, dev, n, names[1..]); }
      }
    }
  }

  /** The first inode on the path that is no directory, and the names behind it. */
  function FirstFile(v: Volume, d: nat, names: seq<Name>): (r: (nat, seq<Name>))
    requires d in v.dirs && !Walkable(v, d, names)
    ensures r.0 !in v.dirs && r.1 != []
    decreases |names|
  {
    var n := Lookup(EntriesOf(v, d), names[0]);
    if n in v.dirs then FirstFile(v, n, names[1..]) else (n, names[1..])
  }

  lemma {:induction false} FromFirstFile(v: Volume, s: State, dev: int, d: nat, names: seq<Name>)
    requires Tree(v) && Stored(v, s, dev) && d in v.dirs && !Walkable(v, d, names)
    requires OnDisk(s.disk, s.start, dev, d)
    ensures var (f, rest) := FirstFile(v, d, names);
            && OnDisk(s.disk, s.start, dev, f) && !Logical(s, dev, f).mode.Dir?
            && ResolveIn(s, dev, d, names) == ResolveIn(s, dev, f, rest)
    decreases |names|
  {
    assert DirOk(v, d) && DirStored(v, s, dev, d);
    var ess := v.dirs[d];
    SearchIsLookup(s.disk, dev, Logical(s, dev, d), ess, 0, names[0]);
    assert ess[0..] == ess;
    LookupEntry(Flat(ess), names[0]);
    var n := Lookup(Flat(ess), names[0]);
    var e :| e in EntriesOf(v, d) && e.ino == n;
    assert EntryOk(v, s, dev, e);
    if n in v.dirs { FromFirstFile(v, s, dev, n, names[1..]); }
  }

  /** Block j of an inode is filled by records, and none carries the name. */
  ghost predicate BlockLacks(disk: Disk, dev: int, inode: Inode, j: nat, name: Name) {
    && j < inode.blocks && j < |inode.block| && inode.block[j] != 0 && IsData(disk, dev, inode.block[j])
    && Ends(disk[(dev, inode.block[j])].bytes, 0) && !Carries(disk[(dev, inode.block[j])].bytes, 0, name)
  }

  /** The blocks of an inode end before block m. */
  predicate NoMoreBlocks(inode: Inode, m: nat) {
    m >= inode.blocks || (m < |inode.block| && inode.block[m] == 0)
  }

  /** No block from k on carries the name. */
  ghost predicate Lacks(disk: Disk, dev: int, inode: Inode, k: nat, name: Name) {
    exists m: nat :: k <= m && NoMoreBlocks(inode, m) && LacksUpTo(disk, dev, inode, k, m, name)
  }

  ghost predicate LacksUpTo(disk: Disk, dev: int, inode: Inode, k: nat, m: nat, name: Name) {
    forall j: nat {:trigger BlockLacks(disk, dev, inode, j, name)} :: k <= j < m ==> BlockLacks(disk, dev, inode, j, name)
  }

  /** In block m, the first record with the name has the inode number x. */
  ghost predicate BlockFirst(disk: Disk, dev: int, inode: Inode, m: nat, name: Name, x: nat) {
    && m < inode.blocks && m < |inode.block| && inode.block[m] != 0 && IsData(disk, dev, inode.block[m])
    && exists at: nat :: First(disk[(dev, inode.block[m])].bytes, 0, at, name, x)
  }

  /** The first record with the name in the blocks from k on has the inode number x. */
  ghost predicate FirstIn(disk: Disk, dev: int, inode: Inode, k: nat, name: Name, x: nat) {
    exists m: nat :: k <= m && BlockFirst(disk, dev, inode, m, name, x) && LacksUpTo(disk, dev, inode, k, m, name)
  }

  /** Whatever is on the disk: search() is a miss exactly when no block carries the name, and
      finds an inode exactly when it is that of the first record with the name. */
  lemma {:induction false} SearchIff(disk: Disk, dev: int, inode: Inode, k: nat, name: Name, x: nat)
    ensures SearchFrom(disk, dev, inode, k, name) == Miss <==> Lacks(disk, dev, inode, k, name)
    ensures SearchFrom(disk, dev, inode, k, name) == Hit(x) <==> FirstIn(disk, dev, inode, k, name, x)
    decreases inode.blocks - k
  {
    if NoMoreBlocks(inode, k) {
      assert LacksUpTo(disk, dev, inode, k, k, name);
      forall m: nat | k <= m && BlockFirst(disk, dev, inode, m, name, x) ensures !LacksUpTo(disk, dev, inode, k, m, name) {
        assert m > k ==> !BlockLacks(disk, dev, inode, k, name);
      }
    } else if k < |inode.block| && IsData(disk, dev, inode.block[k]) {
      FindNameIff(disk[(dev, inode.block[k])].bytes, 0, name, x);
      if BlockLacks(disk, dev, inode, k, name) {
        SearchIff(disk, dev, inode, k + 1, name, x);
        OneBlockOn(disk, dev, inode, k, name, x);
      } else {
        NotPast(disk, dev, inode, k, name, x);
      }
    } else {
      assert !BlockLacks(disk, dev, inode, k, name);
      NotPast(disk, dev, inode, k, name, x);
    }
  }

  lemma {:induction false} NotPast(disk: Disk, dev: int, inode: Inode, k: nat, name: Name, x: nat)
    requires !NoMoreBlocks(inode, k) && !BlockLacks(disk, dev, inode, k, name)
    ensures !Lacks(disk, dev, inode, k, name)
    ensures FirstIn(disk, dev, inode, k, name, x) <==> BlockFirst(disk, dev, inode, k, name, x)
  {
    forall m: nat | k < m ensures !LacksUpTo(disk, dev, inode, k, m, name) { }
    assert LacksUpTo(disk, dev, inode, k, k, name);
  }

  lemma {:induction false} OneBlockOn(disk: Disk, dev: int, inode: Inode, k: nat, name: Name, x: nat)
    requires !NoMoreBlocks(inode, k) && BlockLacks(disk, dev, inode, k, name)
    ensures Lacks(disk, dev, inode, k, name) <==> Lacks(disk, dev, inode, k + 1, name)
    ensures FirstIn(disk, dev, inode, k, name, x) <==> FirstIn(disk, dev, inode, k + 1, name, x)
  {
    forall m: nat | k < m
      ensures LacksUpTo(disk, dev, inode, k, m, name) <==> LacksUpTo(disk, dev, inode, k + 1, m, name)
    {
    }
    var b := disk[(dev, inode.block[k])].bytes;
    forall at: nat ensures !First(b, 0, at, name, x) { assert Carries(b, 0, name) <== Named(b, 0, at, name); }
  }

  /** The names lead nowhere from inode d, by the bytes of its blocks: the first is lacking, or
      the first record that carries it is not in use, or the rest leads nowhere from there. */
  ghost predicate LeadsNowhere(s: State, dev: int, d: nat, names: seq<Name>)
    requires OnDisk(s.disk, s.start, dev, d)
    decreases |names|
  {
    && names != []
    && var inode := Logical(s, dev, d);
       || Lacks(s.disk, dev, inode, 0, names[0])
       || FirstIn(s.disk, dev, inode, 0, names[0], 0)
       || exists n: nat :: FirstIn(s.disk, dev, inode, 0, names[0], n)
                           && OnDisk(s.disk, s.start, dev, n) && LeadsNowhere(s, dev, n, names[1..])
  }

  lemma {:induction false} MissIff(s: State, dev: int, d: nat, names: seq<Name>)
    requires OnDisk(s.disk, s.start, dev, d)
    ensures ResolveIn(s, dev, d, names) == Miss <==> LeadsNowhere(s, dev, d, names)
    decreases |names|
  {
    if names != [] {
      var inode := Logical(s, dev, d);
      var w := SearchFrom(s.disk, dev, inode, 0, names[0]);
      SearchIff(s.disk, dev, inode, 0, names[0], 0);
      forall n: nat ensures w == Hit(n) <==> FirstIn(s.disk, dev, inode, 0, names[0], n) {
        SearchIff(s.disk, dev, inode, 0, names[0], n);
      }
      if w.Hit? && OnDisk(s.disk, s.start, dev, w.value) { MissIff(s, dev, w.value, names[1..]); }
    }
  }

  /** The names lead from inode d to inode x, by the bytes of the blocks: each is that of the first
      record that carries it, and that record is in use. */
  ghost predicate LeadsTo(s: State, dev: int, d: nat, names: seq<Name>, x: nat)
    requires OnDisk(s.disk, s.start, dev, d)
    decreases |names|
  {
    if names == [] then x == d
    else
      exists n: nat :: FirstIn(s.disk, dev, Logical(s, dev, d), 0, names[0], n)
                       && n != 0 && OnDisk(s.disk, s.start, dev, n) && LeadsTo(s, dev, n, names[1..], x)
  }

  /** From any inode, on any disk, getino() comes exactly to where the names lead. */
  lemma {:induction false} HitIff(s: State, dev: int, d: nat, names: seq<Name>, x: nat)
    requires OnDisk(s.disk, s.start, dev, d)
    ensures ResolveIn(s, dev, d, names) == Hit(x) <==> LeadsTo(s, dev, d, names, x)
    decreases |names|
  {
    if names != [] {
      var inode := Logical(s, dev, d);
      var w := SearchFrom(s.disk, dev, inode, 0, names[0]);
      forall n: nat ensures w == Hit(n) <==> FirstIn(s.disk, dev, inode, 0, names[0], n) {
        SearchIff(s.disk, dev, inode, 0, names[0], n);
      }
      if w.Hit? && OnDisk(s.disk, s.start, dev, w.value) { HitIff(s, dev, w.value, names[1..], x); }
    }
  }

  /** A regular file with a record among its bytes is a directory to search(), and one that
      begins with zeros keeps it busy forever. */
  lemma {:induction false} FilesAreSearched(disk: Disk, dev: int, blk: nat, name: Name)
    requires blk != 0 && IsData(disk, dev, blk) && name != []
    ensures var file := Inode(Reg, 1, [blk], 0);
            && (disk[(dev, blk)].bytes == Zeros(BLKSIZE) ==> SearchFrom(disk, dev, file, 0, name) == Hang)
            && (forall es :: ValidEntries(es) && disk[(dev, blk)].bytes == Encode(es) && HasName(es, name) ==>
                  SearchFrom(disk, dev, file, 0, name) == Hit(Lookup(es, name)))
  {
    var b := disk[(dev, blk)].bytes;
    if b == Zeros(BLKSIZE) {
      assert Readable(b, 0) && NameAt(b, 0) == [] && RecLenAt(b, 0) == 0;
    }
    forall es | ValidEntries(es) && b == Encode(es) && HasName(es, name)
      ensures SearchFrom(disk, dev, Inode(Reg, 1, [blk], 0), 0, name) == Hit(Lookup(es, name))
    {
      assert [] + Encode(es) == Encode(es);
      FindNameIsLookup([], es, name);
    }
  }

  lemma {:induction false} ResolveAppend(v: Volume, d: nat, names: seq<Name>, p: nat, name: Name)
    requires Tree(v) && d in v.dirs && Walkable(v, d, names) && Resolve(v, d, names) == p && p in v.dirs
    ensures Walkable(v, d, names + [name])
    ensures Resolve(v, d, names + [name]) == Lookup(EntriesOf(v, p), name)
    decreases |names|
  {
    assert DirOk(v, p);
    var all := names + [name];
    if names != [] {
      assert all[1..] == names[1..] + [name] && all[0] == names[0];
      var n := Lookup(EntriesOf(v, d), names[0]);
      if |names| == 1 {
        assert n == p && all[1..] == [name];
      } else {
        ResolveAppend(v, n, names[1..], p, name);
      }
    }
  }

  /** A name that is missing stays missing. */
  lemma {:induction false} MissingAppend(v: Volume, d: nat, names: seq<Name>, name: Name)
    requires d in v.dirs && d > 0 && Walkable(v, d, names) && Resolve(v, d, names) == 0
    ensures Walkable(v, d, names + [name]) && Resolve(v, d, names + [name]) == 0
    decreases |names|
  {
    var all := names + [name];
    assert all[1..] == names[1..] + [name] && all[0] == names[0];
    var n := Lookup(EntriesOf(v, d), names[0]);
    if |names| > 1 && n != 0 { MissingAppend(v, n, names[1..], name); }
  }

  /** On the way from the root to d, a dead record hides a name. */
  predicate PathHidden(v: Volume, d: nat)
    requires Tree(v) && d in v.dirs
    decreases v.depth[d]
  {
    assert DirOk(v, d);
    d != ROOT && (Hidden(EntriesOf(v, Parent(v, d)), d) || PathHidden(v, Parent(v, d)))
  }

  /** The name that GetName() finds in the parent is a word, and leads back unless it is hidden. */
  lemma {:induction false} NameLeadsBack(v: Volume, d: nat)
    requires Tree(v) && d in v.dirs && d != ROOT
    ensures DirOk(v, d) && DirOk(v, Parent(v, d)) && HasInode(EntriesOf(v, Parent(v, d)), d)
    ensures var es := EntriesOf(v, Parent(v, d));
            Word(NameOf(es, d), SLASH) && Lookup(es, NameOf(es, d)) == if Hidden(es, d) then 0 else d
  {
    assert DirOk(v, d);
    var p := Parent(v, d);
    assert DirOk(v, p);
    var es := EntriesOf(v, p);
    NameLookup(es, d);
    var i := FirstOf(es, d);
  }

  /** Where the path of d leads, when that of its parent is known. */
  lemma {:induction false} OneNameMore(v: Volume, d: nat, names: seq<Name>, hidden: bool)
    requires Tree(v) && d in v.dirs && d != ROOT && DirOk(v, d) && names == PwdNames(v, Parent(v, d))
    requires Words(names, SLASH) && Walkable(v, ROOT, names)
    requires Resolve(v, ROOT, names) == if hidden then 0 else Parent(v, d)
    ensures Words(PwdNames(v, d), SLASH) && PwdNames(v, d) != []
    ensures Walkable(v, ROOT, PwdNames(v, d))
    ensures HasInode(EntriesOf(v, Parent(v, d)), d)
    ensures Resolve(v, ROOT, PwdNames(v, d)) == if hidden || Hidden(EntriesOf(v, Parent(v, d)), d) then 0 else d
  {
    NameLeadsBack(v, d);
    var p := Parent(v, d);
    var name := NameOf(EntriesOf(v, p), d);
    assert PwdNames(v, d) == names + [name];
    WordsAppend(names, name, SLASH);
    hide DirOk, PwdNames, Hidden;
    if hidden {
      MissingAppend(v, ROOT, names, name);
    } else {
      ResolveAppend(v, ROOT, names, p, name);
    }
  }

  lemma {:induction false} PwdResolves(v: Volume, d: nat)
    requires Tree(v) && d in v.dirs
    ensures Words(PwdNames(v, d), SLASH) && (d != ROOT <==> PwdNames(v, d) != [])
    ensures Walkable(v, ROOT, PwdNames(v, d))
    ensures Resolve(v, ROOT, PwdNames(v, d)) == if PathHidden(v, d) then 0 else d
    decreases v.depth[d]
  {
    assert DirOk(v, d);
    if d == ROOT {
      assert PwdNames(v, d) == [];
    } else {
      PwdResolves(v, Parent(v, d));
      OneNameMore(v, d, PwdNames(v, Parent(v, d)), PathHidden(v, Parent(v, d)));
    }
  }

  /** pwd and path lookup undo each other: getino() of the path of a directory is that directory
      exactly when it is not the root, whose path is empty, and no dead record hides a name on
      the path; otherwise it is 0. */
  lemma {:induction false} PwdIsUndoneIff(v: Volume, s: State, dev: int, cwd: nat, d: nat)
    requires Tree(v) && Stored(v, s, dev) && d in v.dirs && cwd in v.dirs
    requires OnDisk(s.disk, s.start, dev, ROOT) && OnDisk(s.disk, s.start, dev, cwd)
    ensures Getino(s, dev, cwd, PwdPath(v, d)) == if d == ROOT || PathHidden(v, d) then Miss else Hit(d)
  {
    var names := PwdNames(v, d);
    PwdResolves(v, d);
    TokensPrefixed(names, SLASH);
    assert DirOk(v, d);
    hide PathHidden;
    if d != ROOT {
      assert Word(names[0], SLASH);
      ResolveInIsResolve(v, s, dev, ROOT, names);
    }
  }

  /** What R_Pwd() finds in d, and in its parent. */
  lemma {:induction false} DotDot(v: Volume, s: State, dev: int, d: nat)
    requires Tree(v) && Stored(v, s, dev) && d in v.dirs
    ensures OnDisk(s.disk, s.start, dev, d)
    ensures SearchFrom(s.disk, dev, Logical(s, dev, d), 0, DOTDOT) == Hit(Parent(v, d))
  {
    assert DirOk(v, d) && DirStored(v, s, dev, d);
    assert v.dirs[d][0..] == v.dirs[d];
    SearchIsLookup(s.disk, dev, Logical(s, dev, d), v.dirs[d], 0, DOTDOT);
  }

  lemma {:induction false} ParentName(v: Volume, s: State, dev: int, d: nat)
    requires Tree(v) && Stored(v, s, dev) && d in v.dirs && d != ROOT
    ensures var p := Parent(v, d);
            && DirOk(v, d) && HasInode(EntriesOf(v, p), d) && OnDisk(s.disk, s.start, dev, p)
            && NameFrom(s.disk, dev, Logical(s, dev, p), 0, d) == Hit(NameOf(EntriesOf(v, p), d))
  {
    assert DirOk(v, d);
    var p := Parent(v, d);
    assert DirStored(v, s, dev, p);
    assert v.dirs[p][0..] == v.dirs[p];
    GetNameIsNameOf(s.disk, dev, Logical(s, dev, p), v.dirs[p], 0, d);
  }

  lemma {:induction false} PwdPathStep(v: Volume, d: nat)
    requires Tree(v) && d in v.dirs && d != ROOT
    ensures DirOk(v, d) && HasInode(EntriesOf(v, Parent(v, d)), d)
    ensures PwdPath(v, d) == PwdPath(v, Parent(v, d)) + [SLASH] + NameOf(EntriesOf(v, Parent(v, d)), d)
  {
    assert DirOk(v, d);
    PrefixedAppend(PwdNames(v, Parent(v, d)), NameOf(EntriesOf(v, Parent(v, d)), d), SLASH);
  }

  lemma {:induction false} NamesAreInjective(v: Volume, d: nat, e: nat)
    requires Tree(v) && d in v.dirs && e in v.dirs && PwdNames(v, d) == PwdNames(v, e)
    ensures d == e
    decreases v.depth[d]
  {
    assert DirOk(v, d) && DirOk(v, e);
    if d != ROOT && e != ROOT {
      var p, q := Parent(v, d), Parent(v, e);
      var m, n := NameOf(EntriesOf(v, p), d), NameOf(EntriesOf(v, q), e);
      assert PwdNames(v, d) == PwdNames(v, p) + [m] && PwdNames(v, e) == PwdNames(v, q) + [n];
      SameFront(PwdNames(v, p), m, PwdNames(v, q), n);
      NamesAreInjective(v, p, q);
      assert DirOk(v, p);
      var i, j := FirstOf(EntriesOf(v, p), d), FirstOf(EntriesOf(v, p), e);
    }
  }

  lemma {:induction false} SameFront<T>(a: seq<T>, x: T, b: seq<T>, y: T)
    requires a + [x] == b + [y]
    ensures a == b && x == y
  {
    assert (a + [x])[..|a|] == a && (b + [y])[..|b|] == b;
    assert (a + [x])[|a|] == x && (b + [y])[|b|] == y;
  }

  /** Different directories have different paths. */
  lemma {:induction false} PwdIsInjective(v: Volume, d: nat, e: nat)
    requires Tree(v) && d in v.dirs && e in v.dirs && PwdPath(v, d) == PwdPath(v, e)
    ensures d == e
  {
    PwdResolves(v, d);
    PwdResolves(v, e);
    TokensPrefixed(PwdNames(v, d), SLASH);
    TokensPrefixed(PwdNames(v, e), SLASH);
    NamesAreInjective(v, d, e);
  }

  // ---------------------------------------------------------------- what the cache may do meanwhile

  predicate SeenSame(s: State, s': State, d: int, n: int) {
    OnDisk(s.disk, s.start, d, n) ==> OnDisk(s'.disk, s'.start, d, n) && Logical(s', d, n) == Logical(s, d, n)
  }

  predicate HeldStays(s: State, s': State, i: nat) {
    i < |s.slots| == |s'.slots| && s.slots[i].refCount > 0 ==> Is(s'.slots[i], s.slots[i].dev, s.slots[i].ino)
  }

  /** Every user sees the same inodes and data blocks. */
  ghost predicate SameView(s: State, s': State) {
    && |s'.slots| == |s.slots| && s'.start == s.start
    && (forall d, n {:trigger SeenSame(s, s', d, n)} :: SeenSame(s, s', d, n))
    && (forall d, n {:trigger OnDisk(s'.disk, s'.start, d, n)} :: OnDisk(s'.disk, s'.start, d, n) ==> OnDisk(s.disk, s.start, d, n))
    && (forall b :: b in s.disk && s.disk[b].Data? ==> b in s'.disk && s'.disk[b] == s.disk[b])
    && (forall b :: b in s'.disk && s'.disk[b].Data? ==> b in s.disk && s.disk[b].Data?)
  }

  /** Moreover, a slot that was held still has its inode: its pointer is good. */
  ghost predicate Later(s: State, s': State) {
    SameView(s, s') && forall i: nat {:trigger HeldStays(s, s', i)} :: HeldStays(s, s', i)
  }

  /** Reference counts are exact: each is the number of holds on its inode. */
  ghost predicate Exact(s: State, holds: multiset<(int, int)>) {
    forall d, n {:trigger Holds(s, d, n)} :: Holds(s, d, n) == holds[(d, n)]
  }
}
