/** The mounted file system of Lab5/Code: the minode table and the disk are changed in place by
    iget(), iput() and by the commands on top of them. `readme` chooses the release of
    references that Lab5/ReadMe.md:58-66 and 160-164 ask for; without it the references are
    kept and dropped as the code does. */
module MountedRoot {
  import opened Text
  import opened Directory
  import opened InodeCache
  import opened DirWalk
  import opened CacheView
  import opened TableRoom
  import opened MountCommands

  lemma {:induction false} Regroup(a: seq<nat>, b: seq<nat>, c: seq<nat>)
    ensures a + (b + c) == (a + b) + c
  {
  }

  class Mount {
    const slots: array<Minode>
    const dev: int
    const start: int
    var disk: Disk
    var root: nat
    var cwd: nat
    ghost var holds: Holdings

    ghost function S(): State
      reads this, slots
    {
      State(slots[..], disk, start)
    }

    /** The cache is sound and its reference counts are exact. */
    ghost predicate Sound()
      reads this, slots
    {
      Inv(S()) && Exact(S(), holds)
    }

    /** Moreover root and cwd are pointers to held slots. */
    ghost predicate Valid()
      reads this, slots
    {
      Anchored(S(), holds, dev, root, cwd)
    }

    /** The table as iget() finds it. */
    ghost function Table(): Room
      reads this
    {
      Slots(holds, slots.Length)
    }

    ghost function Cwd(): nat
      requires Valid()
      reads this, slots
    {
      slots[cwd].ino
    }

    /** init(), mount_root() and init_proc(). */
    constructor (n: nat, dev: int, disk: Disk, start: int)
      requires n > 0 && OnDisk(disk, start, dev, ROOT)
      ensures Valid() && fresh(slots) && slots.Length == n && this.dev == dev && this.start == start
      ensures SameView(Init(n, disk, start), S())
      ensures Cwd() == ROOT && holds == RootAndCwd(dev, ROOT)
    {
      this.slots := new Minode[n](i => Minode(Inode(Other, 0, [], 0), 0, 0, 0, false));
      this.dev, this.disk, this.start := dev, disk, start;
      this.root, this.cwd := 0, 0;
      this.holds := multiset{};
      new;
      ghost var s0 := S();
      assert s0 == Init(n, disk, start);
      NothingHeld(n, disk, start);
      hide Inv, Exact, SameView, OnDisk, Logical, Held, Init;
      var r := Iget(dev, ROOT);
      root := r;
      ghost var s1 := S();
      LaterIsSame(s0, s1);
      HeldFitsAlways(Table(), (dev, ROOT as int));
      var c := Iget(dev, ROOT);
      cwd := c;
      LaterIsSame(s1, S());
      SameViewTrans(s0, s1, S());
    }

    /** iget() */
    method Iget(d: int, n: int) returns (i: int)
      requires Sound() && OnDisk(disk, start, d, n)
      modifies slots, this`holds
      ensures S() == Get(old(S()), d, n).0 && i == Get(old(S()), d, n).1
      ensures i == NIL <==> !Fits(old(Table()), (d, n))
      ensures i == NIL <==> |Held(old(holds) + multiset{(d, n)})| > slots.Length
      ensures i == NIL ==> holds == old(holds)
      ensures i != NIL ==> holds == old(holds) + multiset{(d, n)}
      ensures i != NIL ==> 0 <= i < slots.Length && Is(slots[i], d, n) && slots[i].refCount > 0
      ensures i != NIL ==> slots[i].inode == Logical(old(S()), d, n)
      ensures Sound() && Later(old(S()), S())
    {
      ghost var s0, h0 := S(), holds;
      GetFails(s0, h0, d, n);
      if Get(s0, d, n).1 != NIL { GetIsLater(s0, h0, d, n); }
      var j := 0;
      while j < slots.Length
        invariant 0 <= j <= slots.Length && S() == s0 && holds == h0
        invariant forall k :: 0 <= k < j ==> !Is(slots[k], d, n)
      {
        if slots[j].dev == d && slots[j].ino == n {
          slots[j] := slots[j].(refCount := slots[j].refCount + 1);
          holds := holds + multiset{(d, n)};
          assert S() == Get(s0, d, n).0;
          return j;
        }
        j := j + 1;
      }
      j := 0;
      while j < slots.Length
        invariant 0 <= j <= slots.Length && S() == s0 && holds == h0
        invariant forall k :: 0 <= k < j ==> slots[k].refCount != 0
      {
        if slots[j].refCount == 0 {
          var inode := disk[(d, BlockOf(start, n))].inodes[PlaceOf(n)];
          slots[j] := Minode(inode, d, n, 1, slots[j].dirty);
          holds := holds + multiset{(d, n)};
          assert S() == Get(s0, d, n).0;
          return j;
        }
        j := j + 1;
      }
      return NIL;
    }

    /** The second loop of iget() alone: no slot is free. */
    method NoneFree() returns (full: bool)
      requires Sound()
      ensures full <==> |Held(holds)| >= slots.Length
    {
      FullIff(S(), holds);
      var j := 0;
      while j < slots.Length
        invariant 0 <= j <= slots.Length
        invariant forall k :: 0 <= k < j ==> slots[k].refCount != 0
      {
        if slots[j].refCount == 0 {
          assert S().slots[j].refCount == 0;
          return false;
        }
        j := j + 1;
      }
      full := true;
    }

    /** iput() */
    method Iput(i: int)
      requires Sound() && (i == NIL || (0 <= i < slots.Length && slots[i].refCount > 0))
      modifies slots, this`disk, this`holds
      ensures i == NIL ==> S() == old(S()) && holds == old(holds)
      ensures i != NIL ==> OnDisk(old(disk), start, old(slots[i].dev), old(slots[i].ino))
      ensures i != NIL ==> S() == Put(old(S()), i)
      ensures i != NIL ==> (old(slots[i].dev), old(slots[i].ino)) in old(holds)
      ensures i != NIL ==> holds == old(holds) - multiset{(old(slots[i].dev), old(slots[i].ino))}
      ensures Sound() && Later(old(S()), S())
    {
      if i == NIL { return; }
      ghost var s0 := S();
      PutIsLater(s0, holds, i);
      var m := slots[i].(refCount := slots[i].refCount - 1);
      holds := holds - multiset{(m.dev, m.ino)};
      slots[i] := m;
      if m.refCount > 0 || !m.dirty {
        assert S() == Put(s0, i);
        return;
      }
      var key := (m.dev, BlockOf(start, m.ino));
      var buf := disk[key].inodes;
      disk := disk[key := Inodes(buf[PlaceOf(m.ino) := m.inode])];
      assert S() == Put(s0, i);
    }

    /** The use of a held inode: it is changed and marked dirty. */
    method Change(i: nat, inode: Inode)
      requires Sound() && i < slots.Length && slots[i].refCount > 0
      modifies slots
      ensures S() == Modify(old(S()), i, inode) && Sound()
    {
      ghost var s0 := S();
      ModifyKeepsInv(s0, i, inode);
      slots[i] := slots[i].(inode := inode, dirty := true);
      assert S() == Modify(s0, i, inode);
      forall d, n ensures Holds(S(), d, n) == holds[(d, n)] {
        assert Holds(s0, d, n) == holds[(d, n)];
        if OnDisk(s0.disk, start, d, n) {
          ModifyIsSeen(s0, i, inode, d, n);
        } else {
          NoHolds(s0, d, n);
          NoHolds(S(), d, n);
        }
      }
    }

    /** search() */
    method Search(i: nat, name: Name) returns (w: Walk<nat>)
      requires i < slots.Length
      ensures w == SearchFrom(disk, dev, slots[i].inode, 0, name)
    {
      var inode, k := slots[i].inode, 0;
      while k < inode.blocks
        invariant SearchFrom(disk, dev, inode, k, name) == SearchFrom(disk, dev, inode, 0, name)
      {
        if k >= |inode.block| { return Wild; }
        if inode.block[k] == 0 { return Miss; }
        if !IsData(disk, dev, inode.block[k]) { return Wild; }
        var buf, cp := disk[(dev, inode.block[k])].bytes, 0;
        while cp < BLKSIZE
          invariant 0 <= cp && FindName(buf, cp, name) == FindName(buf, 0, name)
          decreases BLKSIZE - cp
        {
          if !Readable(buf, cp) { return Wild; }
          if NameAt(buf, cp) == name { return Hit(InodeAt(buf, cp)); }
          if RecLenAt(buf, cp) == 0 { return Hang; }
          cp := cp + RecLenAt(buf, cp);
        }
        k := k + 1;
      }
      return Miss;
    }

    /** GetName() */
    method GetName(inode: Inode, ino: nat) returns (w: Walk<Name>)
      ensures w == NameFrom(disk, dev, inode, 0, ino)
    {
      var k := 0;
      while k < inode.blocks
        invariant NameFrom(disk, dev, inode, k, ino) == NameFrom(disk, dev, inode, 0, ino)
      {
        if k >= |inode.block| { return Wild; }
        if inode.block[k] == 0 { return Miss; }
        if !IsData(disk, dev, inode.block[k]) { return Wild; }
        var buf, cp := disk[(dev, inode.block[k])].bytes, 0;
        while cp < BLKSIZE
          invariant 0 <= cp && FindInode(buf, cp, ino) == FindInode(buf, 0, ino)
          decreases BLKSIZE - cp
        {
          if !Readable(buf, cp) { return Wild; }
          if InodeAt(buf, cp) == ino { return Hit(NameAt(buf, cp)); }
          if RecLenAt(buf, cp) == 0 { return Hang; }
          cp := cp + RecLenAt(buf, cp);
        }
        k := k + 1;
      }
      return Miss;
    }

    /** Since s0, where h0 was held, getino() has come to d and holds nothing but its inode. */
    ghost predicate At(s0: State, h0: Holdings, mip: int, d: nat)
      reads this, slots
    {
      && Sound() && Inv(s0) && Exact(s0, h0) && Later(s0, S()) && holds == h0 + multiset{(dev, d as int)}
      && s0.start == start && OnDisk(s0.disk, start, dev, d)
      && 0 <= mip < slots.Length && Is(slots[mip], dev, d) && slots[mip].refCount > 0
      && slots[mip].inode == Logical(s0, dev, d)
    }

    /** Since s0, where h0 was held, getino() holds nothing else, and has come to d as far as the
        disk is concerned. */
    ghost predicate Idle(s0: State, h0: Holdings, d: nat)
      reads this, slots
    {
      && Sound() && Inv(s0) && Exact(s0, h0) && Later(s0, S()) && holds == h0
      && s0.start == start && OnDisk(s0.disk, start, dev, d)
    }

    /** It has called iget() for d: it holds the inode, or has no slot for it. */
    ghost predicate Came(s0: State, h0: Holdings, mip: int, d: nat)
      reads this, slots
    {
      if Fits(Slots(h0, slots.Length), (dev, d as int)) then At(s0, h0, mip, d) else mip == NIL && Idle(s0, h0, d)
    }

    /** iput() of the inode at hand. */
    method Leave(mip: int, ghost s0: State, ghost h0: Holdings, ghost d: nat)
      requires Came(s0, h0, mip, d)
      modifies slots, this`disk, this`holds
      ensures Idle(s0, h0, d)
    {
      ghost var s1, h1 := S(), holds;
      Iput(mip);
      if mip != NIL { LaterTrans(s0, h0, s1, h1, S()); }
    }

    /** iget() of the next inode. */
    method Enter(d: nat, ghost s0: State, ghost h0: Holdings) returns (mip: int)
      requires Idle(s0, h0, d)
      modifies slots, this`holds
      ensures Came(s0, h0, mip, d)
    {
      ghost var s1 := S();
      assert SeenSame(s0, s1, dev, d);
      mip := Iget(dev, d);
      LaterTrans(s0, h0, s1, h0, S());
    }

    /** One name of the path: search() and, when it is found, the step to its inode. */
    method Follow(mip: int, name: Name, ghost s0: State, ghost h0: Holdings, ghost d: nat)
      returns (w: Walk<nat>, next: int)
      requires At(s0, h0, mip, d)
      modifies slots, this`disk, this`holds
      ensures var r := SearchFrom(s0.disk, dev, Logical(s0, dev, d), 0, name);
              w == if r == Hit(0) then Miss else if r.Hit? && !OnDisk(s0.disk, start, dev, r.value) then Wild else r
      ensures w.Hit? ==> Came(s0, h0, next, w.value)
      ensures w.Miss? ==> holds == h0
      ensures Sound() && Later(s0, S()) && h0 <= holds
    {
      w := Search(mip, name);
      SearchKept(s0, S(), dev, slots[mip].inode, 0, name);
      next := NIL;
      if w.Miss? || w == Hit(0) {
        LeaveHeld(mip, s0, h0, d);
        w := Miss;
      } else if w.Hit? {
        assert SeenSame(s0, S(), dev, w.value);
        if OnDisk(disk, start, dev, w.value) {
          LeaveHeld(mip, s0, h0, d);
          next := Enter(w.value, s0, h0);
        } else {
          w := Wild;
        }
      }
    }

    method LeaveHeld(mip: int, ghost s0: State, ghost h0: Holdings, ghost d: nat)
      requires At(s0, h0, mip, d)
      modifies slots, this`disk, this`holds
      ensures Idle(s0, h0, d)
    {
      ghost var s1, h1 := S(), holds;
      Iput(mip);
      LaterTrans(s0, h0, s1, h1, S());
    }

    /** The loop of getino(). */
    method FollowAll(first: int, names: seq<Name>, ghost s0: State, ghost h0: Holdings, d0: nat)
      returns (w: Walk<nat>, mip: int)
      requires Came(s0, h0, first, d0)
      modifies slots, this`disk, this`holds
      ensures w == ResolveWith(s0, dev, Slots(h0, slots.Length), d0, names)
      ensures w.Hit? ==> Came(s0, h0, mip, w.value) && OnDisk(s0.disk, start, dev, w.value)
      ensures w.Hit? ==>
                holds == h0 + if Fits(Slots(h0, slots.Length), (dev, w.value as int)) then multiset{(dev, w.value as int)} else multiset{}
      ensures w.Miss? ==> holds == h0
      ensures Sound() && Later(s0, S()) && h0 <= holds
    {
      var i := 0;
      w, mip := Hit(d0), first;
      ghost var t := Slots(h0, slots.Length);
      assert names[0..] == names;
      hide Later, Sound, SearchFrom, Held;
      while i < |names|
        invariant 0 <= i <= |names| && w.Hit? && Came(s0, h0, mip, w.value)
        invariant ResolveWith(s0, dev, t, d0, names) == ResolveWith(s0, dev, t, w.value, names[i..])
      {
        assert names[i..][0] == names[i] && names[i..][1..] == names[i + 1..];
        if mip == NIL {
          // search(NULL)
          w := Wild;
          return;
        }
        w, mip := Follow(mip, names[i], s0, h0, w.value);
        if !w.Hit? { return; }
        i := i + 1;
      }
      assert names[i..] == [];
    }

    /** getino(): a walk from the root or from cwd that never loses a held slot. `Hang`: a call
        that does not return. `Wild`: a NULL pointer, or an inode that is not on the disk. */
    method GetIno(path: seq<nat>, readme: bool) returns (w: Walk<nat>)
      requires Valid()
      modifies slots, this`disk, this`holds
      ensures OnDisk(old(disk), start, dev, ROOT) && OnDisk(old(disk), start, dev, old(Cwd()))
      ensures w == GetinoWith(old(S()), dev, old(Table()), old(Cwd()), path)
      ensures w.Hit? ==> OnDisk(old(disk), start, dev, w.value)
      ensures w.Hit? || w.Miss? ==>
                holds == old(holds) + if readme then multiset{} else LeftByGetino(dev, old(Table()), old(Cwd()), path, w)
      ensures old(holds) <= holds
      ensures Later(old(S()), S()) && Valid() && Cwd() == old(Cwd())
    {
      ghost var s0, h0, c0 := S(), holds, Cwd();
      AnchoredIsOnDisk(s0, h0, dev, root, cwd);
      AnchoredHas(s0, h0, dev, root, cwd);
      if path == [SLASH] { return Hit(ROOT); }
      var d, names := if Absolute(path) then ROOT else slots[cwd].ino, Tokens(path, SLASH);
      HeldFitsAlways(Table(), (dev, d as int));
      hide Fits, Held, Tokens, OnDisk, Logical, Inv, Exact, Later, Anchored, At, Came, ResolveWith;
      var mip := Enter(d, s0, h0);
      w, mip := FollowAll(mip, names, s0, h0, d);
      if readme && w.Hit? { Leave(mip, s0, h0, w.value); }
      StillAnchored(s0, h0, S(), holds, dev, root, cwd);
      if names == [] { w := Miss; }
    }

    /** ChangeDir(): as ReadMe asks, the new cwd takes over the place of the old one; as written
        the reference that getino() left stands in for it and the old one stays. */
    method ChangeDir(path: seq<nat>, readme: bool) returns (w: Walk<nat>)
      requires Valid()
      requires readme ==> RootAndCwd(dev, Cwd()) <= holds
      modifies slots, this`disk, this`holds, this`cwd
      ensures OnDisk(old(disk), start, dev, ROOT) && OnDisk(old(disk), start, dev, old(Cwd()))
      ensures w == if path == [] then Hit(old(Cwd())) else CommandWalk(old(S()), dev, old(Table()), old(Cwd()), path)
      ensures Valid() && SameView(old(S()), S()) && Cwd() == CdTarget(old(S()), dev, old(Table()), old(Cwd()), path)
      ensures readme && (w.Hit? || w.Miss?) ==>
                holds == old(holds) - multiset{(dev, old(Cwd()) as int)} + multiset{(dev, Cwd() as int)}
      ensures !readme && path == [] ==> holds == old(holds)
      ensures !readme && path != [] && (w.Hit? || w.Miss?) ==>
                holds == old(holds) + LeftByGetino(dev, old(Table()), old(Cwd()), path, w)
    {
      AnchoredIsOnDisk(S(), holds, dev, root, cwd);
      if path == [] { return Hit(slots[cwd].ino); }
      w := ChangeTo(path, readme);
    }

    method ChangeTo(path: seq<nat>, readme: bool) returns (w: Walk<nat>)
      requires Valid() && path != []
      requires readme ==> RootAndCwd(dev, Cwd()) <= holds
      modifies slots, this`disk, this`holds, this`cwd
      ensures OnDisk(old(disk), start, dev, ROOT) && OnDisk(old(disk), start, dev, old(Cwd()))
      ensures w == CommandWalk(old(S()), dev, old(Table()), old(Cwd()), path)
      ensures Valid() && SameView(old(S()), S()) && Cwd() == CdTarget(old(S()), dev, old(Table()), old(Cwd()), path)
      ensures readme && (w.Hit? || w.Miss?) ==>
                holds == old(holds) - multiset{(dev, old(Cwd()) as int)} + multiset{(dev, Cwd() as int)}
      ensures !readme && (w.Hit? || w.Miss?) ==> holds == old(holds) + LeftByGetino(dev, old(Table()), old(Cwd()), path, w)
    {
      hide Inv, Exact, SameView, Later, GetinoWith, OnDisk, Logical, Anchored, Held, Tokens, LeftByGetino, Fits;
      ghost var s0, h0, c, t := S(), holds, Cwd(), Table();
      AnchoredHas(s0, h0, dev, root, cwd);
      w := GetIno(path, readme);
      ghost var s1 := S();
      LaterIsSame(s0, s1);
      if !w.Hit? {
        LeftNothing(s0, dev, t, c, path);
        return;
      }
      HitLeaves(s0, dev, t, c, path);
      HeldFitsAlways(t, (dev, ROOT as int));
      Seen(s0, s1, dev, w.value);
      var gone := GoTo(w.value, readme, h0);
      SameViewTrans(s0, s1, S());
      SwapHold(h0, (dev, c as int), (dev, w.value as int));
      if !gone { w := Wild; }
    }

    /** The rest of ChangeDir(), from its iget() on: false if that has no slot. */
    method GoTo(n: nat, readme: bool, ghost h0: Holdings) returns (gone: bool)
      requires Valid() && n > 0 && OnDisk(disk, start, dev, n)
      requires var fits := Fits(Slots(h0, slots.Length), (dev, n as int));
               && (holds == h0 || (fits && holds == h0 + multiset{(dev, n as int)}))
               && (!readme && fits && Logical(S(), dev, n).mode.Dir? ==> (dev, n as int) in holds)
      requires readme ==> RootAndCwd(dev, Cwd()) <= holds
      modifies slots, this`disk, this`holds, this`cwd
      ensures Valid() && SameView(old(S()), S())
      ensures gone <==> Fits(Slots(h0, slots.Length), (dev, n as int))
      ensures !gone ==> Cwd() == old(Cwd())
      ensures gone ==>
              var dir := Logical(old(S()), dev, n).mode.Dir?;
              && Cwd() == (if dir then n else old(Cwd()))
              && holds == if readme && dir
                          then old(holds) + multiset{(dev, n as int)} - multiset{(dev, old(Cwd()) as int)}
                          else old(holds)
    {
      ghost var s1, h1 := S(), holds;
      AnchoredHas(s1, h1, dev, root, cwd);
      var mip := Load(n, h0);
      hide Inv, Exact, SameView, Logical, OnDisk, Held, Fits, Anchored;
      LaterIsSame(s1, S());
      if mip == NIL { return false; }
      ghost var s2 := S();
      assert holds - multiset{(dev, n as int)} == h1;
      Settle(mip, readme, n);
      SameViewTrans(s1, s2, S());
      gone := true;
    }

    /** The iget() of a command behind getino(). */
    method Load(n: nat, ghost h0: Holdings) returns (mip: int)
      requires Valid() && OnDisk(disk, start, dev, n)
      requires holds == h0 || (Fits(Slots(h0, slots.Length), (dev, n as int)) && holds == h0 + multiset{(dev, n as int)})
      modifies slots, this`holds
      ensures Valid() && Later(old(S()), S()) && Cwd() == old(Cwd())
      ensures mip == NIL <==> !Fits(Slots(h0, slots.Length), (dev, n as int))
      ensures mip == NIL ==> holds == old(holds)
      ensures mip != NIL ==>
              && holds == old(holds) + multiset{(dev, n as int)}
              && 0 <= mip < slots.Length && Is(slots[mip], dev, n) && slots[mip].refCount > 0
              && slots[mip].inode == Logical(old(S()), dev, n)
    {
      ghost var s1, h1 := S(), holds;
      mip := Iget(dev, n);
      StillAnchored(s1, h1, S(), holds, dev, root, cwd);
    }

    /** The end of ChangeDir(), with the inode n in hand. */
    method Settle(mip: int, readme: bool, ghost n: nat)
      requires Valid() && 0 <= mip < slots.Length && Is(slots[mip], dev, n) && n > 0
      requires slots[mip].refCount > 0
      requires var rest := holds - multiset{(dev, n as int)};
               && (dev, n as int) in holds && (dev, ROOT as int) in rest && (dev, Cwd() as int) in rest
               && (if readme then RootAndCwd(dev, Cwd()) <= rest
                   else slots[mip].inode.mode.Dir? ==> (dev, n as int) in rest)
      modifies slots, this`disk, this`holds, this`cwd
      ensures Valid() && SameView(old(S()), S())
      ensures Cwd() == if old(slots[mip].inode.mode.Dir?) then n else old(Cwd())
      ensures holds == old(holds) - if readme && old(slots[mip].inode.mode.Dir?) then multiset{(dev, old(Cwd()) as int)}
                                    else multiset{(dev, n as int)}
    {
      ghost var s0 := S();
      AnchoredIsOnDisk(s0, holds, dev, root, cwd);
      hide Inv, Exact, SameView, OnDisk, Put;
      if slots[mip].inode.mode.Dir? {
        if readme {
          Iput(cwd);
          cwd := mip;
        } else {
          cwd := mip;
          Iput(mip);
        }
      } else {
        Iput(mip);
      }
      LaterIsSame(s0, S());
      assert HeldStays(s0, S(), root) && HeldStays(s0, S(), mip) && HeldStays(s0, S(), cwd);
    }

    /** Pwd(), which prints the path.  `Wild`: iget() found no slot for an ancestor, and R_Pwd()
        goes on with its NULL pointer. */
    method Pwd(readme: bool, ghost v: Volume) returns (path: Walk<seq<nat>>)
      requires Valid() && Tree(v) && Stored(v, S(), dev) && Cwd() in v.dirs
      modifies slots, this`disk, this`holds
      ensures path == if |Held(old(holds) + Ancestors(v, dev, old(Cwd())))| <= slots.Length
                      then Hit(PwdPath(v, old(Cwd()))) else Wild
      ensures path.Hit? ==> holds == old(holds) + if readme then multiset{} else Ancestors(v, dev, old(Cwd()))
      ensures Valid() && SameView(old(S()), S()) && Cwd() == old(Cwd())
    {
      hide Tree, Stored, PwdPath, Ancestors, Held, Exact, Inv, SameView;
      ghost var whole := PwdPath(v, Cwd());
      path := RPwd([], cwd, readme, v, Cwd());
      assert whole + [] == whole;
    }

    /** R_Pwd(): the path of d in front of `path`. */
    method RPwd(path: seq<nat>, wd: nat, readme: bool, ghost v: Volume, ghost d: nat) returns (path': Walk<seq<nat>>)
      requires Valid() && Tree(v) && Stored(v, S(), dev) && d in v.dirs
      requires wd < slots.Length && Is(slots[wd], dev, d) && (dev, d as int) in holds
      modifies slots, this`disk, this`holds
      ensures path' == if |Held(old(holds) + Ancestors(v, dev, d))| <= slots.Length then Hit(PwdPath(v, d) + path) else Wild
      ensures path'.Hit? ==> holds == old(holds) + if readme then multiset{} else Ancestors(v, dev, d)
      ensures Valid() && Later(old(S()), S()) && Cwd() == old(Cwd())
      decreases v.depth[d]
    {
      hide *;
      PwdStart(wd, v, d);
      ValidIs();
      if wd == root {
        assert [] + path == path;
        return Hit(path);
      }
      ghost var s0, h0, p := S(), holds, Parent(v, d);
      var mip, front := StepUp(wd, v, d);
      if mip == NIL { return Wild; }
      ghost var s1, h1 := S(), holds;
      ValidIs();
      path' := RPwd(front + path, mip, readme, v, p);
      Regroup(PwdPath(v, p), front, path);
      AnchoredTrans(s0, h0, s1, h1, S(), dev, root, cwd);
      if readme && path'.Hit? { DropParent(mip, p, s0, h0, s1); }
    }

    lemma {:induction false} ValidIs()
      ensures Valid() <==> Anchored(S(), holds, dev, root, cwd)
      ensures Valid() ==> cwd < |S().slots| && Cwd() == S().slots[cwd].ino
      ensures S().slots == slots[..]
    {
    }

    /** Equal pointers are equal inodes, so the walk up stops at the root and only there. */
    lemma {:induction false} PwdStart(wd: nat, v: Volume, d: nat)
      requires Valid() && Tree(v) && Stored(v, S(), dev) && d in v.dirs
      requires wd < slots.Length && Is(slots[wd], dev, d) && (dev, d as int) in holds
      ensures wd == root <==> d == ROOT
      ensures Later(S(), S()) && slots[wd].refCount > 0
      ensures d == ROOT ==> PwdPath(v, d) == [] && Ancestors(v, dev, d) == multiset{}
      ensures d == ROOT ==> |Held(holds + Ancestors(v, dev, d))| <= slots.Length
      ensures SearchFrom(disk, dev, slots[wd].inode, 0, DOTDOT) == Hit(Parent(v, d))
    {
      SlotIsHeld(S(), holds, root);
      SlotIsHeld(S(), holds, wd);
      LaterRefl(S());
      PointerIsInode(S(), wd, root);
      FindIs(S(), wd);
      HeldFits(S(), holds);
      assert holds + multiset{} == holds;
      DotDot(v, S(), dev, d);
    }

    /** From d to its parent, and the name of d there behind a slash; NIL when there is no slot for it. */
    method StepUp(wd: nat, ghost v: Volume, ghost d: nat) returns (mip: int, front: seq<nat>)
      requires Valid() && Tree(v) && Stored(v, S(), dev) && d in v.dirs && d != ROOT
      requires wd < slots.Length && Is(slots[wd], dev, d) && (dev, d as int) in holds
      modifies slots, this`holds
      ensures Valid() && Later(old(S()), S()) && Cwd() == old(Cwd()) && Stored(v, S(), dev)
      ensures mip == NIL ==> holds == old(holds) && |Held(holds + Ancestors(v, dev, d))| > slots.Length
      ensures mip != NIL ==>
              var p := Parent(v, d);
              && p in v.dirs && p in v.depth && d in v.depth && v.depth[p] < v.depth[d] && p > 0
              && PwdPath(v, d) == PwdPath(v, p) + front
              && holds == old(holds) + multiset{(dev, p as int)} && old(holds) <= holds
              && holds + Ancestors(v, dev, p) == old(holds) + Ancestors(v, dev, d)
              && 0 <= mip < slots.Length && Is(slots[mip], dev, p) && slots[mip].refCount > 0
    {
      PwdStart(wd, v, d);
      ghost var s0 := S();
      var w := Search(wd, DOTDOT);
      mip := LoadParent(w.value, v, d);
      if mip == NIL { return NIL, []; }
      assert HeldStays(s0, S(), wd);
      ParentName(v, S(), dev, d);
      var found := GetName(slots[mip].inode, slots[wd].ino);
      front := [SLASH] + found.value;
      PwdPathStep(v, d);
      Regroup(PwdPath(v, Parent(v, d)), [SLASH], found.value);
    }

    method LoadParent(p: nat, ghost v: Volume, ghost d: nat) returns (mip: int)
      requires Valid() && Tree(v) && Stored(v, S(), dev) && d in v.dirs && d != ROOT && p == Parent(v, d)
      modifies slots, this`holds
      ensures Valid() && Later(old(S()), S()) && Cwd() == old(Cwd()) && Stored(v, S(), dev)
      ensures p in v.dirs && p in v.depth && d in v.depth && v.depth[p] < v.depth[d] && p > 0
      ensures Ancestors(v, dev, d) == multiset{(dev, p as int)} + Ancestors(v, dev, p)
      ensures mip == NIL ==> holds == old(holds) && |Held(holds + Ancestors(v, dev, d))| > slots.Length
      ensures mip != NIL ==> holds == old(holds) + multiset{(dev, p as int)}
      ensures mip != NIL ==> 0 <= mip < slots.Length && Is(slots[mip], dev, p) && slots[mip].refCount > 0
      ensures mip != NIL ==> slots[mip].inode == Logical(S(), dev, p)
    {
      ghost var s0, h0 := S(), holds;
      ParentFirst(v, s0, dev, h0, d);
      hide Tree, Stored, Ancestors, Held, Fits, Parent;
      mip := Iget(dev, p);
      StillAnchored(s0, h0, S(), holds, dev, root, cwd);
      StoredKept(v, s0, S(), dev);
      if mip != NIL { FindIs(S(), mip); }
    }

    method DropParent(mip: int, ghost p: nat, ghost s0: State, ghost h0: Holdings, ghost s1: State)
      requires Valid() && Anchored(s0, h0, dev, root, cwd) && Later(s0, S()) && p > 0
      requires 0 <= mip < slots.Length && holds == h0 + multiset{(dev, p as int)}
      requires Later(s1, S()) && mip < |s1.slots| && Is(s1.slots[mip], dev, p) && s1.slots[mip].refCount > 0
      modifies slots, this`disk, this`holds
      ensures Valid() && Later(s0, S()) && Cwd() == s0.slots[cwd].ino && holds == h0
    {
      ghost var s2, h2 := S(), holds;
      assert HeldStays(s1, s2, mip);
      SlotIsHeld(s2, h2, mip);
      Iput(mip);
      LaterTrans(s0, h0, s2, h2, S());
      StillAnchored(s0, h0, S(), holds, dev, root, cwd);
    }

    /** The inner loop of ls_dir(), on a block that entries fill.  `Wild`: it calls iget() for
        an inode that is not on the disk, and a slot is free. */
    method ListBlock(buf: seq<nat>, ghost es: seq<Entry>, ghost s0: State, ghost h0: Holdings, ghost d: nat)
      returns (w: Walk<seq<(Name, Inode)>>)
      requires Idle(s0, h0, d)
      requires ValidEntries(es) && buf == Encode(es) && |buf| == BLKSIZE
      modifies slots, this`disk, this`holds
      ensures w == Listing(s0, dev, Slots(h0, slots.Length), es)
      ensures Idle(s0, h0, d)
    {
      var cp, out := 0, [];
      ghost var j, t := 0, Slots(h0, slots.Length);
      assert es[0..] == es && buf[0..] == buf;
      BehindNothing(Listing(s0, dev, t, es));
      hide Idle, Listing, ValidEntries, AtEntry, Fits;
      while cp < BLKSIZE
        invariant 0 <= cp <= |buf| && j <= |es| && AtEntry(buf, cp, es, j)
        invariant Behind(out, Listing(s0, dev, t, es[j..])) == Listing(s0, dev, t, es)
        invariant Idle(s0, h0, d)
        decreases |es| - j
      {
        NextEntry(buf, cp, es, j);
        ListingStep(s0, dev, t, es, j, out);
        var line := Peek(InodeAt(buf, cp), s0, h0, d);
        if line.Wild? { return Wild; }
        if line.Hit? { out := out + [(NameAt(buf, cp), line.value)]; }
        cp := cp + RecLenAt(buf, cp);
        j := j + 1;
      }
      NextEntry(buf, cp, es, j);
      assert es[j..] == [];
      NoMoreToList(s0, dev, t, out);
      w := Hit(out);
    }

    /** iget(), a look at the inode and iput(); `Miss`: there is no slot. */
    method Peek(n: nat, ghost s0: State, ghost h0: Holdings, ghost d: nat) returns (w: Walk<Inode>)
      requires Idle(s0, h0, d)
      modifies slots, this`disk, this`holds
      ensures w == if !Fits(Slots(h0, slots.Length), (dev, n as int)) then Miss
                   else if OnDisk(s0.disk, s0.start, dev, n) then Hit(Logical(s0, dev, n)) else Wild
      ensures Idle(s0, h0, d)
    {
      OnDiskKept(s0, S(), dev, n);
      if OnDisk(disk, start, dev, n) {
        var mip := Enter(n, s0, h0);
        if mip == NIL { return Miss; }
        w := Hit(slots[mip].inode);
        LeaveHeld(mip, s0, h0, n);
      } else {
        NotHeld(S(), holds, dev, n);
        var full := NoneFree();
        w := if full then Miss else Wild;
      }
    }

    /** ls_dir() */
    method ListDir(i: nat, ghost v: Volume, ghost d: nat) returns (w: Walk<seq<(Name, Inode)>>)
      requires Valid() && d in v.dirs && DirStored(v, S(), dev, d)
      requires i < slots.Length && Is(slots[i], dev, d) && d > 0
      modifies slots, this`disk, this`holds
      ensures w == Listing(old(S()), dev, old(Table()), EntriesOf(v, d))
      ensures Valid() && Later(old(S()), S()) && Cwd() == old(Cwd()) && holds == old(holds)
    {
      ghost var s0, h0, t, ess := S(), holds, Table(), v.dirs[d];
      AnchoredIsOnDisk(s0, h0, dev, root, cwd);
      FindIs(s0, i);
      var inode, k, out := slots[i].inode, 0, [];
      assert ess[0..] == ess;
      BehindNothing(Listing(s0, dev, t, Flat(ess)));
      assert Idle(s0, h0, d);
      hide Sound, Inv, Exact, OnDisk, Logical, Held, Listing, Encode, Fits;
      while k < inode.blocks
        invariant 0 <= k <= |ess|
        invariant Behind(out, Listing(s0, dev, t, Flat(ess[k..]))) == Listing(s0, dev, t, Flat(ess))
        invariant Idle(s0, h0, d)
        decreases |ess| - k
      {
        if k < |ess| { assert BlockHolds(s0.disk, dev, inode, k, ess[k]); }
        if inode.block[k] == 0 { break; }
        ListingBlock(s0, dev, t, ess, k, out, Listing(s0, dev, t, Flat(ess)));
        w := ListBlock(disk[(dev, inode.block[k])].bytes, ess[k], s0, h0, d);
        if !w.Hit? {
          StillAnchored(s0, h0, S(), holds, dev, root, cwd);
          return;
        }
        out := out + w.value;
        k := k + 1;
      }
      StillAnchored(s0, h0, S(), holds, dev, root, cwd);
      assert ess[k..] == [];
      NoMoreToList(s0, dev, t, out);
      w := Hit(out);
    }

    /** ListFile() */
    method ListFile(path: seq<nat>, readme: bool, ghost v: Volume) returns (out: Output)
      requires Valid() && Shown(v, S(), dev) && Cwd() in v.dirs && PathOk(v, S(), dev, Cwd(), path)
      modifies slots, this`disk, this`holds
      ensures out == LsOutput(v, old(S()), dev, old(Table()), old(Cwd()), path)
      ensures Valid() && Cwd() == old(Cwd()) && SameView(old(S()), S())
      ensures readme && !out.Dead? ==> holds == old(holds)
      ensures !readme && !out.Dead? ==> holds == old(holds) + LeftBy(v, old(S()), dev, old(Table()), old(Cwd()), path)
    {
      ghost var s0, h0, c0, t := S(), holds, Cwd(), Table();
      GetinoGoes(v, s0, dev, c0, path);
      CommandComes(v, s0, dev, t, c0, path);
      if path == [] {
        assert DirStored(v, s0, dev, c0);
        var entries := ListDir(cwd, v, c0);
        return Shows(entries);
      }
      hide Inv, Exact, SameView, Goes, Comes, Shown, GetinoWith, Logical, OnDisk, Held, Anchored, Listing, Fits, Tokens;
      AnchoredHas(s0, h0, dev, root, cwd);
      HeldFitsAlways(t, (dev, ROOT as int));
      var w := GetIno(path, readme);
      LaterIsSame(s0, S());
      if w.Hit? {
        HitLeaves(s0, dev, t, c0, path);
        out := ListInode(path, w.value, v, s0, h0);
      } else {
        out := Returned(w, Silent);
      }
    }

    /** The rest of ListFile(), from its iget() on. */
    method ListInode(path: seq<nat>, n: nat, ghost v: Volume, ghost s0: State, ghost h0: Holdings) returns (out: Output)
      requires Valid() && n > 0 && s0.start == start && OnDisk(s0.disk, start, dev, n)
      requires holds == h0 || (Fits(Slots(h0, slots.Length), (dev, n as int)) && holds == h0 + multiset{(dev, n as int)})
      requires Shown(v, s0, dev) && SameView(s0, S())
      requires Fits(Slots(h0, slots.Length), (dev, n as int)) ==> (Logical(s0, dev, n).mode.Dir? <==> n in v.dirs)
      modifies slots, this`disk, this`holds
      ensures Valid() && Cwd() == old(Cwd()) && SameView(s0, S()) && (!out.Dead? ==> holds == old(holds))
      ensures out == if Fits(Slots(h0, slots.Length), (dev, n as int))
                     then InodeOutput(v, s0, dev, Slots(h0 + multiset{(dev, n as int)}, slots.Length), path, n)
                     else Dead
    {
      hide Inv, Exact, SameView, Later, Shown, Logical, OnDisk, Held, Anchored, Listing, InodeOutput, Fits;
      ghost var s1, h1, k := S(), holds, (dev, n as int);
      AnchoredHas(s1, h1, dev, root, cwd);
      Seen(s0, s1, dev, n);
      var mip := Load(n, h0);
      ghost var s2 := S();
      LaterIsSame(s1, s2);
      SameViewTrans(s0, s1, s2);
      if mip == NIL { return Dead; }
      ShownKept(v, s0, s2, dev);
      SameRoomTwice(h0, holds, k, slots.Length);
      out := ListLoaded(path, mip, n, v, s0, Slots(h0 + multiset{k}, slots.Length));
      if out.Dead? { return; }
      ghost var s3 := S();
      StillThere(s2, s3, mip);
      Drop(mip, n, h1);
      SameViewTrans(s0, s3, S());
    }

    method ListLoaded(path: seq<nat>, mip: nat, n: nat, ghost v: Volume, ghost s0: State, ghost t: Room) returns (out: Output)
      requires Valid() && n > 0 && s0.start == start && SameRoom(t, Table())
      requires mip < slots.Length && Is(slots[mip], dev, n) && OnDisk(s0.disk, start, dev, n)
      requires slots[mip].inode == Logical(s0, dev, n)
      requires Shown(v, s0, dev) && SameView(s0, S()) && Shown(v, S(), dev)
      requires Logical(s0, dev, n).mode.Dir? <==> n in v.dirs
      modifies slots, this`disk, this`holds
      ensures Valid() && Cwd() == old(Cwd()) && SameView(s0, S()) && Later(old(S()), S()) && holds == old(holds)
      ensures out == InodeOutput(v, s0, dev, t, path, n)
    {
      ghost var s2 := S();
      LaterRefl(s2);
      out := Silent;
      if slots[mip].inode.mode.Dir? {
        assert DirStored(v, s2, dev, n);
        ListingKept(s0, s2, dev, t, Table(), EntriesOf(v, n));
        hide Inv, Exact, SameView, Shown, Logical, OnDisk, Held, Anchored, Fits;
        var entries := ListDir(mip, v, n);
        SameViewTrans(s0, s2, S());
        out := Shows(entries);
      } else if slots[mip].inode.mode.Reg? {
        out := Listed([(path, slots[mip].inode)]);
      }
    }

    /** The last iput() of a command. */
    method Drop(mip: int, ghost n: nat, ghost h: Holdings)
      requires Valid() && n > 0 && holds == h + multiset{(dev, n as int)}
      requires (dev, ROOT as int) in h && (dev, Cwd() as int) in h
      requires 0 <= mip < slots.Length && Is(slots[mip], dev, n)
      modifies slots, this`disk, this`holds
      ensures Valid() && Cwd() == old(Cwd()) && SameView(old(S()), S()) && holds == h
    {
      ghost var s1 := S();
      AnchoredIsOnDisk(s1, holds, dev, root, cwd);
      SlotIsHeld(s1, holds, mip);
      Iput(mip);
      assert HeldStays(s1, S(), root) && HeldStays(s1, S(), cwd);
    }

    /** The commands of main(), with the references of either form: the outputs, the last cwd and
        all that is held are those of the session on the tree, for any table and whatever was held
        before.  A `Dead` command is the last. */
    method Session(cmds: seq<Command>, readme: bool, ghost v: Volume) returns (out: seq<Output>)
      requires Valid() && Shown(v, S(), dev) && Cwd() in v.dirs && SessionOk(v, S(), dev, readme, Table(), Cwd(), cmds)
      requires readme ==> RootAndCwd(dev, Cwd()) <= holds
      modifies slots, this`disk, this`holds, this`cwd
      ensures Valid() && SameView(old(S()), S())
      ensures var r := MountCommands.Session(v, old(S()), dev, readme, old(Table()), old(Cwd()), cmds);
              out == r.out && Cwd() == r.cwd && (!Died(out) ==> Table() == r.room)
    {
      hide *;
      ghost var s0 := S();
      SameViewRefl(s0);
      ShownIsStored(v, s0, dev);
      SessionStart(v, s0, dev, readme, Table(), Cwd(), cmds);
      out := RunAll(cmds, readme, v, s0, MountCommands.Session(v, s0, dev, readme, Table(), Cwd(), cmds));
    }

    /** The loop of main(). */
    method RunAll(cmds: seq<Command>, readme: bool, ghost v: Volume, ghost s0: State, ghost all: Result)
      returns (out: seq<Output>)
      requires Valid() && Shown(v, s0, dev) && SameView(s0, S()) && Tree(v)
      requires Continues(v, s0, dev, readme, all, [], Table(), Cwd(), cmds)
      requires readme ==> RootAndCwd(dev, Cwd()) <= holds
      modifies slots, this`disk, this`holds, this`cwd
      ensures Valid() && SameView(s0, S())
      ensures out == all.out && Cwd() == all.cwd && (!Died(out) ==> Table() == all.room)
    {
      hide *;
      var input := cmds;
      out := [];
      NoneDied();
      while input != []
        invariant Valid() && SameView(s0, S()) && !Died(out)
        invariant readme ==> RootAndCwd(dev, Cwd()) <= holds
        invariant Continues(v, s0, dev, readme, all, out, Table(), Cwd(), input)
        decreases |input|
      {
        SessionStep(v, s0, dev, readme, all, out, Table(), Cwd(), input);
        ghost var s1 := S();
        ShownKept(v, s0, s1, dev);
        CommandKept(v, s0, s1, dev, readme, Table(), Cwd(), input[0]);
        TableIs();
        if readme { KeepsBoth(v, s1, dev, Table(), Cwd(), input[0]); }
        var shown := RunCommand(input[0], readme, v);
        TableIs();
        SameViewTrans(s0, s1, S());
        LastDied(out, shown);
        out, input := out + [shown], input[1..];
        if shown.Dead? { return; }
      }
      SessionStep(v, s0, dev, readme, all, out, Table(), Cwd(), input);
    }

    /** One command of main(). */
    method RunCommand(cmd: Command, readme: bool, ghost v: Volume) returns (out: Output)
      requires Valid() && Shown(v, S(), dev) && Cwd() in v.dirs && CommandOk(v, S(), dev, Cwd(), cmd) && Tree(v)
      requires readme ==> RootAndCwd(dev, Cwd()) <= holds
      modifies slots, this`disk, this`holds, this`cwd
      ensures Valid() && SameView(old(S()), S())
      ensures out == Output1(v, old(S()), dev, old(Table()), old(Cwd()), cmd)
      ensures Cwd() == NextCwd(v, old(S()), dev, old(Table()), old(Cwd()), cmd)
      ensures !out.Dead? ==> Table() == RoomAfter(v, old(S()), dev, readme, old(Table()), old(Cwd()), cmd)
    {
      ghost var s1, c, h, n := S(), Cwd(), holds, slots.Length;
      AnchoredHas(s1, h, dev, root, cwd);
      hide *;
      ShownIsStored(v, s1, dev);
      TableIs();
      match cmd {
      case Ls(path) =>
        LsMeans(v, s1, dev, readme, h, n, c, path);
        out := ListFile(path, readme, v);
      case Cd(path) =>
        CdMeans(v, s1, dev, readme, h, n, c, path);
        var w := ChangeDir(path, readme);
        out := Returned(w, Silent);
      case Pwd =>
        PwdMeans(v, s1, dev, readme, h, n, c);
        var path := Pwd(readme, v);
        out := if path.Hit? then Path(path.value) else Dead;
      }
      TableIs();
    }

    lemma {:induction false} TableIs()
      ensures Table() == Slots(holds, slots.Length)
      ensures Valid() ==> cwd < slots.Length && Cwd() == slots[cwd].ino
    {
    }

    /** Quit(), as written: one iput() for each held slot. */
    method Quit()
      requires Sound()
      modifies slots, this`disk, this`holds
      ensures S() == InodeCache.Quit(old(S())) && Sound()
    {
      ghost var s0 := S();
      var i := 0;
      while i < slots.Length
        invariant 0 <= i <= slots.Length && Sound()
        invariant QuitFrom(S(), i) == InodeCache.Quit(s0)
      {
        if slots[i].refCount > 0 { Iput(i); }
        i := i + 1;
      }
    }
  }
}
