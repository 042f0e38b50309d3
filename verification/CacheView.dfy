/** What iget() and iput() leave unchanged for directory walks, and how they move the holds. */
module CacheView {
  import opened Directory
  import opened InodeCache
  import opened DirWalk

  type Holdings = multiset<(int, int)>

  /** The inodes that somebody holds. */
  function Held(holds: Holdings): set<(int, int)> {
    set k | k in holds
  }

  lemma {:induction false} NothingHeld(slots: nat, disk: Disk, start: int)
    ensures Inv(Init(slots, disk, start)) && Exact(Init(slots, disk, start), multiset{}) && Held(multiset{}) == {}
  {
    InitKeepsInv(slots, disk, start);
    forall d, n ensures Holds(Init(slots, disk, start), d, n) == 0 { }
  }

  /** An inode that is not on the disk is never held. */
  lemma {:induction false} NoHolds(s: State, d: int, n: int)
    requires Inv(s) && !OnDisk(s.disk, s.start, d, n)
    ensures Holds(s, d, n) == 0
  {
    var i := Find(s.slots, d, n);
    if i < |s.slots| { assert SlotOk(s, i); }
  }

  lemma {:induction false} SlotHolds(s: State, holds: Holdings, i: nat)
    requires Inv(s) && Exact(s, holds) && i < |s.slots|
    ensures Loaded(s.slots[i]) ==> s.slots[i].refCount == holds[(s.slots[i].dev, s.slots[i].ino)]
    ensures !Loaded(s.slots[i]) ==> s.slots[i].refCount == 0
  {
    assert SlotOk(s, i);
    if Loaded(s.slots[i]) {
      FindIs(s, i);
      assert Holds(s, s.slots[i].dev, s.slots[i].ino) == s.slots[i].refCount;
    }
  }

  /** What is held is in a slot with a positive count. */
  lemma {:induction false} HeldSlot(s: State, holds: Holdings, d: int, n: int)
    requires Exact(s, holds) && (d, n) in holds
    ensures var i := Find(s.slots, d, n); i < |s.slots| && s.slots[i].refCount > 0
  {
    assert Holds(s, d, n) == holds[(d, n)];
  }

  // ---------------------------------------------------------------- room

  function SlotKeys(slots: seq<Minode>): set<(int, int)> {
    set i: nat | i < |slots| :: (slots[i].dev, slots[i].ino)
  }

  lemma {:induction false} SlotKeysCount(slots: seq<Minode>)
    requires forall i: nat, j: nat :: i < j < |slots| ==> !Is(slots[i], slots[j].dev, slots[j].ino)
    ensures |SlotKeys(slots)| == |slots|
  {
    if slots != [] {
      var front, last := slots[..|slots| - 1], slots[|slots| - 1];
      SlotKeysCount(front);
      assert slots == front + [last];
      assert SlotKeys(slots) == SlotKeys(front) + {(last.dev, last.ino)};
    }
  }

  lemma {:induction false} NoMore(a: set<(int, int)>, b: set<(int, int)>)
    requires a <= b
    ensures |a| <= |b| && (|a| == |b| ==> a == b)
  {
    assert b == a + (b - a);
  }

  /** Each held inode is in a slot. */
  lemma {:induction false} HeldAreInSlots(s: State, holds: Holdings)
    requires Inv(s) && Exact(s, holds)
    ensures Held(holds) <= SlotKeys(s.slots)
  {
    forall k | k in holds ensures k in SlotKeys(s.slots) { HeldSlot(s, holds, k.0, k.1); }
  }

  lemma {:induction false} SlotKeysBound(slots: seq<Minode>)
    ensures |SlotKeys(slots)| <= |slots|
  {
    if slots != [] {
      var front, last := slots[..|slots| - 1], slots[|slots| - 1];
      SlotKeysBound(front);
      assert slots == front + [last];
      assert SlotKeys(slots) == SlotKeys(front) + {(last.dev, last.ino)};
    }
  }

  lemma {:induction false} HeldFits(s: State, holds: Holdings)
    requires Inv(s) && Exact(s, holds)
    ensures |Held(holds)| <= |s.slots|
  {
    HeldAreInSlots(s, holds);
    SlotKeysBound(s.slots);
    NoMore(Held(holds), SlotKeys(s.slots));
  }

  /** As many inodes are held as there are slots exactly when no slot is free. */
  lemma {:induction false} FullIff(s: State, holds: Holdings)
    requires Inv(s) && Exact(s, holds)
    ensures |Held(holds)| >= |s.slots| <==> forall i :: 0 <= i < |s.slots| ==> s.slots[i].refCount != 0
  {
    if j: nat :| j < |s.slots| && s.slots[j].refCount == 0 {
      var rest := s.slots[..j] + s.slots[j + 1..];
      forall k | k in Held(holds) ensures k in SlotKeys(rest) {
        HeldSlot(s, holds, k.0, k.1);
        var f := Find(s.slots, k.0, k.1);
        assert f != j;
        assert rest[if f < j then f else f - 1] == s.slots[f];
      }
      SlotKeysBound(rest);
      NoMore(Held(holds), SlotKeys(rest));
    } else {
      forall a: nat, b: nat | a < b < |s.slots| ensures !Is(s.slots[a], s.slots[b].dev, s.slots[b].ino) {
        SlotHolds(s, holds, a);
        SlotHolds(s, holds, b);
        assert Distinct(s.slots, a, b);
      }
      SlotKeysCount(s.slots);
      forall k | k in SlotKeys(s.slots) ensures k in Held(holds) {
        var a: nat :| a < |s.slots| && k == (s.slots[a].dev, s.slots[a].ino);
        SlotHolds(s, holds, a);
      }
      NoMore(SlotKeys(s.slots), Held(holds));
    }
  }

  /** iget() fails exactly when the inodes held by somebody, with the new one, are more than
      the slots. */
  lemma {:induction false} GetFailsIffFull(s: State, holds: Holdings, d: int, n: int)
    requires Inv(s) && Exact(s, holds) && OnDisk(s.disk, s.start, d, n)
    ensures Get(s, d, n).1 == NIL <==> |Held(holds + multiset{(d, n)})| > |s.slots|
  {
    var all := Held(holds + multiset{(d, n)});
    assert all == Held(holds) + {(d, n)};
    GetFailsIff(s, d, n);
    FullIff(s, holds);
    HeldAreInSlots(s, holds);
    if Find(s.slots, d, n) < |s.slots| {
      NoMore(all, SlotKeys(s.slots));
      SlotKeysBound(s.slots);
    } else {
      assert (d, n) !in SlotKeys(s.slots);
      assert |all| == |Held(holds)| + 1;
      HeldFits(s, holds);
    }
  }

  lemma {:induction false} HeldAdds(holds: Holdings, k: (int, int))
    ensures Held(holds + multiset{k}) == Held(holds) + {k}
    ensures |Held(holds + multiset{k})| == |Held(holds)| + if k in holds then 0 else 1
  {
    assert Held(holds + multiset{k}) == Held(holds) + {k};
    assert k in holds ==> Held(holds) + {k} == Held(holds);
    assert k in Held(holds) <==> k in holds;
  }

  // ---------------------------------------------------------------- one step

  lemma {:induction false} GetIsLater(s: State, holds: Holdings, d: int, n: int)
    requires Inv(s) && Exact(s, holds) && OnDisk(s.disk, s.start, d, n) && Get(s, d, n).1 != NIL
    ensures var (s', r) := Get(s, d, n);
            && Inv(s') && Later(s, s') && Exact(s', holds + multiset{(d, n)})
            && 0 <= r < |s'.slots| && Is(s'.slots[r], d, n) && s'.slots[r].refCount > 0
            && s'.slots[r].inode == Logical(s, d, n)
  {
    var (s', r) := Get(s, d, n);
    GetKeepsInv(s, d, n);
    GetIsTransparent(s, d, n, d, n);
    FindIs(s', r);
    assert SlotOk(s, r);
    forall a, b ensures SeenSame(s, s', a, b) {
      if OnDisk(s.disk, s.start, a, b) { GetIsTransparent(s, d, n, a, b); }
    }
    forall a, b ensures Holds(s', a, b) == (holds + multiset{(d, n)})[(a, b)] {
      assert Holds(s, a, b) == holds[(a, b)];
      if OnDisk(s.disk, s.start, a, b) {
        GetIsTransparent(s, d, n, a, b);
      } else {
        NoHolds(s, a, b);
        NoHolds(s', a, b);
      }
    }
    forall i: nat ensures HeldStays(s, s', i) { }
  }

  lemma {:induction false} PutIsLater(s: State, holds: Holdings, i: nat)
    requires Inv(s) && Exact(s, holds) && i < |s.slots| && s.slots[i].refCount > 0
    ensures OnDisk(s.disk, s.start, s.slots[i].dev, s.slots[i].ino)
    ensures Inv(Put(s, i)) && Later(s, Put(s, i))
    ensures (s.slots[i].dev, s.slots[i].ino) in holds
    ensures Exact(Put(s, i), holds - multiset{(s.slots[i].dev, s.slots[i].ino)})
  {
    PutKeepsInv(s, i);
    SlotHolds(s, holds, i);
    assert SlotOk(s, i);
    var m, s' := s.slots[i], Put(s, i);
    forall a, b ensures SeenSame(s, s', a, b) {
      if OnDisk(s.disk, s.start, a, b) { PutIsTransparent(s, i, a, b); }
    }
    forall a, b | OnDisk(s'.disk, s'.start, a, b) ensures OnDisk(s.disk, s.start, a, b) {
      WriteChangesOne(s.disk, s.start, m.dev, m.ino, m.inode, a, b);
    }
    forall a, b ensures Holds(s', a, b) == (holds - multiset{(m.dev, m.ino)})[(a, b)] {
      assert Holds(s, a, b) == holds[(a, b)];
      if OnDisk(s.disk, s.start, a, b) {
        PutIsTransparent(s, i, a, b);
      } else {
        NoHolds(s, a, b);
        WriteChangesOne(s.disk, s.start, m.dev, m.ino, m.inode, a, b);
        NoHolds(s', a, b);
      }
    }
    forall j: nat ensures HeldStays(s, s', j) { }
  }

  // ---------------------------------------------------------------- several steps

  lemma {:induction false} Seen(s: State, s': State, d: int, n: int)
    requires SameView(s, s') && OnDisk(s.disk, s.start, d, n)
    ensures OnDisk(s'.disk, s'.start, d, n) && Logical(s', d, n) == Logical(s, d, n)
  {
    assert SeenSame(s, s', d, n);
  }

  lemma {:induction false} LaterIsSame(s: State, s': State)
    requires Later(s, s')
    ensures SameView(s, s')
  {
  }

  lemma {:induction false} StillThere(s: State, s': State, i: nat)
    requires Later(s, s') && i < |s.slots| && s.slots[i].refCount > 0
    ensures |s'.slots| == |s.slots| && Is(s'.slots[i], s.slots[i].dev, s.slots[i].ino)
  {
    assert HeldStays(s, s', i);
  }

  lemma {:induction false} SameViewRefl(s: State)
    ensures SameView(s, s)
  {
    forall d, n ensures SeenSame(s, s, d, n) { }
  }

  lemma {:induction false} OnDiskKept(s: State, s': State, d: int, n: int)
    requires Later(s, s')
    ensures OnDisk(s'.disk, s'.start, d, n) <==> OnDisk(s.disk, s.start, d, n)
  {
    assert SeenSame(s, s', d, n);
  }

  lemma {:induction false} SameViewTrans(s: State, s1: State, s2: State)
    requires SameView(s, s1) && SameView(s1, s2)
    ensures SameView(s, s2)
  {
    forall d, n ensures SeenSame(s, s2, d, n) {
      assert SeenSame(s, s1, d, n) && SeenSame(s1, s2, d, n);
    }
  }

  /** What was held all the time is still where it was. */
  lemma {:induction false} LaterTrans(s: State, h: Holdings, s1: State, h1: Holdings, s2: State)
    requires Inv(s) && Inv(s1) && Exact(s, h) && Exact(s1, h1) && h <= h1
    requires Later(s, s1) && Later(s1, s2)
    ensures Later(s, s2)
  {
    SameViewTrans(s, s1, s2);
    forall i: nat ensures HeldStays(s, s2, i) {
      assert HeldStays(s, s1, i) && HeldStays(s1, s2, i);
      if i < |s.slots| && s.slots[i].refCount > 0 {
        SlotHolds(s, h, i);
        SlotHolds(s1, h1, i);
      }
    }
  }

  lemma {:induction false} SearchKept(s: State, s': State, dev: int, inode: Inode, k: nat, name: Name)
    requires SameView(s, s')
    ensures SearchFrom(s'.disk, dev, inode, k, name) == SearchFrom(s.disk, dev, inode, k, name)
    decreases inode.blocks - k
  {
    if k < inode.blocks { SearchKept(s, s', dev, inode, k + 1, name); }
  }

  lemma {:induction false} ResolveKept(s: State, s': State, dev: int, d: nat, names: seq<Name>)
    requires SameView(s, s') && OnDisk(s.disk, s.start, dev, d)
    ensures OnDisk(s'.disk, s'.start, dev, d) && ResolveIn(s', dev, d, names) == ResolveIn(s, dev, d, names)
    decreases |names|
  {
    assert SeenSame(s, s', dev, d);
    if names != [] {
      SearchKept(s, s', dev, Logical(s, dev, d), 0, names[0]);
      var w := SearchFrom(s.disk, dev, Logical(s, dev, d), 0, names[0]);
      if w.Hit? {
        assert SeenSame(s, s', dev, w.value);
        if OnDisk(s.disk, s.start, dev, w.value) { ResolveKept(s, s', dev, w.value, names[1..]); }
      }
    }
  }

  lemma {:induction false} DirHoldsKept(s: State, s': State, dev: int, inode: Inode, ess: seq<seq<Entry>>)
    requires SameView(s, s') && DirHolds(s.disk, dev, inode, ess)
    ensures DirHolds(s'.disk, dev, inode, ess)
  {
    forall k: nat | k < |ess| ensures BlockHolds(s'.disk, dev, inode, k, ess[k]) {
      assert BlockHolds(s.disk, dev, inode, k, ess[k]);
    }
  }

  lemma {:induction false} StoredKept(v: Volume, s: State, s': State, dev: int)
    requires SameView(s, s') && Stored(v, s, dev)
    ensures Stored(v, s', dev)
  {
    forall d | d in v.dirs ensures DirStored(v, s', dev, d) {
      assert DirStored(v, s, dev, d) && SeenSame(s, s', dev, d);
      DirHoldsKept(s, s', dev, Logical(s, dev, d), v.dirs[d]);
      forall e | e in EntriesOf(v, d) ensures EntryOk(v, s', dev, e) {
        assert EntryOk(v, s, dev, e) && SeenSame(s, s', dev, e.ino);
      }
    }
  }

  // ---------------------------------------------------------------- pointers to slots

  /** The counts are exact, and root and cwd point at slots that they hold. */
  ghost predicate Anchored(s: State, holds: Holdings, dev: int, root: nat, cwd: nat) {
    && Inv(s) && Exact(s, holds) && root < |s.slots| && cwd < |s.slots|
    && Is(s.slots[root], dev, ROOT) && (dev, ROOT as int) in holds
    && s.slots[cwd].dev == dev && s.slots[cwd].ino > 0 && (dev, s.slots[cwd].ino) in holds
  }

  lemma {:induction false} AnchoredHas(s: State, holds: Holdings, dev: int, root: nat, cwd: nat)
    requires Anchored(s, holds, dev, root, cwd)
    ensures cwd < |s.slots| && (dev, ROOT as int) in holds && (dev, s.slots[cwd].ino) in holds
  {
  }

  /** A slot whose inode is held is not up for eviction. */
  lemma {:induction false} SlotIsHeld(s: State, holds: Holdings, i: nat)
    requires Inv(s) && Exact(s, holds) && i < |s.slots| && (s.slots[i].dev, s.slots[i].ino) in holds
    ensures s.slots[i].refCount > 0 && OnDisk(s.disk, s.start, s.slots[i].dev, s.slots[i].ino)
  {
    HeldSlot(s, holds, s.slots[i].dev, s.slots[i].ino);
    if !OnDisk(s.disk, s.start, s.slots[i].dev, s.slots[i].ino) { NoHolds(s, s.slots[i].dev, s.slots[i].ino); }
    SlotHolds(s, holds, i);
    assert SlotOk(s, i);
  }

  lemma {:induction false} AnchoredIsOnDisk(s: State, holds: Holdings, dev: int, root: nat, cwd: nat)
    requires Anchored(s, holds, dev, root, cwd)
    ensures OnDisk(s.disk, s.start, dev, ROOT) && OnDisk(s.disk, s.start, dev, s.slots[cwd].ino)
    ensures s.slots[root].refCount > 0 && s.slots[cwd].refCount > 0
    ensures Later(s, s)
  {
    SlotIsHeld(s, holds, root);
    SlotIsHeld(s, holds, cwd);
    LaterRefl(s);
  }

  lemma {:induction false} LaterRefl(s: State)
    ensures Later(s, s)
  {
    forall d, n ensures SeenSame(s, s, d, n) { }
    forall i: nat ensures HeldStays(s, s, i) { }
  }

  /** The cwd slot is never evicted: as long as the old holds last, the pointers stay good. */
  lemma {:induction false} StillAnchored(s: State, h: Holdings, s': State, h': Holdings, dev: int, root: nat, cwd: nat)
    requires Anchored(s, h, dev, root, cwd) && Inv(s') && Exact(s', h') && Later(s, s') && h <= h'
    ensures Anchored(s', h', dev, root, cwd) && s'.slots[cwd].ino == s.slots[cwd].ino
  {
    AnchoredIsOnDisk(s, h, dev, root, cwd);
    assert HeldStays(s, s', root) && HeldStays(s, s', cwd);
  }

  /** Steps between which the old holds last. */
  lemma {:induction false} AnchoredTrans(s: State, h: Holdings, s1: State, h1: Holdings, s2: State, dev: int, root: nat, cwd: nat)
    requires Anchored(s, h, dev, root, cwd) && Anchored(s1, h1, dev, root, cwd) && h <= h1
    requires Later(s, s1) && Later(s1, s2)
    ensures Later(s, s2)
  {
    LaterTrans(s, h, s1, h1, s2);
  }
}
