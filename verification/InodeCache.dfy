/** The in-memory inodes of Lab5/Code/util.c as values: iget(), iput() and the flush of Quit()
    (Lab5/Code/Commands.c), over a disk whose inode blocks hold eight inodes each. */
module InodeCache {

  datatype Mode = Dir | Reg | Other

  /** ext2_inode: the fields that the code reads, and the remaining ones as one value. */
  datatype Inode = Inode(mode: Mode, blocks: nat, block: seq<nat>, rest: int)

  datatype Block = Inodes(inodes: seq<Inode>) | Data(bytes: seq<nat>)

  type Disk = map<(int, int), Block>

  datatype Minode = Minode(inode: Inode, dev: int, ino: int, refCount: int, dirty: bool)

  /** `start` is inode_start. */
  datatype State = State(slots: seq<Minode>, disk: Disk, start: int)

  const NIL := -1

  // ---------------------------------------------------------------- the disk

  /** The block and the place in it of an inode number, which counts from 1. */
  function BlockOf(start: int, ino: int): int {
    (ino - 1) / 8 + start
  }

  function PlaceOf(ino: int): nat {
    (ino - 1) % 8
  }

  predicate OnDisk(disk: Disk, start: int, dev: int, ino: int) {
    && ino >= 1
    && (dev, BlockOf(start, ino)) in disk
    && disk[(dev, BlockOf(start, ino))].Inodes? && |disk[(dev, BlockOf(start, ino))].inodes| == 8
  }

  function Read(disk: Disk, start: int, dev: int, ino: int): Inode
    requires OnDisk(disk, start, dev, ino)
  {
    disk[(dev, BlockOf(start, ino))].inodes[PlaceOf(ino)]
  }

  /** The write-back of iput(): the block is read, one inode is replaced, the block is written. */
  function Write(disk: Disk, start: int, dev: int, ino: int, inode: Inode): Disk
    requires OnDisk(disk, start, dev, ino)
  {
    var key := (dev, BlockOf(start, ino));
    disk[key := Inodes(disk[key].inodes[PlaceOf(ino) := inode])]
  }

  /** A write-back changes that inode and leaves the other seven of the block, every other
      inode and every data block alone. */
  lemma {:induction false} WriteChangesOne(disk: Disk, start: int, dev: int, ino: int, inode: Inode, d: int, n: int)
    requires OnDisk(disk, start, dev, ino)
    ensures var disk' := Write(disk, start, dev, ino, inode);
            && (OnDisk(disk', start, d, n) <==> OnDisk(disk, start, d, n))
            && (OnDisk(disk, start, d, n) ==>
                  Read(disk', start, d, n) == if (d, n) == (dev, ino) then inode else Read(disk, start, d, n))
            && (forall b :: b in disk && disk[b].Data? ==> b in disk' && disk'[b] == disk[b])
  {
    if BlockOf(start, n) == BlockOf(start, ino) && PlaceOf(n) == PlaceOf(ino) {
      assert n - 1 == 8 * ((n - 1) / 8) + (n - 1) % 8;
      assert ino - 1 == 8 * ((ino - 1) / 8) + (ino - 1) % 8;
    }
  }

  /** Block `start` + b is an inode block and has a place j. */
  predicate IsThere(disk: Disk, start: int, dev: int, b: nat, j: nat) {
    j < 8 && (dev, start + b) in disk && disk[(dev, start + b)].Inodes? && |disk[(dev, start + b)].inodes| == 8
  }

  /** The inode table: inode 8 * b + j + 1 is the j-th of block `start` + b. */
  lemma {:induction false} InodeIsAt(disk: Disk, start: int, dev: int, b: nat, j: nat)
    requires IsThere(disk, start, dev, b, j)
    ensures OnDisk(disk, start, dev, 8 * b + j + 1)
    ensures Read(disk, start, dev, 8 * b + j + 1) == disk[(dev, start + b)].inodes[j]
  {
    assert (8 * b + j) / 8 == b && (8 * b + j) % 8 == j;
  }

  /** A write-back changes exactly that place of exactly that block. */
  lemma {:induction false} WriteIsAt(disk: Disk, start: int, dev: int, b: nat, j: nat, inode: Inode)
    requires IsThere(disk, start, dev, b, j)
    ensures OnDisk(disk, start, dev, 8 * b + j + 1)
    ensures var disk' := Write(disk, start, dev, 8 * b + j + 1, inode);
            && disk'.Keys == disk.Keys
            && disk'[(dev, start + b)] == Inodes(disk[(dev, start + b)].inodes[j := inode])
            && forall key :: key in disk && key != (dev, start + b) ==> disk'[key] == disk[key]
  {
    assert (8 * b + j) / 8 == b && (8 * b + j) % 8 == j;
  }

  /** Every inode on the disk is one of these. */
  lemma {:induction false} InodesAreThere(disk: Disk, start: int, dev: int, ino: int)
    ensures OnDisk(disk, start, dev, ino) <==>
            exists b: nat, j: nat :: IsThere(disk, start, dev, b, j) && ino == 8 * b + j + 1
  {
    if OnDisk(disk, start, dev, ino) {
      var b, j := (ino - 1) / 8, (ino - 1) % 8;
      assert ino - 1 == 8 * b + j;
      assert IsThere(disk, start, dev, b, j);
    }
    if b: nat, j: nat :| IsThere(disk, start, dev, b, j) && ino == 8 * b + j + 1 {
      InodeIsAt(disk, start, dev, b, j);
    }
  }

  // ---------------------------------------------------------------- the slots

  predicate Is(m: Minode, dev: int, ino: int) {
    m.dev == dev && m.ino == ino
  }

  /** The first loop of iget(): the slot of (dev, ino), or |slots|. */
  function Find(slots: seq<Minode>, dev: int, ino: int): (i: nat)
    ensures i <= |slots| && (i < |slots| ==> Is(slots[i], dev, ino))
    ensures forall j :: 0 <= j < i ==> !Is(slots[j], dev, ino)
  {
    if slots == [] || Is(slots[0], dev, ino) then 0 else 1 + Find(slots[1..], dev, ino)
  }

  /** The second loop: the first slot that nobody holds, or |slots|. */
  function Unheld(slots: seq<Minode>): (i: nat)
    ensures i <= |slots| && (i < |slots| ==> slots[i].refCount == 0)
    ensures forall j :: 0 <= j < i ==> slots[j].refCount != 0
  {
    if slots == [] || slots[0].refCount == 0 then 0 else 1 + Unheld(slots[1..])
  }

  /** iget(): the slot, or NIL when every slot is held. */
  function Get(s: State, dev: int, ino: int): (r: (State, int))
    requires OnDisk(s.disk, s.start, dev, ino)
  {
    var i, j := Find(s.slots, dev, ino), Unheld(s.slots);
    if i < |s.slots| then
      (s.(slots := s.slots[i := s.slots[i].(refCount := s.slots[i].refCount + 1)]), i)
    else if j < |s.slots| then
      // the dirty flag of the slot is left as it is
      (s.(slots := s.slots[j := Minode(Read(s.disk, s.start, dev, ino), dev, ino, 1, s.slots[j].dirty)]), j)
    else (s, NIL)
  }

  /** iput() of a slot. */
  function Put(s: State, i: nat): (s': State)
    requires i < |s.slots|
    requires OnDisk(s.disk, s.start, s.slots[i].dev, s.slots[i].ino)
  {
    var m := s.slots[i].(refCount := s.slots[i].refCount - 1);
    var s1 := s.(slots := s.slots[i := m]);
    if m.refCount > 0 || !m.dirty then s1
    else s1.(disk := Write(s.disk, s.start, m.dev, m.ino, m.inode))
  }

  /** The use of an inode between iget() and iput(): it is changed and marked dirty. */
  function Modify(s: State, i: nat, inode: Inode): State
    requires i < |s.slots|
  {
    s.(slots := s.slots[i := s.slots[i].(inode := inode, dirty := true)])
  }

  /** iget() of inode 8 * b + j + 1: in its slot, if it has one, only the count changes; otherwise
      the first slot that nobody holds gets place j of block `start` + b, with a count of 1 and
      its dirty flag as it was; with none, nothing changes. */
  lemma {:induction false} GetDoes(s: State, dev: int, b: nat, j: nat, i: nat)
    requires IsThere(s.disk, s.start, dev, b, j) && i <= |s.slots|
    requires forall l :: 0 <= l < i ==> !Is(s.slots[l], dev, 8 * b + j + 1)
    ensures OnDisk(s.disk, s.start, dev, 8 * b + j + 1)
    ensures var (s', r) := Get(s, dev, 8 * b + j + 1);
            i < |s.slots| && Is(s.slots[i], dev, 8 * b + j + 1) ==>
              r == i && s' == s.(slots := s.slots[i := s.slots[i].(refCount := s.slots[i].refCount + 1)])
    ensures var (s', r) := Get(s, dev, 8 * b + j + 1);
            i == |s.slots| ==>
              if forall l :: 0 <= l < |s.slots| ==> s.slots[l].refCount != 0 then r == NIL && s' == s
              else
                && 0 <= r < |s.slots| && s.slots[r].refCount == 0
                && (forall l :: 0 <= l < r ==> s.slots[l].refCount != 0)
                && s' == s.(slots := s.slots[r := Minode(s.disk[(dev, s.start + b)].inodes[j], dev, 8 * b + j + 1, 1, s.slots[r].dirty)])
  {
    InodeIsAt(s.disk, s.start, dev, b, j);
    var f := Find(s.slots, dev, 8 * b + j + 1);
  }

  /** iput() of inode 8 * b + j + 1: one count less; the inode goes to place j of block `start` + b
      exactly when that was the last one and the slot is dirty. */
  lemma {:induction false} PutDoes(s: State, i: nat, b: nat, j: nat)
    requires i < |s.slots| && IsThere(s.disk, s.start, s.slots[i].dev, b, j) && s.slots[i].ino == 8 * b + j + 1
    ensures OnDisk(s.disk, s.start, s.slots[i].dev, s.slots[i].ino)
    ensures var s', m := Put(s, i), s.slots[i];
            var key := (m.dev, s.start + b);
            && s' == s.(slots := s.slots[i := m.(refCount := m.refCount - 1)], disk := s'.disk)
            && s'.disk.Keys == s.disk.Keys
            && (forall k :: k in s.disk && k != key ==> s'.disk[k] == s.disk[k])
            && s'.disk[key] == if m.refCount <= 1 && m.dirty then Inodes(s.disk[key].inodes[j := m.inode]) else s.disk[key]
  {
    InodeIsAt(s.disk, s.start, s.slots[i].dev, b, j);
    WriteIsAt(s.disk, s.start, s.slots[i].dev, b, j, s.slots[i].inode);
  }

  // ---------------------------------------------------------------- the invariant

  predicate Loaded(m: Minode) {
    m.ino != 0
  }

  /** What holds of a slot: a loaded one that is not held, or not dirty, equals the disk. */
  predicate SlotOk(s: State, i: nat)
    requires i < |s.slots|
  {
    var m := s.slots[i];
    && m.refCount >= 0
    && (!Loaded(m) ==> m.refCount == 0)
    && (Loaded(m) ==>
          && OnDisk(s.disk, s.start, m.dev, m.ino)
          && (m.refCount == 0 || !m.dirty ==> m.inode == Read(s.disk, s.start, m.dev, m.ino)))
  }

  predicate Distinct(slots: seq<Minode>, i: nat, j: nat)
    requires i < |slots| && j < |slots|
  {
    Loaded(slots[i]) && Loaded(slots[j]) && Is(slots[i], slots[j].dev, slots[j].ino) ==> i == j
  }

  predicate Inv(s: State) {
    && (forall i: nat {:trigger SlotOk(s, i)} :: i < |s.slots| ==> SlotOk(s, i))
    && (forall i: nat, j: nat {:trigger Distinct(s.slots, i, j)} :: i < |s.slots| && j < |s.slots| ==> Distinct(s.slots, i, j))
  }

  /** The inode as every user sees it: the copy in memory if there is one, else the disk. */
  function Logical(s: State, dev: int, ino: int): Inode
    requires OnDisk(s.disk, s.start, dev, ino)
  {
    var i := Find(s.slots, dev, ino);
    if i < |s.slots| then s.slots[i].inode else Read(s.disk, s.start, dev, ino)
  }

  /** The holds on (dev, ino): the reference count of its slot. */
  function Holds(s: State, dev: int, ino: int): int {
    var i := Find(s.slots, dev, ino);
    if i < |s.slots| then s.slots[i].refCount else 0
  }

  lemma {:induction false} FindIs(s: State, i: nat)
    requires Inv(s) && i < |s.slots| && Loaded(s.slots[i])
    ensures Find(s.slots, s.slots[i].dev, s.slots[i].ino) == i
  {
    assert Distinct(s.slots, Find(s.slots, s.slots[i].dev, s.slots[i].ino), i);
  }

  /** Two slots for the same inode are one slot, so equal pointers mean equal inodes. */
  lemma {:induction false} PointerIsInode(s: State, i: nat, j: nat)
    requires Inv(s) && i < |s.slots| && j < |s.slots| && Loaded(s.slots[i]) && Loaded(s.slots[j])
    ensures i == j <==> (s.slots[i].dev, s.slots[i].ino) == (s.slots[j].dev, s.slots[j].ino)
  {
    assert Distinct(s.slots, i, j);
  }

  // ---------------------------------------------------------------- iget()

  /** iget() fails exactly when the inode is in no slot and every slot is held. */
  lemma {:induction false} GetFailsIff(s: State, dev: int, ino: int)
    requires OnDisk(s.disk, s.start, dev, ino)
    ensures Get(s, dev, ino).1 == NIL <==>
              && (forall i :: 0 <= i < |s.slots| ==> !Is(s.slots[i], dev, ino))
              && (forall i :: 0 <= i < |s.slots| ==> s.slots[i].refCount != 0)
  {
  }

  lemma {:induction false} GetKeepsInv(s: State, dev: int, ino: int)
    requires Inv(s) && OnDisk(s.disk, s.start, dev, ino)
    ensures Inv(Get(s, dev, ino).0)
  {
    var (s', r) := Get(s, dev, ino);
    var i := Find(s.slots, dev, ino);
    if i < |s.slots| { assert SlotOk(s, i); }
    forall j: nat | j < |s'.slots| ensures SlotOk(s', j) { assert SlotOk(s, j); }
    forall j: nat, l: nat | j < |s'.slots| && l < |s'.slots| ensures Distinct(s'.slots, j, l) {
      assert Distinct(s.slots, j, l);
    }
  }

  /** iget(), hit or miss, shows nobody a different inode and adds one hold on (dev, ino);
      evicting another inode is invisible. */
  lemma {:induction false} GetIsTransparent(s: State, dev: int, ino: int, d: int, n: int)
    requires Inv(s) && OnDisk(s.disk, s.start, dev, ino) && OnDisk(s.disk, s.start, d, n)
    requires Get(s, dev, ino).1 != NIL
    ensures var (s', r) := Get(s, dev, ino);
            && s'.disk == s.disk && s'.start == s.start
            && 0 <= r < |s'.slots| && Is(s'.slots[r], dev, ino)
            && Logical(s', d, n) == Logical(s, d, n)
            && Holds(s', d, n) == Holds(s, d, n) + if (d, n) == (dev, ino) then 1 else 0
  {
    var (s', r) := Get(s, dev, ino);
    GetKeepsInv(s, dev, ino);
    assert SlotOk(s, r);
    FindAfter(s, s', r, d, n);
    if Loaded(s.slots[r]) { FindIs(s, r); }
    FindIs(s', r);
  }

  /** When one slot changes, the others are found where they were. */
  lemma {:induction false} FindAfter(s: State, s': State, r: nat, d: int, n: int)
    requires Inv(s) && Inv(s') && |s.slots| == |s'.slots| && r < |s.slots| && n >= 1
    requires forall j :: 0 <= j < |s.slots| && j != r ==> s'.slots[j] == s.slots[j]
    ensures var i, i' := Find(s.slots, d, n), Find(s'.slots, d, n);
            && (Is(s'.slots[r], d, n) ==> i' == r)
            && (!Is(s'.slots[r], d, n) && i != r ==> i' == i)
            && (!Is(s'.slots[r], d, n) && i == r ==> i' == |s.slots|)
  {
    var i, i' := Find(s.slots, d, n), Find(s'.slots, d, n);
    if i' < |s.slots| { assert Distinct(s'.slots, i', r); }
    if i < |s.slots| && i' < |s.slots| {
      assert Distinct(s.slots, i, i');
      assert Distinct(s'.slots, i, i');
    }
  }

  // ---------------------------------------------------------------- iput()

  lemma {:induction false} PutKeepsInv(s: State, i: nat)
    requires Inv(s) && i < |s.slots| && s.slots[i].refCount > 0
    ensures OnDisk(s.disk, s.start, s.slots[i].dev, s.slots[i].ino)
    ensures Inv(Put(s, i))
  {
    assert SlotOk(s, i);
    var m, s' := s.slots[i], Put(s, i);
    forall j: nat | j < |s'.slots| ensures SlotOk(s', j) {
      assert SlotOk(s, j) && Distinct(s.slots, i, j);
      WriteChangesOne(s.disk, s.start, m.dev, m.ino, m.inode, s.slots[j].dev, s.slots[j].ino);
    }
    forall j: nat, l: nat | j < |s'.slots| && l < |s'.slots| ensures Distinct(s'.slots, j, l) {
      assert Distinct(s.slots, j, l);
    }
  }

  /** iput() of a held slot shows nobody a different inode and takes one hold away, whether or
      not it writes the inode back. */
  lemma {:induction false} PutIsTransparent(s: State, i: nat, d: int, n: int)
    requires Inv(s) && i < |s.slots| && s.slots[i].refCount > 0
    requires OnDisk(s.disk, s.start, s.slots[i].dev, s.slots[i].ino) && OnDisk(s.disk, s.start, d, n)
    ensures var s' := Put(s, i);
            && s'.start == s.start && OnDisk(s'.disk, s.start, d, n)
            && Logical(s', d, n) == Logical(s, d, n)
            && Holds(s', d, n) == Holds(s, d, n) - if Is(s.slots[i], d, n) then 1 else 0
  {
    var m, s' := s.slots[i], Put(s, i);
    PutKeepsInv(s, i);
    assert SlotOk(s, i);
    WriteChangesOne(s.disk, s.start, m.dev, m.ino, m.inode, d, n);
    FindAfter(s, s', i, d, n);
    FindIs(s, i);
  }

  // ---------------------------------------------------------------- changing an inode

  lemma {:induction false} ModifyKeepsInv(s: State, i: nat, inode: Inode)
    requires Inv(s) && i < |s.slots| && s.slots[i].refCount > 0
    ensures Inv(Modify(s, i, inode))
  {
    var s' := Modify(s, i, inode);
    assert SlotOk(s, i);
    forall j: nat | j < |s'.slots| ensures SlotOk(s', j) { assert SlotOk(s, j); }
    forall j: nat, l: nat | j < |s'.slots| && l < |s'.slots| ensures Distinct(s'.slots, j, l) {
      assert Distinct(s.slots, j, l);
    }
  }

  lemma {:induction false} ModifyIsSeen(s: State, i: nat, inode: Inode, d: int, n: int)
    requires Inv(s) && i < |s.slots| && s.slots[i].refCount > 0 && OnDisk(s.disk, s.start, d, n)
    ensures var s' := Modify(s, i, inode);
            && Logical(s', d, n) == (if Is(s.slots[i], d, n) then inode else Logical(s, d, n))
            && Holds(s', d, n) == Holds(s, d, n)
  {
    ModifyKeepsInv(s, i, inode);
    assert SlotOk(s, i);
    FindAfter(s, Modify(s, i, inode), i, d, n);
    FindIs(s, i);
  }

  // ---------------------------------------------------------------- every run

  /** The operations of the users of the cache; a slot is named by its inode. */
  datatype Op = DoGet(dev: int, ino: int) | DoPut(dev: int, ino: int) | DoModify(dev: int, ino: int, inode: Inode)

  /** An inode is put or changed only while it is held. */
  predicate Allowed(s: State, op: Op) {
    && OnDisk(s.disk, s.start, op.dev, op.ino)
    && (!op.DoGet? ==> Holds(s, op.dev, op.ino) > 0)
  }

  function Step(s: State, op: Op): State
    requires Allowed(s, op)
  {
    match op
    case DoGet(dev, ino) => Get(s, dev, ino).0
    case DoPut(dev, ino) => Put(s, Find(s.slots, dev, ino))
    case DoModify(dev, ino, inode) => Modify(s, Find(s.slots, dev, ino), inode)
  }

  predicate ValidRun(s: State, ops: seq<Op>)
    decreases |ops|
  {
    ops == [] || (Allowed(s, ops[0]) && ValidRun(Step(s, ops[0]), ops[1..]))
  }

  function Exec(s: State, ops: seq<Op>): State
    requires ValidRun(s, ops)
    decreases |ops|
  {
    if ops == [] then s else Exec(Step(s, ops[0]), ops[1..])
  }

  /** The plain disk: only the changes matter, and the last one of an inode wins. */
  function Plain(inode: Inode, dev: int, ino: int, ops: seq<Op>): Inode
    decreases |ops|
  {
    if ops == [] then inode
    else Plain(if ops[0].DoModify? && (ops[0].dev, ops[0].ino) == (dev, ino) then ops[0].inode else inode, dev, ino, ops[1..])
  }

  lemma {:induction false} StepRefines(s: State, op: Op, dev: int, ino: int)
    requires Inv(s) && Allowed(s, op) && OnDisk(s.disk, s.start, dev, ino)
    ensures var s' := Step(s, op);
            && Inv(s') && s'.start == s.start && OnDisk(s'.disk, s'.start, dev, ino)
            && Logical(s', dev, ino) == Plain(Logical(s, dev, ino), dev, ino, [op])
  {
    assert Plain(Logical(s, dev, ino), dev, ino, [op]) ==
           if op.DoModify? && (op.dev, op.ino) == (dev, ino) then op.inode else Logical(s, dev, ino) by {
      assert [op][1..] == [];
    }
    match op
    case DoGet(d, n) =>
      GetKeepsInv(s, d, n);
      if Get(s, d, n).1 != NIL { GetIsTransparent(s, d, n, dev, ino); }
    case DoPut(d, n) =>
      PutKeepsInv(s, Find(s.slots, d, n));
      PutIsTransparent(s, Find(s.slots, d, n), dev, ino);
    case DoModify(d, n, inode) =>
      ModifyKeepsInv(s, Find(s.slots, d, n), inode);
      ModifyIsSeen(s, Find(s.slots, d, n), inode, dev, ino);
  }

  /** The cache is transparent: after any run, whatever was cached, evicted or written back on
      the way, every inode is seen as on a plain disk with the same changes. */
  lemma {:induction false} CacheIsTransparent(s: State, ops: seq<Op>, dev: int, ino: int)
    requires Inv(s) && ValidRun(s, ops) && OnDisk(s.disk, s.start, dev, ino)
    ensures var s' := Exec(s, ops);
            && Inv(s') && s'.start == s.start && OnDisk(s'.disk, s'.start, dev, ino)
            && Logical(s', dev, ino) == Plain(Logical(s, dev, ino), dev, ino, ops)
    decreases |ops|
  {
    if ops != [] {
      StepRefines(s, ops[0], dev, ino);
      assert [ops[0]][1..] == [];
      CacheIsTransparent(Step(s, ops[0]), ops[1..], dev, ino);
    }
  }

  /** init(): every slot is empty. */
  function Init(slots: nat, disk: Disk, start: int): (s: State)
  {
    State(seq(slots, i => Minode(Inode(Other, 0, [], 0), 0, 0, 0, false)), disk, start)
  }

  lemma {:induction false} InitKeepsInv(slots: nat, disk: Disk, start: int)
    ensures Inv(Init(slots, disk, start))
  {
    var s := Init(slots, disk, start);
    forall i: nat | i < |s.slots| ensures SlotOk(s, i) { }
    forall i: nat, j: nat | i < |s.slots| && j < |s.slots| ensures Distinct(s.slots, i, j) { }
  }

  lemma {:induction false} FromInit(slots: nat, disk: Disk, start: int, ops: seq<Op>, dev: int, ino: int)
    requires ValidRun(Init(slots, disk, start), ops) && OnDisk(disk, start, dev, ino)
    ensures var s' := Exec(Init(slots, disk, start), ops);
            && Inv(s') && s'.start == start && OnDisk(s'.disk, start, dev, ino)
            && Logical(s', dev, ino) == Plain(Read(disk, start, dev, ino), dev, ino, ops)
  {
    var s := Init(slots, disk, start);
    InitKeepsInv(slots, disk, start);
    CacheIsTransparent(s, ops, dev, ino);
  }

  // ---------------------------------------------------------------- Quit()

  /** The loop of Quit() from slot i on: one iput() for each held slot. */
  function QuitFrom(s: State, i: nat): (s': State)
    requires Inv(s) && i <= |s.slots|
    ensures Inv(s') && |s'.slots| == |s.slots| && s'.start == s.start
    decreases |s.slots| - i
  {
    if i == |s.slots| then s
    else if s.slots[i].refCount > 0 then
      PutKeepsInv(s, i);
      QuitFrom(Put(s, i), i + 1)
    else QuitFrom(s, i + 1)
  }

  function Quit(s: State): (s': State)
    requires Inv(s)
    ensures Inv(s') && s'.start == s.start
  {
    QuitFrom(s, 0)
  }

  lemma {:induction false} QuitFromEffect(s: State, i: nat, d: int, n: int)
    requires Inv(s) && i <= |s.slots| && OnDisk(s.disk, s.start, d, n)
    ensures var s', k, h := QuitFrom(s, i), Find(s.slots, d, n), Holds(s, d, n);
            && OnDisk(s'.disk, s.start, d, n) && Logical(s', d, n) == Logical(s, d, n)
            && Holds(s', d, n) == (if i <= k && h > 0 then h - 1 else h)
            && Read(s'.disk, s.start, d, n) == (if i <= k && h == 1 then Logical(s, d, n) else Read(s.disk, s.start, d, n))
    decreases |s.slots| - i
  {
    if i < |s.slots| {
      assert SlotOk(s, i);
      if s.slots[i].refCount > 0 {
        var m, s1 := s.slots[i], Put(s, i);
        PutKeepsInv(s, i);
        PutIsTransparent(s, i, d, n);
        WriteChangesOne(s.disk, s.start, m.dev, m.ino, m.inode, d, n);
        FindAfter(s, s1, i, d, n);
        FindIs(s, i);
        QuitFromEffect(s1, i + 1, d, n);
      } else {
        QuitFromEffect(s, i + 1, d, n);
      }
    }
  }

  /** Quit() as written puts each slot once: it leaves the disk equal to what the users see
      exactly for the inodes that are held at most once or were on the disk already. */
  lemma {:induction false} QuitFlushesIff(s: State, d: int, n: int)
    requires Inv(s) && OnDisk(s.disk, s.start, d, n)
    ensures OnDisk(Quit(s).disk, s.start, d, n)
    ensures Read(Quit(s).disk, s.start, d, n) == Logical(s, d, n)
            <==> Holds(s, d, n) <= 1 || Read(s.disk, s.start, d, n) == Logical(s, d, n)
  {
    QuitFromEffect(s, 0, d, n);
    var i := Find(s.slots, d, n);
    if i < |s.slots| { assert SlotOk(s, i); }
  }

  /** The root's inode is held by root and by cwd: a change of it is lost by Quit(). */
  lemma {:induction false} QuitLosesAChange(slots: nat, disk: Disk, start: int, dev: int, inode: Inode)
    requires slots > 0 && OnDisk(disk, start, dev, 2) && inode != Read(disk, start, dev, 2)
    ensures var ops := [DoGet(dev, 2), DoGet(dev, 2), DoModify(dev, 2, inode)];
            && ValidRun(Init(slots, disk, start), ops)
            && var s := Exec(Init(slots, disk, start), ops);
               Inv(s) && OnDisk(s.disk, s.start, dev, 2) && OnDisk(Quit(s).disk, start, dev, 2)
               && Read(Quit(s).disk, start, dev, 2) != Logical(s, dev, 2)
  {
    var s0 := Init(slots, disk, start);
    InitKeepsInv(slots, disk, start);
    assert s0.slots[0].refCount == 0;
    GetFailsIff(s0, dev, 2);
    GetIsTransparent(s0, dev, 2, dev, 2);
    GetKeepsInv(s0, dev, 2);
    var s1 := Get(s0, dev, 2).0;
    GetFailsIff(s1, dev, 2);
    GetIsTransparent(s1, dev, 2, dev, 2);
    GetKeepsInv(s1, dev, 2);
    var s2 := Get(s1, dev, 2).0;
    var i := Find(s2.slots, dev, 2);
    ModifyKeepsInv(s2, i, inode);
    ModifyIsSeen(s2, i, inode, dev, 2);
    var s, ops := Modify(s2, i, inode), [DoGet(dev, 2), DoGet(dev, 2), DoModify(dev, 2, inode)];
    QuitFlushesIff(s, dev, 2);
    var ops2 := [DoModify(dev, 2, inode)];
    var ops1 := [DoGet(dev, 2)] + ops2;
    assert ops[1..] == ops1 && ops1[1..] == ops2 && ops2[1..] == [];
    assert ValidRun(s, ops2[1..]) && Exec(s, ops2[1..]) == s;
    assert Allowed(s2, ops2[0]) && Step(s2, ops2[0]) == s && ValidRun(s2, ops2) && Exec(s2, ops2) == s;
    assert Allowed(s1, ops1[0]) && Step(s1, ops1[0]) == s2 && ValidRun(s1, ops1) && Exec(s1, ops1) == s;
    assert Allowed(s0, ops[0]) && Step(s0, ops[0]) == s1;
  }

  function QuitTimes(s: State, times: nat): (s': State)
    requires Inv(s)
    ensures Inv(s') && s'.start == s.start
    decreases times
  {
    if times == 0 then s else QuitTimes(Quit(s), times - 1)
  }

  /** Repeated until no hold is left, it flushes everything. */
  lemma {:induction false} QuitUntilReleased(s: State, times: nat, d: int, n: int)
    requires Inv(s) && OnDisk(s.disk, s.start, d, n) && Holds(s, d, n) <= times
    ensures var s' := QuitTimes(s, times);
            && OnDisk(s'.disk, s.start, d, n) && Holds(s', d, n) == 0
            && Read(s'.disk, s.start, d, n) == Logical(s, d, n)
    decreases times
  {
    QuitFromEffect(s, 0, d, n);
    var i := Find(s.slots, d, n);
    if i < |s.slots| { assert SlotOk(s, i); }
    if times > 0 { QuitUntilReleased(Quit(s), times - 1, d, n); }
  }
}
