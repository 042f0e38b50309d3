/** Directory blocks: search() of Lab5/Code/util.c and GetName() of Lab5/Code/Commands.c walk
    over ext2_dir_entry_2 records in a block of bytes. */
module Directory {

  const BLKSIZE := 1024

  /** A name, as its bytes; 0 does not occur in one.  A record that is not in use may have
      the empty name. */
  type Name = seq<nat>

  predicate IsName(n: Name) {
    |n| < 256 && forall i :: 0 <= i < |n| ==> 0 < n[i] < 256
  }

  // ---------------------------------------------------------------- bytes

  /** The entry at cp: inode (4 bytes), rec_len (2), name_len (1), file_type (1), name. */
  predicate Readable(b: seq<nat>, cp: nat) {
    cp + 8 <= |b| && cp + 8 + b[cp + 6] <= |b|
  }

  function InodeAt(b: seq<nat>, cp: nat): nat
    requires Readable(b, cp)
  {
    b[cp] + 0x100 * b[cp + 1] + 0x1_0000 * b[cp + 2] + 0x100_0000 * b[cp + 3]
  }

  function RecLenAt(b: seq<nat>, cp: nat): nat
    requires Readable(b, cp)
  {
    b[cp + 4] + 0x100 * b[cp + 5]
  }

  function NameAt(b: seq<nat>, cp: nat): Name
    requires Readable(b, cp)
  {
    b[cp + 8..cp + 8 + b[cp + 6]]
  }

  /** `Hang`: an entry with rec_len 0 keeps the walk in place; `Wild`: an entry reaches
      behind the buffer. */
  datatype Walk<T> = Hit(value: T) | Miss | Hang | Wild

  /** The inner loop of search() on one block. */
  function FindName(b: seq<nat>, cp: nat, name: Name): Walk<nat>
    requires |b| == BLKSIZE
    decreases BLKSIZE - cp
  {
    if cp >= BLKSIZE then Miss
    else if !Readable(b, cp) then Wild
    else if NameAt(b, cp) == name then Hit(InodeAt(b, cp))
    else if RecLenAt(b, cp) == 0 then Hang
    else FindName(b, cp + RecLenAt(b, cp), name)
  }

  /** The inner loop of GetName() on one block. */
  function FindInode(b: seq<nat>, cp: nat, ino: nat): Walk<Name>
    requires |b| == BLKSIZE
    decreases BLKSIZE - cp
  {
    if cp >= BLKSIZE then Miss
    else if !Readable(b, cp) then Wild
    else if InodeAt(b, cp) == ino then Hit(NameAt(b, cp))
    else if RecLenAt(b, cp) == 0 then Hang
    else FindInode(b, cp + RecLenAt(b, cp), ino)
  }

  // ---------------------------------------------------------------- what the bytes say

  /** From cp on, one record stands behind the other up to the end of the block. */
  predicate Ends(b: seq<nat>, cp: nat)
    requires |b| == BLKSIZE
    decreases BLKSIZE - cp
  {
    cp >= BLKSIZE || (Readable(b, cp) && RecLenAt(b, cp) > 0 && Ends(b, cp + RecLenAt(b, cp)))
  }

  /** The record at `at` can be reached from cp over records one behind the other. */
  predicate Reached(b: seq<nat>, cp: nat, at: nat)
    requires |b| == BLKSIZE
    decreases BLKSIZE - cp
  {
    && cp < BLKSIZE && Readable(b, cp)
    && (at == cp || (RecLenAt(b, cp) > 0 && Reached(b, cp + RecLenAt(b, cp), at)))
  }

  /** The record at `at`, reached from cp, has the name. */
  predicate Named(b: seq<nat>, cp: nat, at: nat, name: Name)
    requires |b| == BLKSIZE
  {
    Reached(b, cp, at) && Readable(b, at) && NameAt(b, at) == name
  }

  /** A record with the name can be reached from cp. */
  ghost predicate Carries(b: seq<nat>, cp: nat, name: Name)
    requires |b| == BLKSIZE
  {
    exists at: nat :: Named(b, cp, at, name)
  }

  /** The record at `at` is the first one with the name, and its inode is x. */
  predicate First(b: seq<nat>, cp: nat, at: nat, name: Name, x: nat)
    requires |b| == BLKSIZE
  {
    Named(b, cp, at, name) && InodeAt(b, at) == x && forall i: nat {:trigger Named(b, cp, i, name)} :: i < at ==> !Named(b, cp, i, name)
  }

  lemma {:induction false} ReachedIs(b: seq<nat>, cp: nat, at: nat)
    requires |b| == BLKSIZE && Reached(b, cp, at)
    ensures cp <= at < BLKSIZE && Readable(b, at)
    decreases BLKSIZE - cp
  {
    if at != cp { ReachedIs(b, cp + RecLenAt(b, cp), at); }
  }

  /** Whatever the bytes are: the walk of search() over a block is a miss exactly when the
      records fill the block and none carries the name, and finds an inode exactly when it is
      that of the first record with the name. */
  lemma {:induction false} FindNameIff(b: seq<nat>, cp: nat, name: Name, x: nat)
    requires |b| == BLKSIZE
    ensures FindName(b, cp, name) == Miss <==> Ends(b, cp) && !Carries(b, cp, name)
    ensures FindName(b, cp, name) == Hit(x) <==> exists at: nat :: First(b, cp, at, name, x)
    decreases BLKSIZE - cp
  {
    if cp >= BLKSIZE || !Readable(b, cp) {
      assert !Carries(b, cp, name);
    } else if NameAt(b, cp) == name {
      assert Named(b, cp, cp, name);
      forall i: nat | i < cp ensures !Named(b, cp, i, name) { if Reached(b, cp, i) { ReachedIs(b, cp, i); } }
      assert First(b, cp, cp, name, InodeAt(b, cp));
      forall at: nat | First(b, cp, at, name, x) ensures at == cp { ReachedIs(b, cp, at); }
    } else if RecLenAt(b, cp) == 0 {
      forall at: nat ensures !Named(b, cp, at, name) { }
    } else {
      var next := cp + RecLenAt(b, cp);
      FindNameIff(b, next, name, x);
      forall at: nat ensures Named(b, cp, at, name) <==> Named(b, next, at, name) {
        if Reached(b, next, at) { ReachedIs(b, next, at); }
      }
      forall at: nat ensures First(b, cp, at, name, x) <==> First(b, next, at, name, x) { }
    }
  }

  function Zeros(n: nat): (z: seq<nat>)
    ensures |z| == n
  {
    seq(n, _ => 0)
  }

  // ---------------------------------------------------------------- entries

  /** An entry, with the bytes that fill its record behind the name. */
  datatype Entry = Entry(ino: nat, kind: nat, name: Name, pad: seq<nat>)

  predicate ValidEntry(e: Entry) {
    e.ino < 0x1_0000_0000 && e.kind < 256 && IsName(e.name) && 8 + |e.name| + |e.pad| <= BLKSIZE
  }

  predicate ValidEntries(es: seq<Entry>) {
    forall i :: 0 <= i < |es| ==> ValidEntry(es[i])
  }

  function RecLen(e: Entry): nat {
    8 + |e.name| + |e.pad|
  }

  function Bytes(e: Entry): (b: seq<nat>)
    ensures |b| == RecLen(e)
  {
    [e.ino % 0x100, e.ino / 0x100 % 0x100, e.ino / 0x1_0000 % 0x100, e.ino / 0x100_0000,
     RecLen(e) % 0x100, RecLen(e) / 0x100, |e.name|, e.kind] + e.name + e.pad
  }

  function Encode(es: seq<Entry>): seq<nat> {
    if es == [] then [] else Bytes(es[0]) + Encode(es[1..])
  }

  /** The inode of the first entry with the name, or 0: what search() is for. */
  function Lookup(es: seq<Entry>, name: Name): nat {
    if es == [] then 0 else if es[0].name == name then es[0].ino else Lookup(es[1..], name)
  }

  predicate HasName(es: seq<Entry>, name: Name) {
    exists i :: 0 <= i < |es| && es[i].name == name
  }

  predicate HasInode(es: seq<Entry>, ino: nat) {
    exists i :: 0 <= i < |es| && es[i].ino == ino
  }

  /** The name of the first entry with the inode: what GetName() is for. */
  function NameOf(es: seq<Entry>, ino: nat): Name
    requires HasInode(es, ino)
  {
    if es[0].ino == ino then es[0].name else NameOf(es[1..], ino)
  }

  /** Reading the fields of an encoded entry gives the entry. */
  lemma {:induction false} ReadsBack(front: seq<nat>, e: Entry, rest: seq<nat>)
    requires ValidEntry(e)
    ensures var b, cp := front + Bytes(e) + rest, |front|;
            && Readable(b, cp) && InodeAt(b, cp) == e.ino && RecLenAt(b, cp) == RecLen(e) && NameAt(b, cp) == e.name
  {
    var b, cp := front + Bytes(e) + rest, |front|;
    assert forall i :: 0 <= i < |Bytes(e)| ==> b[cp + i] == Bytes(e)[i];
    Digits(e.ino);
    assert NameAt(b, cp) == e.name;
  }

  /** A record of 12 bytes as mke2fs writes it, the lower byte of a number first: inode 0x01020304 with
      the name "ab". */
  lemma {:induction false} LowByteFirst()
    ensures var b := [4, 3, 2, 1, 12, 0, 2, 1, 97, 98, 0, 0];
            && Readable(b, 0) && InodeAt(b, 0) == 0x01020304 && RecLenAt(b, 0) == 12 && NameAt(b, 0) == [97, 98]
            && Bytes(Entry(0x01020304, 1, [97, 98], [0, 0])) == b
  {
  }

  lemma {:induction false} Digits(x: nat)
    requires x < 0x1_0000_0000
    ensures x == x % 0x100 + 0x100 * (x / 0x100 % 0x100) + 0x1_0000 * (x / 0x1_0000 % 0x100) + 0x100_0000 * (x / 0x100_0000)
  {
    assert x / 0x100 / 0x100 == x / 0x1_0000;
    assert x / 0x1_0000 / 0x100 == x / 0x100_0000;
  }

  lemma {:induction false} EncodeCons(front: seq<nat>, es: seq<Entry>)
    requires es != []
    ensures front + Encode(es) == front + Bytes(es[0]) + Encode(es[1..])
    ensures front + Encode(es) == (front + Bytes(es[0])) + Encode(es[1..])
  {
  }

  /** On a block that entries fill, the walk of search() ends, visits exactly the entries, in
      order, and finds the first one with the name. */
  lemma {:induction false} FindNameIsLookup(front: seq<nat>, es: seq<Entry>, name: Name)
    requires ValidEntries(es) && |front + Encode(es)| == BLKSIZE
    ensures FindName(front + Encode(es), |front|, name) == if HasName(es, name) then Hit(Lookup(es, name)) else Miss
    decreases |es|
  {
    if es != [] {
      hide Bytes, Readable, InodeAt, NameAt, RecLenAt, HasName;
      EncodeCons(front, es);
      ReadsBack(front, es[0], Encode(es[1..]));
      FindNameIsLookup(front + Bytes(es[0]), es[1..], name);
      HasNameCons(es, name);
    }
  }

  /** A walk over the block has come to entry j. */
  predicate AtEntry(b: seq<nat>, cp: nat, es: seq<Entry>, j: nat) {
    j <= |es| && cp <= |b| && b[cp..] == Encode(es[j..])
  }

  lemma {:induction false} NextEntry(b: seq<nat>, cp: nat, es: seq<Entry>, j: nat)
    requires ValidEntries(es) && AtEntry(b, cp, es, j)
    ensures cp < |b| <==> j < |es|
    ensures j < |es| ==>
              && Readable(b, cp) && InodeAt(b, cp) == es[j].ino && NameAt(b, cp) == es[j].name
              && RecLenAt(b, cp) > 0 && AtEntry(b, cp + RecLenAt(b, cp), es, j + 1)
  {
    if j < |es| {
      assert es[j..][0] == es[j] && es[j..][1..] == es[j + 1..];
      EncodeCons(b[..cp], es[j..]);
      assert b == b[..cp] + b[cp..];
      ReadsBack(b[..cp], es[j], Encode(es[j + 1..]));
    }
  }

  lemma {:induction false} HasNameCons(es: seq<Entry>, name: Name)
    requires es != []
    ensures HasName(es, name) <==> es[0].name == name || HasName(es[1..], name)
  {
    if HasName(es[1..], name) {
      var i :| 0 <= i < |es[1..]| && es[1..][i].name == name;
      assert es[i + 1].name == name;
    }
    if HasName(es, name) && es[0].name != name {
      var i :| 0 <= i < |es| && es[i].name == name;
      assert es[1..][i - 1].name == name;
    }
  }

  lemma {:induction false} HasInodeCons(es: seq<Entry>, ino: nat)
    requires es != []
    ensures HasInode(es, ino) <==> es[0].ino == ino || HasInode(es[1..], ino)
  {
    if HasInode(es[1..], ino) {
      var i :| 0 <= i < |es[1..]| && es[1..][i].ino == ino;
      assert es[i + 1].ino == ino;
    }
    if HasInode(es, ino) && es[0].ino != ino {
      var i :| 0 <= i < |es| && es[i].ino == ino;
      assert es[1..][i - 1].ino == ino;
    }
  }

  /** The same for the walk of GetName(). */
  lemma {:induction false} FindInodeIsNameOf(front: seq<nat>, es: seq<Entry>, ino: nat)
    requires ValidEntries(es) && |front + Encode(es)| == BLKSIZE
    ensures FindInode(front + Encode(es), |front|, ino) == if HasInode(es, ino) then Hit(NameOf(es, ino)) else Miss
    decreases |es|
  {
    if es != [] {
      hide Bytes, Readable, InodeAt, NameAt, RecLenAt, HasInode;
      EncodeCons(front, es);
      ReadsBack(front, es[0], Encode(es[1..]));
      FindInodeIsNameOf(front + Bytes(es[0]), es[1..], ino);
      HasInodeCons(es, ino);
    }
  }

  /** Two records in use (their inodes are not 0) have different names. */
  predicate UniqueNames(es: seq<Entry>) {
    forall i, j :: 0 <= i < j < |es| && es[i].ino != 0 && es[j].ino != 0 ==> es[i].name != es[j].name
  }

  /** The record whose name NameOf gives. */
  function FirstOf(es: seq<Entry>, ino: nat): (k: nat)
    requires HasInode(es, ino)
    ensures k < |es| && es[k].ino == ino && es[k].name == NameOf(es, ino)
  {
    HasInodeCons(es, ino);
    if es[0].ino == ino then 0 else 1 + FirstOf(es[1..], ino)
  }

  /** A record that is not in use, before that of the inode, still has its name. */
  predicate Hidden(es: seq<Entry>, ino: nat)
    requires HasInode(es, ino)
  {
    exists i :: 0 <= i < FirstOf(es, ino) && es[i].ino == 0 && es[i].name == NameOf(es, ino)
  }

  lemma {:induction false} LookupSkips(es: seq<Entry>, j: nat)
    requires j < |es| && forall i :: 0 <= i < j ==> es[i].name != es[j].name
    ensures Lookup(es, es[j].name) == es[j].ino && HasName(es, es[j].name)
    decreases j
  {
    if j > 0 {
      LookupSkips(es[1..], j - 1);
      HasNameCons(es, es[j].name);
    }
  }

  /** Where the records in use have different names, search() finds one of them exactly when
      no record before it is a dead one that still carries its name, and answers 0 otherwise. */
  lemma {:induction false} SearchFindsIff(es: seq<Entry>, j: nat)
    requires j < |es| && es[j].ino != 0
    requires forall i :: 0 <= i < j && es[i].ino != 0 ==> es[i].name != es[j].name
    ensures Lookup(es, es[j].name)
            == if exists i :: 0 <= i < j && es[i].ino == 0 && es[i].name == es[j].name then 0 else es[j].ino
    decreases j
  {
    if exists i :: 0 <= i < j && es[i].ino == 0 && es[i].name == es[j].name {
      var i :| 0 <= i < j && es[i].ino == 0 && es[i].name == es[j].name;
      if es[0].name != es[j].name {
        var es', n := es[1..], es[j].name;
        assert es'[i - 1].name == n && es'[j - 1].name == n;
        SearchFindsIff(es', j - 1);
      }
    } else {
      LookupSkips(es, j);
    }
  }

  /** GetName() and search() undo each other exactly when no dead record hides the name. */
  lemma {:induction false} NameLookup(es: seq<Entry>, ino: nat)
    requires HasInode(es, ino) && ino != 0 && UniqueNames(es)
    ensures Lookup(es, NameOf(es, ino)) == if Hidden(es, ino) then 0 else ino
  {
    SearchFindsIff(es, FirstOf(es, ino));
  }

  /** Such a record: the name was removed, but its bytes are still there. */
  lemma {:induction false} DeadRecordHidesName()
    ensures var name: Name := [97];
            var es := [Entry(0, 1, name, [0, 0, 0]), Entry(12, 1, name, Zeros(1003))];
            ValidEntries(es) && |Encode(es)| == BLKSIZE && HasInode(es, 12) && Lookup(es, name) == 0
  {
    var name: Name := [97];
    var es := [Entry(0, 1, name, [0, 0, 0]), Entry(12, 1, name, Zeros(1003))];
    assert es[1..] == [es[1]] && [es[1]][1..] == [] && es[1].ino == 12;
    assert |Encode([es[1]])| == RecLen(es[1]) && |Encode(es)| == RecLen(es[0]) + |Encode(es[1..])|;
  }
}
