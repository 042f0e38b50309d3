/** What the size of the minode table means for the walks of Lab5/Code: once as many inodes are
    held as there are slots, iget() returns NULL for every other inode. */
module TableRoom {
  import opened Text
  import opened Directory
  import opened InodeCache
  import opened DirWalk
  import opened CacheView

  /** The minode table as iget() finds it: without a limit, or with n slots of which every held
      inode takes one. */
  datatype Room = Endless | Slots(holds: Holdings, n: nat)

  /** iget() has a slot for the inode. */
  predicate Fits(t: Room, k: (int, int)) {
    t.Endless? || k in t.holds || |Held(t.holds)| < t.n
  }

  predicate AllFit(t: Room, ks: set<(int, int)>) {
    forall k :: k in ks ==> Fits(t, k)
  }

  /** All of these can be held at once, one after the other. */
  predicate FitTogether(t: Room, h: Holdings) {
    t.Endless? || |Held(t.holds + h)| <= t.n
  }

  lemma {:induction false} FitUnion(t: Room, a: set<(int, int)>, b: set<(int, int)>)
    ensures AllFit(t, a + b) <==> AllFit(t, a) && AllFit(t, b)
  {
    assert forall k :: k in a + b <==> k in a || k in b;
  }

  function Add(t: Room, h: Holdings): Room {
    if t.Endless? then t else t.(holds := t.holds + h)
  }

  /** One more hold on what is held anyway makes no difference. */
  predicate SameRoom(t: Room, t': Room) {
    if t.Endless? then t'.Endless? else t'.Slots? && t'.n == t.n && Held(t'.holds) == Held(t.holds)
  }

  lemma {:induction false} SameFits(t: Room, t': Room, k: (int, int))
    requires SameRoom(t, t')
    ensures Fits(t', k) <==> Fits(t, k)
  {
    if t.Slots? { assert k in t.holds <==> k in Held(t.holds); }
  }

  /** iget() fails exactly for the inodes that do not fit. */
  lemma {:induction false} GetFails(s: State, holds: Holdings, d: int, n: int)
    requires Inv(s) && Exact(s, holds) && OnDisk(s.disk, s.start, d, n)
    ensures Get(s, d, n).1 == NIL <==> !Fits(Slots(holds, |s.slots|), (d, n))
    ensures Get(s, d, n).1 == NIL <==> |Held(holds + multiset{(d, n)})| > |s.slots|
  {
    GetFailsIffFull(s, holds, d, n);
    HeldFits(s, holds);
    HeldAdds(holds, (d, n));
  }

  lemma {:induction false} NotHeld(s: State, holds: Holdings, d: int, n: int)
    requires Inv(s) && Exact(s, holds) && !OnDisk(s.disk, s.start, d, n)
    ensures (d, n) !in holds
  {
    NoHolds(s, d, n);
    assert Holds(s, d, n) == holds[(d, n)];
  }

  lemma {:induction false} HeldFitsAlways(t: Room, k: (int, int))
    ensures t.Slots? && k in t.holds ==> Fits(t, k)
  {
  }

  lemma {:induction false} SameRoomTwice(h: Holdings, h': Holdings, k: (int, int), n: nat)
    requires h' == h + multiset{k} || h' == h + multiset{k} + multiset{k}
    ensures SameRoom(Slots(h + multiset{k}, n), Slots(h', n))
  {
    assert Held(h') == Held(h) + {k} == Held(h + multiset{k});
  }

  // ---------------------------------------------------------------- getino()

  /** The walk of getino() from inode d: without a slot for an inode, its search() is given NULL
      (`Wild`). */
  function ResolveWith(s: State, dev: int, t: Room, d: nat, names: seq<Name>): Walk<nat>
    requires OnDisk(s.disk, s.start, dev, d)
    decreases |names|
  {
    if names == [] then Hit(d)
    else if !Fits(t, (dev, d)) then Wild
    else
      var w := SearchFrom(s.disk, dev, Logical(s, dev, d), 0, names[0]);
      if w == Hit(0) then Miss
      else if !w.Hit? then w
      else if !OnDisk(s.disk, s.start, dev, w.value) then Wild
      else ResolveWith(s, dev, t, w.value, names[1..])
  }

  function GetinoWith(s: State, dev: int, t: Room, cwd: nat, path: seq<nat>): Walk<nat>
    requires OnDisk(s.disk, s.start, dev, ROOT) && OnDisk(s.disk, s.start, dev, cwd)
  {
    if path == [SLASH] then Hit(ROOT)
    else if Tokens(path, SLASH) == [] then Miss
    else ResolveWith(s, dev, t, StartOf(cwd, path), Tokens(path, SLASH))
  }

  /** getino() and the iget() behind it, in ChangeDir() and ListFile(). */
  function CommandWalk(s: State, dev: int, t: Room, cwd: nat, path: seq<nat>): Walk<nat>
    requires OnDisk(s.disk, s.start, dev, ROOT) && OnDisk(s.disk, s.start, dev, cwd)
  {
    var w := GetinoWith(s, dev, t, cwd, path);
    if w.Hit? && !Fits(t, (dev, w.value as int)) then Wild else w
  }

  /** The inodes that the walk along the names searches, were there no limit. */
  function Searched(s: State, dev: int, d: nat, names: seq<Name>): set<(int, int)>
    requires OnDisk(s.disk, s.start, dev, d)
    decreases |names|
  {
    if names == [] then {}
    else
      var w := SearchFrom(s.disk, dev, Logical(s, dev, d), 0, names[0]);
      {(dev, d as int)}
      + if w.Hit? && OnDisk(s.disk, s.start, dev, w.value) then Searched(s, dev, w.value, names[1..]) else {}
  }

  /** The inodes that a command loads for a path: those that getino() searches, and the last. */
  function Needs(s: State, dev: int, cwd: nat, path: seq<nat>): set<(int, int)>
    requires OnDisk(s.disk, s.start, dev, ROOT) && OnDisk(s.disk, s.start, dev, cwd)
  {
    var w := Getino(s, dev, cwd, path);
    Searched(s, dev, StartOf(cwd, path), Tokens(path, SLASH)) + if w.Hit? then {(dev, w.value as int)} else {}
  }

  /** The walk is the one without a limit exactly when all the inodes that it searches fit. */
  lemma {:induction false} ResolveWithIff(s: State, dev: int, t: Room, d: nat, names: seq<Name>)
    requires OnDisk(s.disk, s.start, dev, d)
    ensures ResolveWith(s, dev, t, d, names)
            == if AllFit(t, Searched(s, dev, d, names)) then ResolveIn(s, dev, d, names) else Wild
    decreases |names|
  {
    if names != [] {
      var w := SearchFrom(s.disk, dev, Logical(s, dev, d), 0, names[0]);
      if w.Hit? && OnDisk(s.disk, s.start, dev, w.value) {
        ResolveWithIff(s, dev, t, w.value, names[1..]);
        var rest := Searched(s, dev, w.value, names[1..]);
        FitUnion(t, {(dev, d as int)}, rest);
      } else {
        assert AllFit(t, {(dev, d as int)}) <==> Fits(t, (dev, d as int));
      }
    }
  }

  lemma {:induction false} SlashHasNoNames()
    ensures Tokens([SLASH], SLASH) == []
  {
    assert [SLASH][1..] == [];
  }

  /** A command comes to where it would without a limit exactly when every inode that it loads
      is held or has a free slot; otherwise it comes to a NULL pointer. */
  lemma {:induction false} CommandWalkIff(s: State, dev: int, t: Room, cwd: nat, path: seq<nat>)
    requires OnDisk(s.disk, s.start, dev, ROOT) && OnDisk(s.disk, s.start, dev, cwd)
    ensures CommandWalk(s, dev, t, cwd, path)
            == if AllFit(t, Needs(s, dev, cwd, path)) then Getino(s, dev, cwd, path) else Wild
  {
    var names, w := Tokens(path, SLASH), Getino(s, dev, cwd, path);
    var inner := Searched(s, dev, StartOf(cwd, path), names);
    SlashHasNoNames();
    if path != [SLASH] && names != [] {
      ResolveWithIff(s, dev, t, StartOf(cwd, path), names);
    }
    FitUnion(t, inner, if w.Hit? then {(dev, w.value as int)} else {});
  }

  lemma {:induction false} SearchedKept(s: State, s': State, dev: int, d: nat, names: seq<Name>)
    requires SameView(s, s') && OnDisk(s.disk, s.start, dev, d)
    ensures OnDisk(s'.disk, s'.start, dev, d) && Searched(s', dev, d, names) == Searched(s, dev, d, names)
    decreases |names|
  {
    assert SeenSame(s, s', dev, d);
    if names != [] {
      SearchKept(s, s', dev, Logical(s, dev, d), 0, names[0]);
      var w := SearchFrom(s.disk, dev, Logical(s, dev, d), 0, names[0]);
      if w.Hit? {
        assert SeenSame(s, s', dev, w.value);
        if OnDisk(s.disk, s.start, dev, w.value) { SearchedKept(s, s', dev, w.value, names[1..]); }
      }
    }
  }

  // ---------------------------------------------------------------- ls_dir()

  /** The output `w` behind what is already there. */
  function Behind(out: seq<(Name, Inode)>, w: Walk<seq<(Name, Inode)>>): Walk<seq<(Name, Inode)>> {
    if w.Hit? then Hit(out + w.value) else w
  }

  /** What ls_dir() shows of a directory: each name with its inode, in order.  A record for which
      iget() has no slot is skipped; for one that is not in use iget() reads in front of its
      buffer (`Wild`). */
  function Listing(s: State, dev: int, t: Room, es: seq<Entry>): Walk<seq<(Name, Inode)>> {
    if es == [] then Hit([])
    else if !Fits(t, (dev, es[0].ino as int)) then Listing(s, dev, t, es[1..])
    else if !OnDisk(s.disk, s.start, dev, es[0].ino) then Wild
    else Behind([(es[0].name, Logical(s, dev, es[0].ino))], Listing(s, dev, t, es[1..]))
  }

  /** The records that fit, in order. */
  function Fitting(dev: int, t: Room, es: seq<Entry>): (r: seq<Entry>)
    ensures |r| <= |es|
    ensures forall e :: e in r <==> e in es && Fits(t, (dev, e.ino as int))
  {
    if es == [] then []
    else (if Fits(t, (dev, es[0].ino as int)) then [es[0]] else []) + Fitting(dev, t, es[1..])
  }

  /** None is left out exactly when all fit. */
  lemma {:induction false} FittingAllIff(dev: int, t: Room, es: seq<Entry>)
    ensures |Fitting(dev, t, es)| == |es| <==> forall e :: e in es ==> Fits(t, (dev, e.ino as int))
    ensures |Fitting(dev, t, es)| == |es| ==> Fitting(dev, t, es) == es
  {
    if es != [] {
      FittingAllIff(dev, t, es[1..]);
      assert forall e :: e in es <==> e == es[0] || e in es[1..];
      assert es == [es[0]] + es[1..];
    }
  }

  predicate AllInUse(es: seq<Entry>) {
    forall e :: e in es ==> e.ino != 0
  }

  /** The lines of ls for these records. */
  predicate Lines(s: State, dev: int, lines: seq<(Name, Inode)>, es: seq<Entry>) {
    |lines| == |es| && forall i :: 0 <= i < |es| ==> Line(s, dev, lines[i], es[i])
  }

  /** The name of the record, with the inode that all users see. */
  predicate Line(s: State, dev: int, line: (Name, Inode), e: Entry) {
    OnDisk(s.disk, s.start, dev, e.ino) && line == (e.name, Logical(s, dev, e.ino))
  }

  lemma {:induction false} LinesCons(s: State, dev: int, line: (Name, Inode), e: Entry, lines: seq<(Name, Inode)>, es: seq<Entry>)
    ensures AllInUse([e] + es) <==> e.ino != 0 && AllInUse(es)
    ensures Line(s, dev, line, e) && Lines(s, dev, lines, es) ==> Lines(s, dev, [line] + lines, [e] + es)
  {
    assert forall x :: x in [e] + es <==> x == e || x in es;
    hide Line;
  }

  /** ls_dir() stays on the disk exactly when no record that is not in use has a slot, and
      then shows each record that fits, in order. */
  lemma {:induction false} ListingIff(s: State, dev: int, t: Room, es: seq<Entry>)
    requires forall e :: e in es ==> (e.ino != 0 ==> OnDisk(s.disk, s.start, dev, e.ino))
    ensures var w, shown := Listing(s, dev, t, es), Fitting(dev, t, es);
            && (w.Hit? <==> AllInUse(shown))
            && (!w.Hit? ==> w == Wild)
            && (w.Hit? ==> Lines(s, dev, w.value, shown))
  {
    if es != [] {
      assert es[0] in es;
      hide AllInUse, Lines;
      ListingIff(s, dev, t, es[1..]);
      var w, rest := Listing(s, dev, t, es[1..]), Fitting(dev, t, es[1..]);
      if Fits(t, (dev, es[0].ino as int)) {
        var line := if es[0].ino != 0 then (es[0].name, Logical(s, dev, es[0].ino)) else ([], Inode(Other, 0, [], 0));
        LinesCons(s, dev, line, es[0], if w.Hit? then w.value else [], rest);
      } else {
        assert [] + rest == rest;
      }
    }
  }

  /** ls_dir() shows a directory to its end exactly when every record is in use or no slot is free;
      it shows all of it exactly when every record is in use and fits. */
  lemma {:induction false} ListsIff(v: Volume, s: State, dev: int, t: Room, d: nat)
    requires d in v.dirs && DirStored(v, s, dev, d) && (t.Slots? ==> (dev, 0) !in t.holds)
    ensures var es, w := EntriesOf(v, d), Listing(s, dev, t, EntriesOf(v, d));
            var shown := Fitting(dev, t, es);
            && (w.Hit? <==> AllInUse(es) || !Fits(t, (dev, 0)))
            && (!w.Hit? ==> w == Wild)
            && (w.Hit? ==> Lines(s, dev, w.value, shown))
            && (w.Hit? && |w.value| == |es| <==> AllInUse(es) && forall e :: e in es ==> Fits(t, (dev, e.ino as int)))
  {
    var es := EntriesOf(v, d);
    forall e | e in es ensures e.ino != 0 ==> OnDisk(s.disk, s.start, dev, e.ino) { assert EntryOk(v, s, dev, e); }
    ListingIff(s, dev, t, es);
    FittingAllIff(dev, t, es);
  }

  /** The blocks that mke2fs gives to lost+found: one record that is not in use fills each.
      search() and GetName() walk over it; ls_dir() reads in front of the block buffer while a slot is free. */
  lemma {:induction false} UnusedRecord(s: State, dev: int, t: Room, name: Name, ino: nat)
    requires name != [] && ino != 0 && Fits(t, (dev, 0))
    ensures var es := [Entry(0, 0, [], Zeros(1016))];
            && ValidEntries(es) && |Encode(es)| == BLKSIZE
            && FindName(Encode(es), 0, name) == Miss && FindInode(Encode(es), 0, ino) == Miss
            && Listing(s, dev, t, es) == Wild
  {
    var es := [Entry(0, 0, [], Zeros(1016))];
    assert es[1..] == [] && |Encode(es)| == RecLen(es[0]) && [] + Encode(es) == Encode(es);
    FindNameIsLookup([], es, name);
    FindInodeIsNameOf([], es, ino);
  }

  lemma {:induction false} ListingAppend(s: State, dev: int, t: Room, a: seq<Entry>, b: seq<Entry>)
    ensures Listing(s, dev, t, a + b) ==
            if Listing(s, dev, t, a).Hit? then Behind(Listing(s, dev, t, a).value, Listing(s, dev, t, b)) else Listing(s, dev, t, a)
  {
    if a == [] {
      assert a + b == b;
      BehindNothing(Listing(s, dev, t, b));
    } else {
      assert (a + b)[1..] == a[1..] + b;
      ListingAppend(s, dev, t, a[1..], b);
      if OnDisk(s.disk, s.start, dev, a[0].ino) && Listing(s, dev, t, a[1..]).Hit? && Listing(s, dev, t, b).Hit? {
        var x, l, m := [(a[0].name, Logical(s, dev, a[0].ino))], Listing(s, dev, t, a[1..]).value, Listing(s, dev, t, b).value;
        assert x + (l + m) == (x + l) + m;
      }
    }
  }

  /** One record further. */
  lemma {:induction false} ListingStep(s: State, dev: int, t: Room, es: seq<Entry>, j: nat, out: seq<(Name, Inode)>)
    requires j < |es| && Behind(out, Listing(s, dev, t, es[j..])) == Listing(s, dev, t, es)
    ensures !Fits(t, (dev, es[j].ino as int)) ==> Behind(out, Listing(s, dev, t, es[j + 1..])) == Listing(s, dev, t, es)
    ensures Fits(t, (dev, es[j].ino as int)) ==>
              && (!OnDisk(s.disk, s.start, dev, es[j].ino) ==> Listing(s, dev, t, es) == Wild)
              && (OnDisk(s.disk, s.start, dev, es[j].ino) ==>
                    Behind(out + [(es[j].name, Logical(s, dev, es[j].ino))], Listing(s, dev, t, es[j + 1..])) == Listing(s, dev, t, es))
  {
    assert es[j..][0] == es[j] && es[j..][1..] == es[j + 1..];
    if OnDisk(s.disk, s.start, dev, es[j].ino) && Listing(s, dev, t, es[j + 1..]).Hit? {
      var x, rest := [(es[j].name, Logical(s, dev, es[j].ino))], Listing(s, dev, t, es[j + 1..]).value;
      assert out + (x + rest) == (out + x) + rest;
    }
  }

  /** One block further. */
  lemma {:induction false} ListingBlock(s: State, dev: int, t: Room, ess: seq<seq<Entry>>, k: nat, out: seq<(Name, Inode)>, all: Walk<seq<(Name, Inode)>>)
    requires k < |ess| && Behind(out, Listing(s, dev, t, Flat(ess[k..]))) == all
    ensures var w := Listing(s, dev, t, ess[k]);
            if w.Hit? then Behind(out + w.value, Listing(s, dev, t, Flat(ess[k + 1..]))) == all else all == w
  {
    assert ess[k..][0] == ess[k] && ess[k..][1..] == ess[k + 1..];
    ListingAppend(s, dev, t, ess[k], Flat(ess[k + 1..]));
    if Listing(s, dev, t, ess[k]).Hit? && Listing(s, dev, t, Flat(ess[k + 1..])).Hit? {
      var x, rest := Listing(s, dev, t, ess[k]).value, Listing(s, dev, t, Flat(ess[k + 1..])).value;
      assert out + (x + rest) == (out + x) + rest;
    }
  }

  lemma {:induction false} NoMoreToList(s: State, dev: int, t: Room, out: seq<(Name, Inode)>)
    ensures Behind(out, Listing(s, dev, t, [])) == Hit(out)
  {
    assert out + [] == out;
  }

  lemma {:induction false} BehindNothing(w: Walk<seq<(Name, Inode)>>)
    ensures Behind([], w) == w
  {
    if w.Hit? { assert [] + w.value == w.value; }
  }

  lemma {:induction false} ListingKept(s: State, s': State, dev: int, t: Room, t': Room, es: seq<Entry>)
    requires SameView(s, s') && SameRoom(t, t')
    ensures Listing(s', dev, t', es) == Listing(s, dev, t, es)
  {
    if es != [] {
      SameFits(t, t', (dev, es[0].ino as int));
      if OnDisk(s.disk, s.start, dev, es[0].ino) { Seen(s, s', dev, es[0].ino); }
      ListingKept(s, s', dev, t, t', es[1..]);
    }
  }
}
