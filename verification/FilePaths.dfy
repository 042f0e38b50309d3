/** Path text and position in the file tree: locateDir(), getPath() and cd() of Lab2/Lab2.c. */
module FilePaths {
  import opened Text
  import opened FileTree
  import FileSave

  function ParentOf(a: Nodes, i: nat): (p: nat)
    requires Ok(a) && i < |a| && a[i].parent >= 0
    ensures p < i && p == a[i].parent
  {
    assert NodeOk(a, i);
    a[i].parent
  }

  /** The names from the root to node i. */
  function NamesTo(a: Nodes, i: nat): seq<string>
    requires Ok(a) && i < |a|
    decreases i
  {
    assert NodeOk(a, i);
    if a[i].parent < 0 then [] else NamesTo(a, a[i].parent) + [a[i].name]
  }

  /** The text that belongs to position i, behind the text of the root. */
  function PathTo(a: Nodes, i: nat): string
    requires Ok(a) && i < |a|
  {
    Prefixed(NamesTo(a, i), '/')
  }

  /** Every name is a word for strtok(), and ".." stands first or nowhere: in the root it is
      looked up like any other name. */
  predicate ClearNames(names: seq<string>) {
    forall j :: 0 <= j < |names| ==> Word(names[j], '/') && (j > 0 ==> names[j] != "..")
  }

  /** The path of node i can be walked by its names. */
  predicate Clear(a: Nodes, i: nat)
    requires Ok(a) && i < |a|
  {
    ClearNames(NamesTo(a, i))
  }

  /** The text before the last slash, as locateDir() cuts it with strrchr(). */
  function CutLast(s: string): string
    requires '/' in s
  {
    LastSlash(s);
    s[..FileSave.AfterSlash(s) - 1]
  }

  lemma {:induction false} LastSlash(s: string)
    requires '/' in s
    ensures FileSave.AfterSlash(s) > 0
  {
    var i :| 0 <= i < |s| && s[i] == '/';
    var _ := FileSave.AfterSlash(s);
  }

  lemma {:induction false} PathOfChild(a: Nodes, i: nat)
    requires Ok(a) && i < |a| && a[i].parent >= 0
    ensures PathTo(a, i) == PathTo(a, ParentOf(a, i)) + "/" + a[i].name
  {
    assert NodeOk(a, i);
    PrefixedAppend(NamesTo(a, ParentOf(a, i)), a[i].name, '/');
  }

  lemma {:induction false} CutIsParent(a: Nodes, i: nat, pre: string)
    requires Ok(a) && i < |a| && a[i].parent >= 0 && '/' !in a[i].name
    ensures '/' in pre + PathTo(a, i) && CutLast(pre + PathTo(a, i)) == pre + PathTo(a, ParentOf(a, i))
  {
    PathOfChild(a, i);
    var front := pre + PathTo(a, ParentOf(a, i)) + "/";
    assert pre + PathTo(a, i) == front + a[i].name && front[|front| - 1] == '/';
    FileSave.AfterSlashWord(front, a[i].name);
    assert (front + a[i].name)[|front| - 1] == '/';
    assert (front + a[i].name)[..|front| - 1] == pre + PathTo(a, ParentOf(a, i));
  }

  // ---------------------------------------------------------------- getPath()

  function GetPath(a: Nodes, i: nat, cwd: nat): string
    requires Ok(a) && i < |a|
    decreases i
  {
    assert NodeOk(a, i);
    if a[i].parent < 0 then "/"
    else GetPath(a, a[i].parent, cwd) + a[i].name + (if i != cwd then "/" else "")
  }

  lemma {:induction false} GetPathAbove(a: Nodes, i: nat, cwd: nat)
    requires Ok(a) && i < cwd && i < |a|
    ensures GetPath(a, i, cwd) == PathTo(a, i) + "/"
    decreases i
  {
    assert NodeOk(a, i);
    if a[i].parent >= 0 {
      GetPathAbove(a, a[i].parent, cwd);
      PathOfChild(a, i);
    }
  }

  /** pwd prints the names from the root to the cwd. */
  lemma {:induction false} GetPathIsPath(a: Nodes, i: nat)
    requires Ok(a) && i < |a|
    ensures GetPath(a, i, i) == if i == 0 then "/" else PathTo(a, i)
  {
    assert NodeOk(a, i);
    if a[i].parent >= 0 {
      GetPathAbove(a, a[i].parent, i);
      PathOfChild(a, i);
    }
  }

  // ---------------------------------------------------------------- resolving a path

  /** Node i hangs on the root by child lists. */
  predicate Attached(a: Nodes, i: nat)
    requires Ok(a) && i < |a|
    decreases i
  {
    assert NodeOk(a, i);
    i == 0 || (i in a[a[i].parent].kids && Attached(a, a[i].parent))
  }

  lemma {:induction false} LocateAppend(a: Nodes, i: nat, p: seq<string>, w: string)
    requires Ok(a) && i < |a|
    ensures Locate(a, i, p + [w]) == match Locate(a, i, p) case None => None case Some(j) => Down(a, j, w)
    decreases |p|
  {
    if p == [] {
      assert p + [w] == [w];
      if Down(a, i, w).Some? { assert Locate(a, Down(a, i, w).value, []) == Down(a, i, w); }
    } else {
      assert (p + [w])[1..] == p[1..] + [w];
      if Down(a, i, p[0]).Some? { LocateAppend(a, Down(a, i, p[0]).value, p[1..], w); }
    }
  }

  /** Names are unique for each kind, so looking up a child by name finds that child. */
  lemma {:induction false} DownFinds(a: Nodes, i: nat, k: nat)
    requires Ok(a) && i < |a| && k in a[i].kids && k < |a| && a[k].kind == D && (i == 0 || a[k].name != "..")
    ensures Down(a, i, a[k].name) == Some(k)
  {
    var j :| 0 <= j < |a[i].kids| && a[i].kids[j] == k;
    var p := Place(a, a[i].kids, D, a[k].name);
    assert NodeOk(a, i);
    assert p <= j;
    assert KidOk(a, i, a[i].kids[p]);
  }

  lemma {:induction false} NamesLocate(a: Nodes, i: nat)
    requires Ok(a) && i < |a| && Attached(a, i) && a[i].kind == D && Clear(a, i)
    ensures Locate(a, 0, NamesTo(a, i)) == Some(i)
    decreases i
  {
    assert NodeOk(a, i);
    if i != 0 {
      var p, names := a[i].parent, NamesTo(a, i);
      assert names[|names| - 1] == a[i].name;
      assert NodeOk(a, p) && names == NamesTo(a, p) + [a[i].name];
      ClearParent(a, i);
      NamesLocate(a, p);
      LocateAppend(a, 0, NamesTo(a, p), a[i].name);
      DownFinds(a, p, i);
    }
  }

  lemma {:induction false} ClearParent(a: Nodes, i: nat)
    requires Ok(a) && i < |a| && a[i].parent >= 0 && Clear(a, i)
    ensures Clear(a, ParentOf(a, i)) && Word(a[i].name, '/')
  {
    var p, names := ParentOf(a, i), NamesTo(a, i);
    assert names == NamesTo(a, p) + [a[i].name];
    assert names[|names| - 1] == a[i].name;
    forall j | 0 <= j < |NamesTo(a, p)| ensures NamesTo(a, p)[j] == names[j] { }
  }

  /** A walk by tokens stays on nodes whose paths can be walked. */
  lemma {:induction false} DownClear(a: Nodes, i: nat, token: string)
    requires Ok(a) && i < |a| && Clear(a, i) && Word(token, '/')
    ensures Down(a, i, token).Some? ==> Clear(a, Down(a, i, token).value)
  {
    assert NodeOk(a, i);
    if token == ".." && i != 0 {
      ClearParent(a, i);
    } else if Down(a, i, token).Some? {
      var k := Down(a, i, token).value;
      assert KidOk(a, i, k) && NodeOk(a, k);
      assert NamesTo(a, k) == NamesTo(a, i) + [token];
    }
  }

  lemma {:induction false} LocateClear(a: Nodes, i: nat, tokens: seq<string>)
    requires Ok(a) && i < |a| && Clear(a, i) && Words(tokens, '/')
    ensures Locate(a, i, tokens).Some? ==> Clear(a, Locate(a, i, tokens).value)
    decreases |tokens|
  {
    if tokens != [] {
      DownClear(a, i, tokens[0]);
      if Down(a, i, tokens[0]).Some? { LocateClear(a, Down(a, i, tokens[0]).value, tokens[1..]); }
    }
  }

  /** Resolving the text of getPath() from the root leads back to the directory exactly when the
      names on its path are not empty and ".." is none of them but the first. */
  lemma {:induction false} PathResolvesIff(a: Nodes, i: nat)
    requires Ok(a) && i < |a| && Attached(a, i) && a[i].kind == D
    requires forall j :: 0 <= j < |NamesTo(a, i)| ==> '/' !in NamesTo(a, i)[j]
    ensures Locate(a, 0, Tokens(GetPath(a, i, i), '/')) == Some(i) <==>
            forall j :: 0 <= j < |NamesTo(a, i)| ==> NamesTo(a, i)[j] != "" && (j > 0 ==> NamesTo(a, i)[j] != "..")
  {
    if Clear(a, i) { PathResolves(a, i); }
    if Locate(a, 0, Tokens(GetPath(a, i, i), '/')) == Some(i) { ResolvedIsClear(a, i); }
  }

  lemma {:induction false} ResolvedIsClear(a: Nodes, i: nat)
    requires Ok(a) && i < |a| && Locate(a, 0, Tokens(GetPath(a, i, i), '/')) == Some(i)
    ensures Clear(a, i)
  {
    assert NodeOk(a, 0) && Clear(a, 0);
    LocateClear(a, 0, Tokens(GetPath(a, i, i), '/'));
  }

  lemma {:induction false} PathResolves(a: Nodes, i: nat)
    requires Ok(a) && i < |a| && Attached(a, i) && a[i].kind == D && Clear(a, i)
    ensures Locate(a, 0, Tokens(GetPath(a, i, i), '/')) == Some(i)
  {
    GetPathIsPath(a, i);
    if i == 0 {
      assert Tokens("/", '/') == Tokens("/"[1..], '/');
    } else {
      TokensPrefixed(NamesTo(a, i), '/');
      NamesLocate(a, i);
    }
  }

  /** rmdir or rm detaches the node that it removes and no other: a childless directory such
      as `start` stays attached exactly when it is not the one removed. */
  lemma {:induction false} RemoveDetaches(a: Nodes, i: nat, kind: Kind, name: string, x: nat)
    requires Ok(a) && i < |a| && x < |a| && Attached(a, x) && a[i].kind == D
    ensures var a' := Remove(a, i, kind, name);
            && Ok(a')
            && (Attached(a', x) <==> a' == a || x != a[i].kids[Place(a, a[i].kids, kind, name)])
  {
    var a' := Remove(a, i, kind, name);
    var p := Place(a, a[i].kids, kind, name);
    RemoveOk(a, i, kind, name);
    if a' != a { StaysAttached(a, i, p, x); }
  }

  lemma {:induction false} StaysAttached(a: Nodes, i: nat, p: nat, x: nat)
    requires Ok(a) && i < |a| && x < |a| && Attached(a, x) && p < |a[i].kids|
    requires a[i].kids[p] < |a| && a[a[i].kids[p]].kids == []
    requires Ok(a[i := a[i].(kids := Without(a[i].kids, p))])
    ensures Attached(a[i := a[i].(kids := Without(a[i].kids, p))], x) <==> x != a[i].kids[p]
    decreases x
  {
    var a' := a[i := a[i].(kids := Without(a[i].kids, p))];
    var z := a[i].kids[p];
    assert NodeOk(a, x) && NodeOk(a', x) && NodeOk(a, i) && KidOk(a, i, z);
    if x != 0 {
      var q := a[x].parent;
      assert q != z;
      StaysAttached(a, i, p, q);
      if q == i { KidsWithout(a, i, p, x); }
    }
  }

  lemma {:induction false} KidsWithout(a: Nodes, i: nat, p: nat, x: nat)
    requires Ok(a) && i < |a| && p < |a[i].kids|
    ensures x in Without(a[i].kids, p) <==> x in a[i].kids && x != a[i].kids[p]
  {
    var kids := a[i].kids;
    assert NodeOk(a, i);
    if x in kids && x != kids[p] {
      var j :| 0 <= j < |kids| && kids[j] == x;
      assert Without(kids, p)[if j < p then j else j - 1] == x;
    }
    forall j | 0 <= j < |Without(kids, p)| ensures Without(kids, p)[j] != kids[p] && Without(kids, p)[j] in kids {
      var j' := if j < p then j else j + 1;
      assert Without(kids, p)[j] == kids[j'];
    }
  }
}
