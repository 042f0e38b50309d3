/** The file-tree simulator in place: Lab2/Lab2.c.  Nodes are linked by Child, Sibling and
    Parent pointers (indices in the order of createNode(); NULL is NIL), and the commands
    relink them.  Each method is proved to do to the node table `a` what the function of
    FileTree for the same command says. */
module FileSystem {
  import opened Text
  import opened FileTree
  import opened FilePaths
  import opened FileRuns
  import FileSave

  const NIL := -1

  datatype Record = Record(name: string, kind: Kind, child: int, sibling: int, parent: int)

  function Nth(q: seq<nat>, j: nat): int {
    if j < |q| then q[j] else NIL
  }

  predicate Next(t: seq<Record>, q: seq<nat>, j: nat) {
    j < |q| && q[j] < |t| && t[q[j]].sibling == Nth(q, j + 1)
  }

  /** The record of node i, with its children on child and sibling. */
  predicate Holds(t: seq<Record>, i: nat, n: Node) {
    && i < |t| && t[i].name == n.name && t[i].kind == n.kind && t[i].parent == n.parent
    && t[i].child == Nth(n.kids, 0)
    && forall j: nat {:trigger Next(t, n.kids, j)} :: j < |n.kids| ==> Next(t, n.kids, j)
  }

  predicate Represents(t: seq<Record>, a: Nodes) {
    Ok(a) && |t| == |a| && forall i: nat {:trigger Holds(t, i, a[i])} :: i < |a| ==> Holds(t, i, a[i])
  }

  lemma {:induction false} HoldsKept(t: seq<Record>, t': seq<Record>, i: nat, n: Node)
    requires Holds(t, i, n) && |t| <= |t'|
    requires t'[i] == t[i] || (t'[i] == t[i].(sibling := t'[i].sibling))
    requires forall x: nat :: x in n.kids && x < |t| ==> t'[x].sibling == t[x].sibling
    ensures Holds(t', i, n)
  {
    forall j: nat | j < |n.kids| ensures Next(t', n.kids, j) { assert Next(t, n.kids, j); }
  }

  lemma {:induction false} KidsParent(a: Nodes, i: nat, k: nat)
    requires Ok(a) && i < |a|
    ensures k in a[i].kids ==> KidOk(a, i, k)
  {
    assert NodeOk(a, i);
    if k in a[i].kids {
      var j :| 0 <= j < |a[i].kids| && a[i].kids[j] == k;
      assert KidOk(a, i, a[i].kids[j]);
    }
  }

  /** A node is in at most one child list, so relinking in one list leaves the others alone. */
  lemma {:induction false} ListsApart(a: Nodes, i: nat, x: nat, k: nat)
    requires Ok(a) && i < |a| && x < |a| && i != x && k in a[i].kids
    ensures k !in a[x].kids
  {
    KidsParent(a, i, k);
    KidsParent(a, x, k);
  }

  /** createNode() and the link behind the last child. */
  lemma {:induction false} Appended(t: seq<Record>, t': seq<Record>, a: Nodes, i: nat, kind: Kind, name: string)
    requires Represents(t, a) && i < |a| && a[i].kind == D && !Has(a, i, kind, name)
    requires var kids, n, t1 := a[i].kids, |a|, t + [Record(name, kind, NIL, NIL, i)];
             t' == if kids == [] then t1[i := t1[i].(child := n)]
                   else if kids[|kids| - 1] < |t1| then t1[kids[|kids| - 1] := t1[kids[|kids| - 1]].(sibling := n)] else t1
    ensures Represents(t', Make(a, i, kind, name))
  {
    var kids, a' := a[i].kids, Make(a, i, kind, name);
    MakeOk(a, i, kind, name);
    assert Holds(t, i, a[i]) && NodeOk(a, i);
    forall x: nat | x < |a'| ensures Holds(t', x, a'[x]) {
      if x == i {
        forall j: nat | j < |a'[i].kids| ensures Next(t', a'[i].kids, j) {
          if j < |kids| { assert Next(t, kids, j) && KidOk(a, i, kids[j]); }
        }
      } else if x < |a| {
        assert Holds(t, x, a[x]) && NodeOk(a, x);
        if kids != [] {
          assert kids[|kids| - 1] in kids;
          ListsApart(a, i, x, kids[|kids| - 1]);
        }
        forall k: nat | k in a[x].kids && k < |t| ensures t'[k].sibling == t[k].sibling { }
        HoldsKept(t, t', x, a[x]);
      }
    }
  }

  /** The unlinking of the child at place p. */
  lemma {:induction false} Unlinked(t: seq<Record>, t': seq<Record>, a: Nodes, i: nat, p: nat)
    requires Represents(t, a) && i < |a| && p < |a[i].kids|
    requires var a' := a[i := a[i].(kids := Without(a[i].kids, p))]; Ok(a')
    requires var kids := a[i].kids;
             kids[p] < |t| && t' == if p == 0 then t[i := t[i].(child := t[kids[0]].sibling)]
                   else if kids[p - 1] < |t| then t[kids[p - 1] := t[kids[p - 1]].(sibling := t[kids[p]].sibling)] else t
    ensures Represents(t', a[i := a[i].(kids := Without(a[i].kids, p))])
  {
    var kids, a' := a[i].kids, a[i := a[i].(kids := Without(a[i].kids, p))];
    assert Holds(t, i, a[i]) && NodeOk(a, i) && Next(t, kids, p);
    forall x: nat | x < |a'| ensures Holds(t', x, a'[x]) {
      assert Holds(t, x, a[x]) && NodeOk(a, x);
      if x == i {
        var rest := Without(kids, p);
        forall j: nat | j < |rest| ensures Next(t', rest, j) {
          var j' := if j < p then j else j + 1;
          assert rest[j] == kids[j'] && Next(t, kids, j') && KidOk(a, i, kids[j']);
          if p > 0 && j' != p - 1 { assert kids[j'] != kids[p - 1]; }
        }
      } else {
        if p > 0 {
          assert kids[p - 1] in kids;
          ListsApart(a, i, x, kids[p - 1]);
        }
        HoldsKept(t, t', x, a[x]);
      }
    }
  }

  /** Kinds and names are unique, so the child at place p is the one that is found. */
  lemma {:induction false} FoundAt(a: Nodes, i: nat, p: nat)
    requires Ok(a) && i < |a| && p < |a[i].kids|
    ensures a[i].kids[p] < |a| && Place(a, a[i].kids, a[a[i].kids[p]].kind, a[a[i].kids[p]].name) == p
  {
    assert NodeOk(a, i) && KidOk(a, i, a[i].kids[p]);
    var k := a[i].kids[p];
    var q := Place(a, a[i].kids, a[k].kind, a[k].name);
    assert q <= p;
  }

  lemma {:induction false} ChildHere(t: seq<Record>, a: Nodes, i: nat, k: nat)
    requires Represents(t, a) && i < |a| && k in a[i].kids && k < |a|
    ensures a[k].parent == i && k < |t| && t[k].name == a[k].name
  {
    var j: nat :| j < |a[i].kids| && a[i].kids[j] == k;
    assert NodeOk(a, i) && KidOk(a, i, a[i].kids[j]) && Holds(t, k, a[k]);
  }

  class FileSystem {
    var node: seq<Record>
    var cwd: int
    var start: nat
    var cwPath: string
    var pathname: string
    var dname: string
    var bname: string
    ghost var a: Nodes
    ghost var prefix: string

    /** The links represent the nodes, and pathname ends in the path of start. */
    ghost predicate Valid()
      reads this
    {
      && Represents(node, a) && start < |a| && a[start].kind == D
      && Clear(a, start) && pathname == prefix + PathTo(a, start)
    }

    /** cwd is a directory and cwPath the text of its position, behind `pre`. */
    ghost predicate InStep(pre: string)
      reads this
    {
      Valid() && 0 <= cwd < |a| && a[cwd].kind == D && Clear(a, cwd) && cwPath == pre + PathTo(a, cwd)
    }

    ghost function Now(): Sim
      reads this
    {
      Sim(a, start, prefix)
    }

    ghost function Loading(): FileSave.Session
      reads this
    {
      FileSave.Session(a, dname, bname)
    }

    /** initialize() at the start of main(). */
    constructor ()
      ensures Valid() && InStep("~") && Now() == AtStart() && pathname == "~"
    {
      node := [Record("~", D, NIL, NIL, NIL)];
      cwd, start := 0, 0;
      cwPath, pathname, prefix := "~", "~", "~";
      dname, bname := "", "";
      a := FileSave.Initial("~");
      new;
      assert Holds(node, 0, a[0]);
      PathIsEmptyIff(a, 0);
      assert NodeOk(a, 0) && Clear(a, 0);
    }

    /** The walk that the commands share: the first child of this kind and name, and the
        child before it. */
    method Find(i: nat, kind: Kind, name: string) returns (prev: int, cur: int)
      requires Valid() && i < |a|
      ensures var kids := a[i].kids; var p := Place(a, kids, kind, name);
              cur == Nth(kids, p) && prev == if p == 0 then NIL else kids[p - 1]
    {
      ghost var kids := a[i].kids;
      ghost var p, j: nat := Place(a, a[i].kids, kind, name), 0;
      assert Holds(node, i, a[i]) && NodeOk(a, i);
      prev, cur := NIL, node[i].child;
      while cur != NIL
        invariant j <= p && cur == Nth(kids, j)
        invariant prev == if j == 0 then NIL else kids[j - 1]
        decreases |kids| - j
      {
        assert KidOk(a, i, kids[j]) && Holds(node, kids[j], a[kids[j]]) && Next(node, kids, j);
        if node[cur].kind == kind && node[cur].name == name { return; }
        prev, cur, j := cur, node[cur].sibling, j + 1;
      }
    }

    /** traverseDir(): on success cwd moves to the child directory. */
    method TraverseDir(name: string) returns (child: int)
      requires Valid() && 0 <= cwd < |a|
      modifies this`cwd
      ensures Valid()
      ensures var kids := a[old(cwd)].kids;
              child == Nth(kids, Place(a, kids, D, name)) && cwd == if child == NIL then old(cwd) else child
    {
      var prev;
      prev, child := Find(cwd, D, name);
      if child != NIL { cwd := child; }
    }

    /** locateDir(): position and text go along the tokens together; NULL when a name is
        missing. */
    method LocateDir(path: string, ghost pre: string)
      requires InStep(pre)
      modifies this`cwd, this`cwPath
      ensures Valid()
      ensures match Locate(a, old(cwd), Tokens(path, '/'))
              case None => cwd == NIL
              case Some(i) => cwd == i && InStep(pre)
    {
      var tokens := Tokens(path, '/');
      ghost var from := cwd;
      var k := 0;
      assert tokens[0..] == tokens;
      while k < |tokens|
        invariant 0 <= k <= |tokens| && InStep(pre)
        invariant Locate(a, from, tokens) == Locate(a, cwd, tokens[k..])
        decreases |tokens| - k
      {
        assert tokens[k..][0] == tokens[k] && tokens[k..][1..] == tokens[k + 1..];
        Enter(tokens[k], pre);
        if cwd == NIL { return; }
        k := k + 1;
      }
    }

    /** One turn of the loop of locateDir(). */
    method Enter(token: string, ghost pre: string)
      requires InStep(pre) && Word(token, '/')
      modifies this`cwd, this`cwPath
      ensures Valid()
      ensures match Down(a, old(cwd), token)
              case None => cwd == NIL
              case Some(i) => cwd == i && InStep(pre)
    {
      if token == ".." && cwd != 0 {
        Leave(pre);
      } else {
        Descend(token, pre);
      }
    }

    method Leave(ghost pre: string)
      requires InStep(pre) && cwd != 0
      modifies this`cwd, this`cwPath
      ensures InStep(pre) && cwd == a[old(cwd)].parent
    {
      assert Holds(node, cwd, a[cwd]) && NodeOk(a, cwd);
      ClearParent(a, cwd);
      CutIsParent(a, cwd, pre);
      cwd := node[cwd].parent;
      cwPath := CutLast(cwPath);
    }

    method Descend(token: string, ghost pre: string)
      requires InStep(pre) && Word(token, '/') && !(token == ".." && cwd != 0)
      modifies this`cwd, this`cwPath
      ensures Valid()
      ensures match Down(a, old(cwd), token)
              case None => cwd == NIL
              case Some(i) => cwd == i && InStep(pre)
    {
      ghost var i: nat := cwd;
      assert NodeOk(a, i);
      DownClear(a, i, token);
      var child := TraverseDir(token);
      if child == NIL {
        cwd := NIL;
      } else {
        ChildHere(node, a, i, cwd);
        PathOfChild(a, cwd);
        hide Represents, Clear, PathTo, NodeOk;
        cwPath := cwPath + "/";
        cwPath := cwPath + node[cwd].name;
      }
    }

    /** mkdir() and creat(); the two differ in the kind only. */
    method Make(kind: Kind, name: string) returns (made: bool)
      requires Valid() && 0 <= cwd < |a| && a[cwd].kind == D
      modifies this`node, this`a
      ensures Valid() && a == FileTree.Make(old(a), cwd, kind, name)
      ensures made <==> !Has(old(a), cwd, kind, name)
    {
      var prev, cur := Find(cwd, kind, name);
      if cur != NIL { return false; }
      ghost var t, b := node, a;
      assert prev == if a[cwd].kids == [] then NIL else a[cwd].kids[|a[cwd].kids| - 1];
      assert NodeOk(a, cwd) && (prev != NIL ==> KidOk(a, cwd, prev));
      var n := |node|;
      node := node + [Record(name, kind, NIL, NIL, cwd)];
      if prev != NIL { node := node[prev := node[prev].(sibling := n)]; }
      else { node := node[cwd := node[cwd].(child := n)]; }
      Appended(t, node, b, cwd, kind, name);
      NamesKept(b, cwd, Plus(kind, name), start);
      a := FileTree.Make(b, cwd, kind, name);
      return true;
    }

    /** rmdir() and rm(): a directory with children stays. */
    method Remove(kind: Kind, name: string) returns (gone: bool)
      requires Valid() && 0 <= cwd < |a| && a[cwd].kind == D
      modifies this`node, this`a
      ensures Valid() && a == FileTree.Remove(old(a), cwd, kind, name)
      ensures gone <==> a != old(a)
    {
      var prev, cur := Find(cwd, kind, name);
      if cur == NIL { return false; }
      ghost var t, b, p := node, a, Place(a, a[cwd].kids, kind, name);
      assert NodeOk(a, cwd) && KidOk(a, cwd, cur) && Holds(node, cwd, a[cwd]) && Holds(node, cur, a[cur]);
      assert p > 0 ==> KidOk(a, cwd, a[cwd].kids[p - 1]);
      RemoveOk(b, cwd, kind, name);
      if kind == D && node[cur].child != NIL { return false; }
      assert NodeOk(a, cur);
      Unhook(prev, cur, p);
      return true;
    }

    /** The relinking around the child at place p. */
    method Unhook(prev: int, cur: int, ghost p: nat)
      requires Valid() && 0 <= cwd < |a| && a[cwd].kind == D && p < |a[cwd].kids| && cur == a[cwd].kids[p] < |a|
      requires prev == (if p == 0 then NIL else a[cwd].kids[p - 1]) && a[cur].kids == []
      modifies this`node, this`a
      ensures Valid() && a == old(a)[cwd := old(a[cwd]).(kids := Without(old(a[cwd].kids), p))]
    {
      ghost var t, b, e := node, a, Minus(a[cur].kind, a[cur].name);
      assert NodeOk(b, cwd) && KidOk(b, cwd, cur) && Holds(t, cwd, b[cwd]);
      assert p > 0 ==> KidOk(b, cwd, b[cwd].kids[p - 1]);
      FoundAt(b, cwd, p);
      RemoveOk(b, cwd, b[cur].kind, b[cur].name);
      if cur == node[cwd].child { node := node[cwd := node[cwd].(child := node[cur].sibling)]; }
      else if prev != NIL { node := node[prev := node[prev].(sibling := node[cur].sibling)]; }
      Unlinked(t, node, b, cwd, p);
      NamesKept(b, cwd, e, start);
      a := FileTree.Remove(b, cwd, b[cur].kind, b[cur].name);
    }

    /** cd(): start and pathname move together, or not at all. */
    method Cd(name: string, ghost pre: string) returns (moved: bool)
      requires InStep(pre)
      modifies this`cwd, this`cwPath, this`start, this`pathname, this`prefix
      ensures Valid()
      ensures moved <==> name == "" || Locate(a, old(cwd), Tokens(name, '/')).Some?
      ensures !moved ==> Now() == old(Now())
      ensures moved && name == "" ==> start == 0 && prefix == "~"
      ensures moved && name != "" ==> Some(start) == Locate(a, old(cwd), Tokens(name, '/')) && prefix == pre
    {
      if name == "" {
        start, pathname := 0, "~";
        prefix := "~";
        PathIsEmptyIff(a, 0);
        assert NodeOk(a, 0) && Clear(a, 0);
        return true;
      }
      LocateDir(name, pre);
      if cwd != NIL {
        pathname := cwPath;
        start := cwd;
        prefix := pre;
        return true;
      }
      return false;
    }

    /** saveTree(node, path): this node with its descendants, then its siblings. */
    method SaveTree(n: int, path: string, ghost i: nat, ghost p: nat) returns (text: string)
      requires Valid() && i < |a| && p <= |a[i].kids| && n == Nth(a[i].kids, p)
      ensures text == FileSave.SaveTree(TreesOf(a, i, p), path)
      decreases |a| - i, |a[i].kids| - p
    {
      if n == NIL { return ""; }
      assert NodeOk(a, i) && KidOk(a, i, n) && Holds(node, i, a[i]) && Holds(node, n, a[n]) && Next(node, a[i].kids, p);
      var currPath := path + "/" + node[n].name;
      text := FileSave.Letter(node[n].kind) + " " + currPath + "\n";
      if node[n].child != NIL {
        var below := SaveTree(node[n].child, currPath, n, 0);
        text := text + below;
      }
      if node[n].sibling != NIL {
        var beside := SaveTree(node[n].sibling, path, i, p + 1);
        text := text + beside;
      }
    }

    /** getPath() of the current directory. */
    method GetPath(n: nat) returns (path: string)
      requires Valid() && n < |a| && 0 <= cwd
      ensures path == FilePaths.GetPath(a, n, cwd)
      decreases n
    {
      assert Holds(node, n, a[n]) && NodeOk(a, n);
      if node[n].parent == NIL { return "/"; }
      path := GetPath(node[n].parent);
      path := path + node[n].name;
      if n != cwd { path := path + "/"; }
    }

    /** The start of runCommand(): where to begin, and the two parts of the path. */
    method Parse(path: string, ghost pre0: string) returns (ghost pre: string)
      requires InStep(pre0)
      modifies this`cwd, this`cwPath, this`dname, this`bname
      ensures cwd == if Absolute(path) then 0 else old(cwd)
      ensures InStep(pre) && pre == if Absolute(path) then "~" else pre0
      ensures if Rest(path) == "" then dname == old(dname) && bname == old(bname)
              else Loading() == FileSave.DbName(old(Loading()), Rest(path))
    {
      pre := pre0;
      var rest := path;
      if path != "" && path[0] == '/' {
        cwd, cwPath := 0, "~";
        pre := "~";
        PathIsEmptyIff(a, 0);
        assert NodeOk(a, 0) && Clear(a, 0);
        rest := rest[1..];
      }
      if rest != "" {
        dname, bname := FileSave.DirName(rest), FileSave.BaseName(rest);
        if dname == "." { dname := ""; }
        if bname == "." { bname := ""; }
      }
    }

    /** One turn of the loop of main(): start and pathname go together over every command line. */
    method Execute(cmd: Command, path: string)
      requires Valid()
      modifies this
      ensures Valid() && Now() == Run(old(Now()), cmd, path)
    {
      cwd, cwPath := start, pathname;
      dname, bname := "", "";
      ghost var s := Now();
      ghost var pre := Parse(path, prefix);
      assert dname == DirPart(path) && bname == BasePart(path);
      LocateDir(dname, pre);
      dname := Cut(dname, '/');  // strtok() writes into it
      if cwd == NIL { return; }
      assert Where(s, path) == Some(cwd);
      hide Represents, Clear, Where, DirPart, BasePart, Rest;
      Perform(cmd, path, pre);
    }

    /** The command, in the directory to which the path leads. */
    method Perform(cmd: Command, path: string, ghost pre: string)
      requires InStep(pre) && pre == if Absolute(path) then "~" else prefix
      requires Where(Now(), path) == Some(cwd) && dname == Cut(DirPart(path), '/') && bname == BasePart(path)
      modifies this
      ensures Valid() && Now() == Run(old(Now()), cmd, path)
    {
      hide Represents, Where, DirPart, BasePart, Rest, Change;
      match cmd
      case Cd => var moved := Cd(bname, pre);
      case Reload(None) =>
      case Reload(Some(text)) => Reload(text);
      case _ => Edited(cmd, bname);
    }

    /** fptr[index](bname), for the commands that change one directory. */
    method Edited(cmd: Command, bname: string)
      requires Valid() && 0 <= cwd < |a| && a[cwd].kind == D && !cmd.Cd? && !cmd.Reload?
      modifies this`node, this`a
      ensures Valid() && a == Change(old(a), cwd, EditOf(cmd, bname))
    {
      var done;
      match cmd
      case Mkdir => done := Make(D, bname);
      case Creat => done := Make(F, bname);
      case Rmdir => done := Remove(D, bname);
      case Rm => done := Remove(F, bname);
    }

    /** reload(): a new root, and the loop over the lines of the file.  pathname stays. */
    method Reload(text: string)
      requires Valid()
      modifies this
      ensures Valid() && start == 0 && pathname == old(pathname) && prefix == old(pathname)
      ensures a == FileSave.RunLines(FileSave.Session(FileSave.Initial(old(pathname)), old(dname), old(bname)),
                                     FileSave.Lines(text)).nodes
    {
      Initialize();
      ghost var s0 := Loading();
      var rest := text;
      while rest != ""
        invariant InStep(cwPath) && cwd == 0 && start == 0 && pathname == prefix == old(pathname)
        invariant FileSave.RunLines(Loading(), FileSave.Lines(rest)) == FileSave.RunLines(s0, FileSave.Lines(text))
        decreases |rest|
      {
        var n := Span(rest, '\n');
        ghost var lines := FileSave.Lines(rest);
        if n == |rest| {
          LoadLine(rest[..n - 1]);
          rest := "";
          assert lines[1..] == [];
        } else {
          LoadLine(rest[..n]);
          rest := rest[n + 1..];
          assert lines[1..] == FileSave.Lines(rest);
        }
      }
    }

    /** initialize() */
    method Initialize()
      requires Valid()
      modifies this`node, this`a, this`cwd, this`start, this`prefix
      ensures InStep(cwPath) && cwd == 0 && start == 0 && prefix == pathname
      ensures a == FileSave.Initial(pathname)
    {
      node := [Record(pathname, D, NIL, NIL, NIL)];
      cwd, start := 0, 0;
      a, prefix := FileSave.Initial(pathname), pathname;
      assert Holds(node, 0, a[0]);
      PathIsEmptyIff(a, 0);
      assert NodeOk(a, 0) && Clear(a, 0);
    }

    /** One turn of that loop. */
    method LoadLine(line: string)
      requires InStep(cwPath) && cwd == 0 && start == 0 && pathname == prefix
      modifies this
      ensures InStep(cwPath) && cwd == 0 && start == 0 && pathname == prefix == old(pathname)
      ensures Loading() == FileSave.RunLine(old(Loading()), line)
    {
      var words := Tokens(line, ' ');
      if |words| < 2 { return; }
      ghost var s := Loading();
      ghost var pre := Parse(words[1], cwPath);
      LineParts(s, line, Loading());
      MakeAt(if words[0][0] == 'F' then F else D, pre);
    }

    /** The rest of it: locateDir(), the command, and the way back to the root. */
    method MakeAt(kind: Kind, ghost pre: string)
      requires InStep(pre) && cwd == 0 && start == 0 && pathname == prefix
      modifies this`cwd, this`cwPath, this`dname, this`node, this`a
      ensures InStep(cwPath) && cwd == 0 && dname == Cut(old(dname), '/')
      ensures var c := Locate(old(a), 0, Tokens(old(dname), '/'));
              a == if c.None? then old(a) else FileTree.Make(old(a), c.value, kind, bname)
    {
      LocateDir(dname, pre);
      dname := Cut(dname, '/');
      if cwd != NIL {
        var made := Make(kind, bname);
      }
      cwd := 0;
      PathIsEmptyIff(a, 0);
      assert NodeOk(a, 0) && Clear(a, 0);
    }

    /** The loop of main(), over any command lines. */
    method RunLines(lines: seq<Line>)
      requires Valid()
      modifies this
      ensures Valid() && Now() == RunAll(old(Now()), lines)
    {
      ghost var s0 := Now();
      var input := lines;
      while input != []
        invariant Valid() && RunAll(Now(), input) == RunAll(s0, lines)
        decreases |input|
      {
        Execute(input[0].0, input[0].1);
        input := input[1..];
      }
    }
  }
}
