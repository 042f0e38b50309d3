/** What paths mean and what each command line of Lab2/Lab2.c does, in the terms of the tree of nodes
    and the ordered trees only. */
module FileLaws {
  import opened Text
  import opened FileTree
  import opened FilePaths
  import opened FileRuns
  import FileSave

  // ---------------------------------------------------------------- ".."

  lemma {:induction false} OneStep(a: Nodes, i: nat, token: string)
    requires Ok(a) && i < |a|
    ensures Locate(a, i, [token]) == Down(a, i, token)
  {
    var none: seq<string> := [];
    assert [token][1..] == none;
    if Down(a, i, token).Some? { assert Locate(a, Down(a, i, token).value, none) == Down(a, i, token); }
  }

  /** ".." leads from a child to its parent. */
  lemma {:induction false} UpIsParent(a: Nodes, i: nat, k: nat)
    requires Ok(a) && i < |a| && k < |a| && k in a[i].kids
    ensures Locate(a, k, [".."]) == Some(i)
  {
    var j :| 0 <= j < |a[i].kids| && a[i].kids[j] == k;
    assert NodeOk(a, i) && KidOk(a, i, a[i].kids[j]);
    OneStep(a, k, "..");
  }

  /** Below the root it takes the last name off; in the root it is a name like any other. */
  lemma {:induction false} UpDropsAName(a: Nodes, i: nat)
    requires Ok(a) && i < |a|
    ensures i != 0 ==>
              var up := Locate(a, i, [".."]);
              up.Some? && NamesTo(a, i) != [] && NamesTo(a, up.value) == NamesTo(a, i)[..|NamesTo(a, i)| - 1]
    ensures i == 0 ==>
              match Locate(a, 0, [".."])
              case None => forall k :: k in a[0].kids && k < |a| && a[k].kind == D ==> a[k].name != ".."
              case Some(k) => k in a[0].kids && a[k].kind == D && a[k].name == ".."
  {
    assert NodeOk(a, i);
    if i != 0 {
      var p := a[i].parent;
      OneStep(a, i, "..");
      assert NodeOk(a, p) && NamesTo(a, i) == NamesTo(a, p) + [a[i].name];
    } else {
      PlainStep(a, 0, "..");
    }
  }

  /** Any other token is the name of a child directory. */
  lemma {:induction false} PlainStep(a: Nodes, i: nat, token: string)
    requires Ok(a) && i < |a| && (token != ".." || i == 0)
    ensures match Locate(a, i, [token])
            case None => forall k :: k in a[i].kids && k < |a| && a[k].kind == D ==> a[k].name != token
            case Some(k) => k in a[i].kids && a[k].kind == D && a[k].name == token
  {
    OneStep(a, i, token);
    var p := Place(a, a[i].kids, D, token);
    if p < |a[i].kids| {
      assert a[i].kids[p] in a[i].kids;
    } else {
      forall k | k in a[i].kids && k < |a| && a[k].kind == D ensures a[k].name != token {
        var j: nat :| j < |a[i].kids| && a[i].kids[j] == k;
      }
    }
  }

  // ---------------------------------------------------------------- path texts

  /** The text of these names as a path from the root, or from start. */
  function PathText(absolute: bool, names: seq<string>): string {
    if absolute then Prefixed(names, '/') else Join(names, '/')
  }

  /** Names of directories on a path; dirname() gives "." alone for a path without a slash. */
  predicate DirNames(names: seq<string>) {
    Words(names, '/') && names != ["."]
  }

  lemma {:induction false} RestOf(absolute: bool, names: seq<string>)
    requires names != [] && Words(names, '/')
    ensures var path := PathText(absolute, names);
            Absolute(path) == absolute && Rest(path) == Join(names, '/') && Join(names, '/') != ""
  {
    JoinEnd(names, '/');
    PrefixedIsJoin(names, '/');
    assert (['/'] + Join(names, '/'))[1..] == Join(names, '/');
  }

  /** The directory and the last name of a path. */
  lemma {:induction false} PartsAre(absolute: bool, names: seq<string>, w: string)
    requires DirNames(names) && Word(w, '/')
    ensures var path := PathText(absolute, names + [w]);
            && Absolute(path) == absolute && Tokens(DirPart(path), '/') == names
            && BasePart(path) == if w == "." then "" else w
  {
    var path, d := PathText(absolute, names + [w]), Join(names, '/');
    RestOf(absolute, names + [w]);
    JoinAppend(names, w, '/');
    if names == [] {
      FileSave.PartsOf("", w);
    } else {
      JoinEnd(names, '/');
      FileSave.PartsOf(d, w);
      TokensJoin(names, '/');
      if d == "." { DotIsOneName(names); }
    }
  }

  lemma {:induction false} DotIsOneName(names: seq<string>)
    requires Words(names, '/') && Join(names, '/') == "."
    ensures names == ["."]
  {
    TokensJoin(names, '/');
    TokensWord(".", "", '/');
    assert "." + "" == ".";
  }

  /** Where a command is run: the names of its path but the last are looked up from the root for
      an absolute path, and from start for any other. */
  lemma {:induction false} PlaceOfPath(s: Sim, absolute: bool, names: seq<string>, w: string)
    requires Sane(s) && DirNames(names) && Word(w, '/')
    ensures Where(s, PathText(absolute, names + [w])) == Locate(s.nodes, if absolute then 0 else s.start, names)
  {
    PartsAre(absolute, names, w);
  }

  /** A slash behind a path that is not "" or "/" makes no difference, and neither does a second one in
      front of the last name. */
  lemma {:induction false} SlashesMakeNoDifference(s: Sim, cmd: Command, path: string)
    requires Sane(s) && Rest(path) != ""
    ensures Run(s, cmd, path + "/") == Run(s, cmd, path)
  {
    SameParts(path);
    assert Absolute(path + "/") == Absolute(path);
    hide DirPart, BasePart, Sane, Change;
  }

  lemma {:induction false} SameParts(path: string)
    requires Rest(path) != ""
    ensures DirPart(path + "/") == DirPart(path) && BasePart(path + "/") == BasePart(path)
  {
    var rest := Rest(path);
    assert Rest(path + "/") == rest + "/";
    assert (rest + "/")[..|rest + "/"| - 1] == rest;
    hide Rest, FileSave.AfterSlash;
    assert FileSave.StripSlashes(rest + "/") == FileSave.StripSlashes(rest);
  }

  lemma {:induction false} SecondSlash(d: string, w: string)
    requires Word(w, '/') && d != "" && d[|d| - 1] != '/'
    ensures FileSave.DirName(d + "//" + w) == d && FileSave.BaseName(d + "//" + w) == w
  {
    var front := d + "//";
    var rel := front + w;
    FileSave.AfterSlashWord(front, w);
    assert w[|w| - 1] in w && rel[|rel| - 1] == w[|w| - 1];
    assert front[..|front| - 1] == d + "/" && (d + "/")[..|d|] == d;
    assert rel[..|front|] == front && rel[|front|..] == w;
    assert FileSave.StripSlashes(rel) == rel && FileSave.StripSlashes(front) == FileSave.StripSlashes(d + "/") == d;
  }

  // ---------------------------------------------------------------- mkdir, creat, rmdir, rm

  /** mkdir appends a directory and creat a file to the directory that the path leads to, unless
      there is one of the name; rmdir removes a directory and rm a file there, unless it has
      children.  Nothing else changes, and nothing at all when the path leads nowhere. */
  lemma {:induction false} EditsDo(s: Sim, absolute: bool, names: seq<string>, w: string)
    requires Good(s) && DirNames(names) && Word(w, '/') && w != "."
    ensures var path, ts := PathText(absolute, names + [w]), TreesOf(s.nodes, 0, 0);
            match Locate(s.nodes, if absolute then 0 else s.start, names)
            case None => Run(s, Mkdir, path) == Run(s, Creat, path) == Run(s, Rmdir, path) == Run(s, Rm, path) == s
            case Some(c) =>
              && TreesOf(Run(s, Mkdir, path).nodes, 0, 0) == EditAt(ts, NamesTo(s.nodes, c), Plus(D, w))
              && TreesOf(Run(s, Creat, path).nodes, 0, 0) == EditAt(ts, NamesTo(s.nodes, c), Plus(F, w))
              && TreesOf(Run(s, Rmdir, path).nodes, 0, 0) == EditAt(ts, NamesTo(s.nodes, c), Minus(D, w))
              && TreesOf(Run(s, Rm, path).nodes, 0, 0) == EditAt(ts, NamesTo(s.nodes, c), Minus(F, w))
  {
    var path := PathText(absolute, names + [w]);
    PlaceOfPath(s, absolute, names, w);
    PartsAre(absolute, names, w);
    hide Good, Where, DirPart, BasePart, PathText, TreesOf, EditAt, Change, Locate;
    if Where(s, path).Some? {
      LineIsEdit(s, Mkdir, path);
      LineIsEdit(s, Creat, path);
      LineIsEdit(s, Rmdir, path);
      LineIsEdit(s, Rm, path);
    }
  }

  /** Those edits, in the list of the directory: i is the place of the first node of the kind and
      name, or the length of the list. */
  lemma {:induction false} EditHereIs(ts: seq<Tree>, kind: Kind, name: string, i: nat)
    requires i <= |ts| && forall j :: 0 <= j < i ==> !(ts[j].kind == kind && ts[j].name == name)
    requires i < |ts| ==> ts[i].kind == kind && ts[i].name == name
    ensures EditAt(ts, [], Plus(kind, name)) == if i < |ts| then ts else ts + [Tree(kind, name, [])]
    ensures EditAt(ts, [], Minus(kind, name)) == if i < |ts| && ts[i].kids == [] then ts[..i] + ts[i + 1..] else ts
  {
    var p := TreePlace(ts, kind, name);
    assert p == i;
  }

  /** A command below the i-th tree changes its children only. */
  lemma {:induction false} EditBelowIs(ts: seq<Tree>, names: seq<string>, e: Edit, i: nat)
    requires names != [] && i < |ts| && ts[i].kind == D && ts[i].name == names[0]
    requires forall j :: 0 <= j < i ==> !(ts[j].kind == D && ts[j].name == names[0])
    ensures var ts' := EditAt(ts, names, e);
            && |ts'| == |ts| && (forall j :: 0 <= j < |ts| && j != i ==> ts'[j] == ts[j])
            && ts'[i] == Tree(D, names[0], EditAt(ts[i].kids, names[1..], e))
  {
    var p := TreePlace(ts, D, names[0]);
    assert p == i;
  }

  // ---------------------------------------------------------------- cd

  /** cd of a path moves start to the directory that all its names lead to, or nowhere. */
  lemma {:induction false} CdDoes(s: Sim, absolute: bool, names: seq<string>, w: string)
    requires Good(s) && DirNames(names) && Word(w, '/') && w != "."
    ensures Run(s, Cd, PathText(absolute, names + [w])) ==
            match Locate(s.nodes, if absolute then 0 else s.start, names + [w])
            case None => s
            case Some(i) => s.(start := i)
  {
    var path, from := PathText(absolute, names + [w]), if absolute then 0 else s.start;
    PlaceOfPath(s, absolute, names, w);
    PartsAre(absolute, names, w);
    LocateAppend(s.nodes, from, names, w);
    TokensWord(w, "", '/');
    assert w + "" == w;
    if Locate(s.nodes, from, names).Some? { OneStep(s.nodes, Locate(s.nodes, from, names).value, w); }
  }

  /** cd without a path, cd of "/" and cd of "." go to the root. */
  lemma {:induction false} CdHome(s: Sim)
    requires Good(s)
    ensures Run(s, Cd, "") == Run(s, Cd, "/") == Run(s, Cd, ".") == s.(start := 0)
  {
    assert Rest("/") == "" && Rest(".") == ".";
    FileSave.PartsOf("", ".");
    assert Locate(s.nodes, s.start, []) == Some(s.start) && Locate(s.nodes, 0, []) == Some(0);
  }

  /** `cd ..` cuts pathname at its last slash; in the root it looks for a directory of this name. */
  lemma {:induction false} CdUp(s: Sim)
    requires Good(s)
    ensures s.start != 0 ==>
              && '/' in Pathname(s) && Pathname(Run(s, Cd, "..")) == CutLast(Pathname(s))
              && s.nodes[s.start].parent == Run(s, Cd, "..").start
    ensures s.start == 0 ==>
              var s' := Run(s, Cd, "..");
              || (s' == s && forall k :: k in s.nodes[0].kids && k < |s.nodes| && s.nodes[k].kind == D ==> s.nodes[k].name != "..")
              || (s' == s.(start := s'.start) && s'.start in s.nodes[0].kids && s.nodes[s'.start].name == "..")
  {
    var a, none: seq<string> := s.nodes, [];
    CdDoes(s, false, none, "..");
    assert none + [".."] == [".."] && Join([".."], '/') == "..";
    UpDropsAName(a, s.start);
    assert NodeOk(a, s.start);
    if s.start != 0 {
      OneStep(a, s.start, "..");
      assert '/' !in a[s.start].name;
      CutIsParent(a, s.start, "~");
    }
  }

  /** cd along names of directories appends them to pathname. */
  lemma {:induction false} CdDown(s: Sim, names: seq<string>, w: string)
    requires Good(s) && DirNames(names) && Word(w, '/') && w != "." && ".." !in names + [w]
    requires Locate(s.nodes, s.start, names + [w]).Some?
    ensures Pathname(Run(s, Cd, Join(names + [w], '/'))) == Pathname(s) + Prefixed(names + [w], '/')
  {
    CdDoes(s, false, names, w);
    MovedPath(s, names + [w]);
    assert PathText(false, names + [w]) == Join(names + [w], '/');
    hide *;
  }

  lemma {:induction false} MovedPath(s: Sim, names: seq<string>)
    requires Good(s) && ".." !in names && Locate(s.nodes, s.start, names).Some?
    ensures var s' := s.(start := Locate(s.nodes, s.start, names).value);
            s'.nodes[s'.start].kind == D ==> Sane(s') && Pathname(s') == Pathname(s) + Prefixed(names, '/')
  {
    var a, i := s.nodes, Locate(s.nodes, s.start, names).value;
    NamesGrow(a, s.start, names);
    PrefixedJoins(NamesTo(a, s.start), names);
    hide Locate, Prefixed, NamesTo, SlashFree, Attached, Clear;
    var p, q := PathTo(a, s.start), Prefixed(names, '/');
    assert PathTo(a, i) == p + q && "~" + (p + q) == ("~" + p) + q;
  }

  lemma {:induction false} NamesGrow(a: Nodes, i: nat, names: seq<string>)
    requires Ok(a) && i < |a| && ".." !in names && Locate(a, i, names).Some?
    ensures NamesTo(a, Locate(a, i, names).value) == NamesTo(a, i) + names
    decreases |names|
  {
    if names == [] {
      assert NamesTo(a, i) + names == NamesTo(a, i);
    } else {
      var k := Down(a, i, names[0]).value;
      assert NodeOk(a, i) && KidOk(a, i, k) && NodeOk(a, k);
      NamesGrow(a, k, names[1..]);
      assert NamesTo(a, i) + [names[0]] + names[1..] == NamesTo(a, i) + names;
    }
  }

  lemma {:induction false} PrefixedJoins(a: seq<string>, b: seq<string>)
    ensures Prefixed(a + b, '/') == Prefixed(a, '/') + Prefixed(b, '/')
  {
    if a == [] {
      assert a + b == b;
    } else {
      assert (a + b)[1..] == a[1..] + b;
      PrefixedJoins(a[1..], b);
    }
  }

  // ---------------------------------------------------------------- save and reload

  /** The text of a tree: one line for each entry, its letter and its path from the root. */
  lemma {:induction false} SavedLines(a: Nodes)
    requires Ok(a) && FileSave.ValidForest(TreesOf(a, 0, 0))
    ensures var es, lines := FileSave.Entries(TreesOf(a, 0, 0), []), FileSave.Lines(FileSave.Save(a));
            && |lines| == |es|
            && forall i :: 0 <= i < |es| ==>
                 lines[i] == (if es[i].kind == D then "D " else "F ") + Prefixed(es[i].path + [es[i].name], '/')
  {
    var ts := TreesOf(a, 0, 0);
    assert Prefixed([], '/') == "";
    FileSave.SaveIsText(ts, []);
    FileSave.EntriesValid(ts, []);
    FileSave.LinesOfText(FileSave.Entries(ts, []));
    forall i | 0 <= i < |FileSave.Entries(ts, [])|
      ensures FileSave.LineOf(FileSave.Entries(ts, [])[i])
              == (if FileSave.Entries(ts, [])[i].kind == D then "D " else "F ")
                 + Prefixed(FileSave.Entries(ts, [])[i].path + [FileSave.Entries(ts, [])[i].name], '/')
    {
      var e := FileSave.Entries(ts, [])[i];
      LetterIs(e.kind);
    }
  }

  lemma {:induction false} LetterIs(kind: Kind)
    ensures FileSave.Letter(kind) + " " == if kind == D then "D " else "F "
  {
    assert "D" + " " == "D " && "F" + " " == "F ";
  }

  /** A directory stands before what is in it, and that before its next sibling. */
  lemma {:induction false} SavedOrder()
    ensures FileSave.SaveTree([Tree(D, "a", [Tree(F, "b", [])]), Tree(D, "c", [])], "") == "D /a\nF /a/b\nD /c\n"
  {
    var none: seq<Tree> := [];
    var b, c := [Tree(F, "b", none)], [Tree(D, "c", none)];
    OneSaved(Tree(F, "b", none), [], "/a");
    OneSaved(Tree(D, "c", none), [], "");
    OneSaved(Tree(D, "a", b), c, "");
    assert [Tree(F, "b", none)] + [] == b && [Tree(D, "c", none)] + [] == c;
    assert [Tree(D, "a", b)] + c == [Tree(D, "a", b), Tree(D, "c", none)];
    hide FileSave.SaveTree;
    assert "" + "/" + "a" == "/a" && "" + "/" + "c" == "/c" && "/a" + "/" + "b" == "/a/b";
  }

  lemma {:induction false} OneSaved(t: Tree, ts: seq<Tree>, path: string)
    ensures FileSave.SaveTree([t] + ts, path)
            == (if t.kind == D then "D " else "F ") + (path + "/" + t.name) + "\n"
               + FileSave.SaveTree(t.kids, path + "/" + t.name) + FileSave.SaveTree(ts, path)
    ensures FileSave.SaveTree([], path) == ""
  {
    assert ([t] + ts)[1..] == ts;
    LetterIs(t.kind);
  }

  /** A line of the file that has a name does what mkdir or creat does with its path in a session that stands
      in the root. */
  lemma {:induction false} LineIsCommand(s: FileSave.Session, kind: Kind, path: string)
    requires Ok(s.nodes) && s.nodes[0].kind == D && Rest(path) != ""
    ensures FileSave.RunCommand(s, kind, path).nodes == Run(Sim(s.nodes, 0, "~"), if kind == D then Mkdir else Creat, path).nodes
  {
    hide FileSave.DirName, FileSave.BaseName, Make, Tokens;
  }

  /** A last line without an end loses its last character. */
  lemma {:induction false} LastLineIsCut(line: string)
    requires line != "" && '\n' !in line
    ensures FileSave.Lines(line) == [line[..|line| - 1]]
  {
    SpanWord(line, "", '\n');
    assert line + "" == line;
  }

  /** reload of a saved file, wherever it is named: the tree is the saved one, start is its root and
      pathname stays.  Of a file that cannot be opened, nothing. */
  lemma {:induction false} ReloadDoes(s: Sim, a: Nodes, path: string)
    requires Sane(s) && Ok(a) && FileSave.ValidForest(TreesOf(a, 0, 0)) && Where(s, path).Some?
    ensures var s' := Run(s, Reload(Some(FileSave.Save(a))), path);
            TreesOf(s'.nodes, 0, 0) == TreesOf(a, 0, 0) && s'.start == 0 && Pathname(s') == Pathname(s)
    ensures Run(s, Reload(None), path) == s
  {
    hide FileSave.ValidForest, FileSave.Save, DirPart, BasePart, Where;
    FileSave.SaveReload(a, Pathname(s), Cut(DirPart(path), '/'), BasePart(path));
  }

  // ---------------------------------------------------------------- runs

  /** A run goes on where its first part ended. */
  lemma {:induction false} RunAppend(s: Sim, a: seq<Line>, b: seq<Line>)
    requires Sane(s)
    ensures RunAll(s, a + b) == RunAll(RunAll(s, a), b)
    ensures |a| == 1 ==> RunAll(s, a) == Run(s, a[0].0, a[0].1)
    decreases |a|
  {
    hide Run, Sane;
    if a == [] {
      assert a + b == b;
    } else {
      assert (a + b)[1..] == a[1..] + b;
      RunAppend(Run(s, a[0].0, a[0].1), a[1..], b);
      if |a| == 1 { assert a[1..] == []; }
    }
  }
}
