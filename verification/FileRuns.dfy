/** Whole runs of the file-tree simulator: main(), runCommand() and cd() of Lab2/Lab2.c. */
module FileRuns {
  import opened Text
  import opened FileTree
  import opened FilePaths
  import FileSave

  /** Reload carries the text of the file, if it can be opened. */
  datatype Command = Mkdir | Rmdir | Creat | Rm | Cd | Reload(file: Option<string>)

  /** The state between two commands: the nodes, `start`, and the text in front of the path of
      start in pathname, which is to be "~". */
  datatype Sim = Sim(nodes: Nodes, start: nat, prefix: string)

  /** The nodes are well formed and start is a directory node. */
  predicate Sane(s: Sim) {
    Ok(s.nodes) && s.start < |s.nodes| && s.nodes[s.start].kind == D
  }

  function Pathname(s: Sim): string
    requires Sane(s)
  {
    s.prefix + PathTo(s.nodes, s.start)
  }

  // ---------------------------------------------------------------- a command line

  predicate Absolute(path: string) {
    path != "" && path[0] == '/'
  }

  function Rest(path: string): string {
    if Absolute(path) then path[1..] else path
  }

  /** dname and bname, which are empty at the start of each command. */
  function DirPart(path: string): string {
    var rest := Rest(path);
    if rest == "" || FileSave.DirName(rest) == "." then "" else FileSave.DirName(rest)
  }

  function BasePart(path: string): string {
    var rest := Rest(path);
    if rest == "" || FileSave.BaseName(rest) == "." then "" else FileSave.BaseName(rest)
  }

  /** The directory in which the command is run. */
  function Where(s: Sim, path: string): (r: Option<nat>)
    requires Sane(s)
    ensures r.Some? ==> r.value < |s.nodes| && s.nodes[r.value].kind == D
  {
    FileSave.LocateKind(s.nodes, if Absolute(path) then 0 else s.start, Tokens(DirPart(path), '/'));
    Locate(s.nodes, if Absolute(path) then 0 else s.start, Tokens(DirPart(path), '/'))
  }

  function EditOf(cmd: Command, name: string): Edit
    requires !cmd.Cd? && !cmd.Reload?
  {
    match cmd
    case Mkdir => Plus(D, name)
    case Creat => Plus(F, name)
    case Rmdir => Minus(D, name)
    case Rm => Minus(F, name)
  }

  /** cd() in directory c. */
  function Move(s: Sim, c: nat, path: string): (s': Sim)
    requires Sane(s) && c < |s.nodes| && s.nodes[c].kind == D
    ensures Sane(s') && s'.nodes == s.nodes
  {
    var b := BasePart(path);
    if b == "" then s.(start := 0, prefix := "~")
    else
      FileSave.LocateKind(s.nodes, c, Tokens(b, '/'));
      match Locate(s.nodes, c, Tokens(b, '/'))
      case None => s
      case Some(i) => s.(start := i, prefix := if Absolute(path) then "~" else s.prefix)
  }

  /** reload(): a new root gets the name that pathname is at the time; start is the new root
      and pathname stays. */
  function Load(s: Sim, text: string, path: string): (s': Sim)
    requires Sane(s)
    ensures Sane(s') && s'.start == 0 && Pathname(s') == Pathname(s)
  {
    var name := Pathname(s);
    var a := FileSave.RunLines(FileSave.Session(FileSave.Initial(name), Cut(DirPart(path), '/'), BasePart(path)),
                               FileSave.Lines(text)).nodes;
    assert NodeOk(a, 0) && PathTo(a, 0) == "";
    Sim(a, 0, name)
  }

  /** One command line. */
  function Run(s: Sim, cmd: Command, path: string): (s': Sim)
    requires Sane(s)
    ensures Sane(s')
  {
    match Where(s, path)
    case None => s
    case Some(c) =>
      match cmd
      case Cd => Move(s, c, path)
      case Reload(None) => s
      case Reload(Some(text)) => Load(s, text, path)
      case _ =>
        ChangeOk(s.nodes, c, EditOf(cmd, BasePart(path)));
        KindsKept(s.nodes, c, EditOf(cmd, BasePart(path)), s.start);
        s.(nodes := Change(s.nodes, c, EditOf(cmd, BasePart(path))))
  }

  lemma {:induction false} KindsKept(a: Nodes, c: nat, e: Edit, x: nat)
    requires c < |a| && x < |a|
    ensures var n := Change(a, c, e)[x]; n.name == a[x].name && n.kind == a[x].kind && n.parent == a[x].parent
  {
  }

  /** Commands do not rename or move nodes, so the path of a node stays. */
  lemma {:induction false} NamesKept(a: Nodes, c: nat, e: Edit, x: nat)
    requires Ok(a) && c < |a| && a[c].kind == D && x < |a|
    ensures Ok(Change(a, c, e)) && NamesTo(Change(a, c, e), x) == NamesTo(a, x)
    decreases x
  {
    ChangeOk(a, c, e);
    KindsKept(a, c, e, x);
    assert NodeOk(a, x) && NodeOk(Change(a, c, e), x);
    if x != 0 { NamesKept(a, c, e, a[x].parent); }
  }

  // ---------------------------------------------------------------- what every run keeps

  /** No name but the root's has a slash. */
  predicate SlashFree(a: Nodes) {
    forall i :: 1 <= i < |a| ==> '/' !in a[i].name
  }

  /** The tree is well formed, names have no slash, start is a directory of the tree that its
      own path leads to, and pathname is "~" with that path. */
  predicate Good(s: Sim) {
    Sane(s) && SlashFree(s.nodes) && Attached(s.nodes, s.start) && Clear(s.nodes, s.start) && s.prefix == "~"
  }

  predicate AllSlashes(p: string) {
    p != "" && forall i :: 0 <= i < |p| ==> p[i] == '/'
  }

  /** A line of a file names "/" again: by its path, or by none after a line that did (or, with
      `b`, after the command line). */
  predicate LoadsSlash(b: bool, lines: seq<string>) {
    lines != [] &&
    var words := Tokens(lines[0], ' ');
    if |words| < 2 then LoadsSlash(b, lines[1..])
    else if Rest(words[1]) == "" then b || LoadsSlash(b, lines[1..])
    else AllSlashes(Rest(words[1])) || LoadsSlash(false, lines[1..])
  }

  /** mkdir or creat of a path of two or more slashes only, or a file with such a line. */
  predicate MakesSlash(s: Sim, cmd: Command, path: string)
    requires Sane(s)
  {
    match cmd
    case Mkdir => AllSlashes(Rest(path))
    case Creat => AllSlashes(Rest(path))
    case Reload(Some(text)) => Where(s, path).Some? && LoadsSlash(AllSlashes(Rest(path)), FileSave.Lines(text))
    case _ => false
  }

  /** rmdir of the directory that start stands in, when it is empty. */
  predicate RemovesStart(s: Sim, cmd: Command, path: string)
    requires Sane(s)
  {
    && cmd.Rmdir? && s.nodes[s.start].kids == []
    && match Where(s, path)
       case None => false
       case Some(c) =>
         var kids := s.nodes[c].kids;
         var p := Place(s.nodes, kids, D, BasePart(path));
         p < |kids| && kids[p] == s.start
  }

  /** A reload that takes place while start is not the root. */
  predicate ReloadsAway(s: Sim, cmd: Command, path: string)
    requires Sane(s)
  {
    cmd.Reload? && cmd.file.Some? && Where(s, path).Some? && s.start != 0
  }

  predicate Careful1(s: Sim, cmd: Command, path: string)
    requires Sane(s)
  {
    !MakesSlash(s, cmd, path) && !RemovesStart(s, cmd, path) && !ReloadsAway(s, cmd, path)
  }

  lemma {:induction false} StripIsEmptyIff(p: string)
    ensures FileSave.StripSlashes(p) == "" <==> forall i :: 0 <= i < |p| ==> p[i] == '/'
  {
    if p != "" && p[|p| - 1] == '/' {
      StripIsEmptyIff(p[..|p| - 1]);
    } else if p != "" {
      assert p[|p| - 1] != '/';
    }
  }

  lemma {:induction false} BaseHasSlashIff(rest: string)
    requires rest != ""
    ensures '/' in FileSave.BaseName(rest) <==> AllSlashes(rest)
    ensures AllSlashes(rest) ==> FileSave.BaseName(rest) == "/" && FileSave.DirName(rest) == "/" && Tokens("/", '/') == []
  {
    StripIsEmptyIff(rest);
    var q := FileSave.StripSlashes(rest);
    if q != "" {
      var b := q[FileSave.AfterSlash(q)..];
      forall i | 0 <= i < |b| ensures b[i] != '/' { assert b[i] == q[FileSave.AfterSlash(q) + i]; }
    } else {
      assert Tokens("/"[1..], '/') == [];
    }
  }

  lemma {:induction false} LocateAttached(a: Nodes, i: nat, tokens: seq<string>)
    requires Ok(a) && i < |a| && Attached(a, i)
    ensures Locate(a, i, tokens).Some? ==> Attached(a, Locate(a, i, tokens).value)
    decreases |tokens|
  {
    if tokens != [] {
      var d := Down(a, i, tokens[0]);
      assert NodeOk(a, i);
      if d.Some? {
        if tokens[0] != ".." || i == 0 { assert KidOk(a, i, d.value) && d.value in a[i].kids; }
        LocateAttached(a, d.value, tokens[1..]);
      }
    }
  }

  lemma {:induction false} MakeAttached(a: Nodes, i: nat, kind: Kind, name: string, x: nat)
    requires Ok(a) && i < |a| && x < |a| && Attached(a, x) && a[i].kind == D
    ensures Ok(Make(a, i, kind, name)) && Attached(Make(a, i, kind, name), x)
    decreases x
  {
    MakeOk(a, i, kind, name);
    assert NodeOk(a, x) && NodeOk(Make(a, i, kind, name), x);
    if x != 0 { MakeAttached(a, i, kind, name, a[x].parent); }
  }

  lemma {:induction false} MakeSlashFreeIff(a: Nodes, c: nat, kind: Kind, name: string)
    requires Ok(a) && SlashFree(a) && c < |a|
    ensures SlashFree(Make(a, c, kind, name)) <==> '/' !in name
  {
    var a' := Make(a, c, kind, name);
    if Has(a, c, kind, name) {
      var k := a[c].kids[Place(a, a[c].kids, kind, name)];
      assert NodeOk(a, c) && KidOk(a, c, k) && a[k].name == name;
    } else {
      assert a'[|a|].name == name;
      forall i | 0 <= i < |a| ensures a'[i].name == a[i].name { }
    }
  }

  lemma {:induction false} MakeKeepsIff(s: Sim, c: nat, kind: Kind, name: string)
    requires Good(s) && c < |s.nodes| && s.nodes[c].kind == D
    ensures Good(s.(nodes := Make(s.nodes, c, kind, name))) <==> '/' !in name
  {
    MakeAttached(s.nodes, c, kind, name, s.start);
    MakeSlashFreeIff(s.nodes, c, kind, name);
    NamesKept(s.nodes, c, Plus(kind, name), s.start);
  }

  lemma {:induction false} RemoveKeepsIff(s: Sim, c: nat, kind: Kind, name: string)
    requires Good(s) && c < |s.nodes| && s.nodes[c].kind == D
    ensures var kids := s.nodes[c].kids;
            var p := Place(s.nodes, kids, kind, name);
            Good(s.(nodes := Remove(s.nodes, c, kind, name))) <==>
            !(kind == D && s.nodes[s.start].kids == [] && p < |kids| && kids[p] == s.start)
  {
    var a, a' := s.nodes, Remove(s.nodes, c, kind, name);
    RemoveDetaches(a, c, kind, name, s.start);
    NamesKept(a, c, Minus(kind, name), s.start);
    forall i | 0 <= i < |a| ensures a'[i].name == a[i].name && a'[i].kind == a[i].kind { }
    var kids, p := a[c].kids, Place(a, a[c].kids, kind, name);
    if p < |kids| && a[kids[p]].kids == [] { assert |a'[c].kids| == |kids| - 1; }
  }

  lemma {:induction false} MoveKeeps(s: Sim, c: nat, path: string)
    requires Good(s) && c < |s.nodes| && s.nodes[c].kind == D && Attached(s.nodes, c) && Clear(s.nodes, c)
    ensures Good(Move(s, c, path))
  {
    var b := BasePart(path);
    assert NodeOk(s.nodes, 0) && Attached(s.nodes, 0) && Clear(s.nodes, 0);
    LocateAttached(s.nodes, c, Tokens(b, '/'));
    LocateClear(s.nodes, c, Tokens(b, '/'));
  }

  // ---------------------------------------------------------------- reload

  lemma {:induction false} LineSlashKept(s: FileSave.Session, line: string)
    requires Ok(s.nodes) && !SlashFree(s.nodes)
    ensures !SlashFree(FileSave.RunLine(s, line).nodes)
  {
    var i :| 1 <= i < |s.nodes| && '/' in s.nodes[i].name;
    LineKeepsName(s, line, i);
  }

  lemma {:induction false} LineKeepsName(s: FileSave.Session, line: string, i: nat)
    requires Ok(s.nodes) && i < |s.nodes|
    ensures var a := FileSave.RunLine(s, line).nodes; i < |a| && a[i].name == s.nodes[i].name
  {
    var words := Tokens(line, ' ');
    if |words| >= 2 {
      var path, kind := words[1], if words[0][0] == 'F' then F else D;
      var s1 := if Rest(path) == "" then s else FileSave.DbName(s, Rest(path));
      var c := Locate(s.nodes, 0, Tokens(s1.dname, '/'));
      if c.Some? { KindsKept(s.nodes, c.value, Plus(kind, s1.bname), i); }
    }
  }

  lemma {:induction false} LinesSlashKept(s: FileSave.Session, lines: seq<string>)
    requires Ok(s.nodes) && !SlashFree(s.nodes)
    ensures !SlashFree(FileSave.RunLines(s, lines).nodes)
    decreases |lines|
  {
    if lines != [] {
      LineSlashKept(s, lines[0]);
      LinesSlashKept(FileSave.RunLine(s, lines[0]), lines[1..]);
    }
  }

  /** The names of the last command are "/" or have no slash. */
  predicate NamesAre(s: FileSave.Session, b: bool) {
    if b then s.bname == "/" && s.dname == "/" else '/' !in s.bname
  }

  /** A line of the file in its parts. */
  lemma {:induction false} LineParts(s: FileSave.Session, line: string, s1: FileSave.Session)
    requires Ok(s.nodes) && |Tokens(line, ' ')| >= 2
    requires var rest := Rest(Tokens(line, ' ')[1]); s1 == if rest == "" then s else FileSave.DbName(s, rest)
    ensures var words, c := Tokens(line, ' '), Locate(s.nodes, 0, Tokens(s1.dname, '/'));
            FileSave.RunLine(s, line) ==
            if c.None? then s1.(dname := Cut(s1.dname, '/'))
            else s1.(dname := Cut(s1.dname, '/'), nodes := Make(s.nodes, c.value, if words[0][0] == 'F' then F else D, s1.bname))
  {
  }

  lemma {:induction false} LoadLineIff(s: FileSave.Session, kind: Kind, path: string, b: bool)
    requires Ok(s.nodes) && SlashFree(s.nodes) && NamesAre(s, b)
    ensures var s', rest := FileSave.RunCommand(s, kind, path), Rest(path);
            && (SlashFree(s'.nodes) <==> !(if rest == "" then b else AllSlashes(rest)))
            && (SlashFree(s'.nodes) ==> NamesAre(s', b && rest == ""))
  {
    var rest := Rest(path);
    if rest != "" { BaseHasSlashIff(rest); }
    assert Tokens("/"[1..], '/') == [] == Tokens("/", '/') && Cut("/"[1..], '/') == "" && Cut("/", '/') == "/";
    var s1 := if rest == "" then s else FileSave.DbName(s, rest);
    var c := Locate(s.nodes, 0, Tokens(s1.dname, '/'));
    FileSave.LocateKind(s.nodes, 0, Tokens(s1.dname, '/'));
    if c.Some? { MakeSlashFreeIff(s.nodes, c.value, kind, s1.bname); }
  }

  lemma {:induction false} LoadIff(s: FileSave.Session, lines: seq<string>, b: bool)
    requires Ok(s.nodes) && SlashFree(s.nodes) && NamesAre(s, b)
    ensures SlashFree(FileSave.RunLines(s, lines).nodes) <==> !LoadsSlash(b, lines)
    decreases |lines|
  {
    if lines != [] {
      var words, s' := Tokens(lines[0], ' '), FileSave.RunLine(s, lines[0]);
      if |words| < 2 {
        LoadIff(s', lines[1..], b);
      } else {
        LoadLineIff(s, if words[0][0] == 'F' then F else D, words[1], b);
        if SlashFree(s'.nodes) {
          LoadIff(s', lines[1..], b && Rest(words[1]) == "");
        } else {
          LinesSlashKept(s', lines[1..]);
        }
      }
    }
  }

  lemma {:induction false} PathIsEmptyIff(a: Nodes, i: nat)
    requires Ok(a) && i < |a|
    ensures PathTo(a, i) == "" <==> i == 0
  {
    assert NodeOk(a, i);
    if i != 0 { PathOfChild(a, i); }
  }

  /** After a reload pathname is "~" with the path of start exactly when start was the root. */
  lemma {:induction false} LoadInStepIff(s: Sim, text: string, path: string)
    requires Sane(s) && s.prefix == "~"
    ensures Load(s, text, path).prefix == "~" <==> s.start == 0
  {
    PathIsEmptyIff(s.nodes, s.start);
    var p := PathTo(s.nodes, s.start);
    assert |"~" + p| == 1 + |p|;
    if p == "" { assert "~" + p == "~"; }
  }

  lemma {:induction false} LoadKeepsIff(s: Sim, text: string, path: string)
    requires Good(s)
    ensures Good(Load(s, text, path)) <==> s.start == 0 && !LoadsSlash(AllSlashes(Rest(path)), FileSave.Lines(text))
  {
    var rest, s' := Rest(path), Load(s, text, path);
    if rest != "" { BaseHasSlashIff(rest); }
    LoadInStepIff(s, text, path);
    var t := FileSave.Session(FileSave.Initial(Pathname(s)), Cut(DirPart(path), '/'), BasePart(path));
    assert Cut("/"[1..], '/') == "" && Cut("/", '/') == "/";
    LoadIff(t, FileSave.Lines(text), AllSlashes(rest));
    assert NodeOk(s'.nodes, 0) && Attached(s'.nodes, 0) && Clear(s'.nodes, 0);
  }

  // ---------------------------------------------------------------- the theorems

  /** A command line keeps all this exactly when it does not make a node named "/", does not
      remove start, and does not reload while start is away from the root. */
  lemma {:induction false} RunKeepsIff(s: Sim, cmd: Command, path: string)
    requires Good(s)
    ensures Good(Run(s, cmd, path)) <==> Careful1(s, cmd, path)
  {
    var a, from := s.nodes, if Absolute(path) then 0 else s.start;
    SlashAlwaysLocated(s, path);
    assert NodeOk(a, 0) && Attached(a, 0) && Clear(a, 0);
    LocateAttached(a, from, Tokens(DirPart(path), '/'));
    LocateClear(a, from, Tokens(DirPart(path), '/'));
    if Where(s, path).Some? { LocatedKeepsIff(s, cmd, path, Where(s, path).value); }
  }

  lemma {:induction false} SlashAlwaysLocated(s: Sim, path: string)
    requires Sane(s)
    ensures AllSlashes(Rest(path)) ==> Where(s, path).Some?
  {
    if AllSlashes(Rest(path)) { BaseHasSlashIff(Rest(path)); }
  }

  lemma {:induction false} LocatedKeepsIff(s: Sim, cmd: Command, path: string, c: nat)
    requires Good(s) && Where(s, path) == Some(c) && Attached(s.nodes, c) && Clear(s.nodes, c)
    ensures Good(Run(s, cmd, path)) <==> Careful1(s, cmd, path)
  {
    hide Good, Clear, Where, Make, Remove, Load, Move, Attached;
    match cmd {
      case Cd => MoveKeeps(s, c, path);
      case Reload(None) =>
      case Reload(Some(text)) => LoadKeepsIff(s, text, path);
      case _ => EditKeepsIff(s, cmd, path, c);
    }
  }

  lemma {:induction false} EditKeepsIff(s: Sim, cmd: Command, path: string, c: nat)
    requires Good(s) && Where(s, path) == Some(c) && !cmd.Cd? && !cmd.Reload?
    ensures Good(s.(nodes := Change(s.nodes, c, EditOf(cmd, BasePart(path))))) <==> Careful1(s, cmd, path)
  {
    var b := BasePart(path);
    if Rest(path) != "" { BaseHasSlashIff(Rest(path)); }
    assert '/' in b <==> AllSlashes(Rest(path));
    hide Good, Where, BasePart, Make, Remove, AllSlashes, Rest, LoadsSlash;
    match cmd {
      case Mkdir => MakeKeepsIff(s, c, D, b);
      case Creat => MakeKeepsIff(s, c, F, b);
      case Rmdir => RemoveKeepsIff(s, c, D, b);
      case Rm => RemoveKeepsIff(s, c, F, b);
    }
  }

  type Line = (Command, string)

  function RunAll(s: Sim, lines: seq<Line>): (s': Sim)
    requires Sane(s)
    ensures Sane(s')
    decreases |lines|
  {
    if lines == [] then s else RunAll(Run(s, lines[0].0, lines[0].1), lines[1..])
  }

  predicate Careful(s: Sim, lines: seq<Line>)
    requires Sane(s)
    decreases |lines|
  {
    lines == []
    || (Careful1(s, lines[0].0, lines[0].1) && Careful(Run(s, lines[0].0, lines[0].1), lines[1..]))
  }

  predicate AlwaysGood(s: Sim, lines: seq<Line>)
    requires Sane(s)
    decreases |lines|
  {
    Good(s) && (lines == [] || AlwaysGood(Run(s, lines[0].0, lines[0].1), lines[1..]))
  }

  /** Every state of a run is good exactly when the run is careful. */
  lemma {:induction false} RunsKeepIff(s: Sim, lines: seq<Line>)
    requires Good(s)
    ensures AlwaysGood(s, lines) <==> Careful(s, lines)
    ensures Careful(s, lines) ==> Good(RunAll(s, lines))
    decreases |lines|
  {
    if lines != [] {
      RunKeepsIff(s, lines[0].0, lines[0].1);
      if Good(Run(s, lines[0].0, lines[0].1)) { RunsKeepIff(Run(s, lines[0].0, lines[0].1), lines[1..]); }
    }
  }

  /** The state at the start of main(). */
  function AtStart(): (s: Sim)
    ensures Good(s)
  {
    var s := Sim(FileSave.Initial("~"), 0, "~");
    assert NodeOk(s.nodes, 0) && SlashFree(s.nodes);
    s
  }

  /** After every careful run of main(), pwd in start prints a path that leads from the root to
      start, and pathname is "~" with that path. */
  lemma {:induction false} StartIsWherePwdSays(lines: seq<Line>)
    requires Careful(AtStart(), lines)
    ensures var s := RunAll(AtStart(), lines);
            && Locate(s.nodes, 0, Tokens(GetPath(s.nodes, s.start, s.start), '/')) == Some(s.start)
            && Pathname(s) == "~" + PathTo(s.nodes, s.start)
  {
    RunsKeepIff(AtStart(), lines);
    var s := RunAll(AtStart(), lines);
    PathResolves(s.nodes, s.start);
  }

  // ---------------------------------------------------------------- save and reload over runs

  /** mkdir, creat, rmdir or rm, on any path that is found, is the edit of the ordered tree in the
      directory with these names. */
  lemma {:induction false} LineIsEdit(s: Sim, cmd: Command, path: string)
    requires Good(s) && !cmd.Cd? && !cmd.Reload? && Where(s, path).Some?
    ensures TreesOf(Run(s, cmd, path).nodes, 0, 0)
            == EditAt(TreesOf(s.nodes, 0, 0), NamesTo(s.nodes, Where(s, path).value), EditOf(cmd, BasePart(path)))
  {
    var a, from, c := s.nodes, if Absolute(path) then 0 else s.start, Where(s, path).value;
    assert NodeOk(a, 0) && Attached(a, 0) && Clear(a, 0);
    LocateAttached(a, from, Tokens(DirPart(path), '/'));
    LocateClear(a, from, Tokens(DirPart(path), '/'));
    NamesLocate(a, c);
    hide SlashFree, Attached, DirPart, BasePart;
    ChangeIsEdit(a, 0, NamesTo(a, c), EditOf(cmd, BasePart(path)));
  }

  /** The text was saved from a tree with valid names. */
  ghost predicate Saved(text: string) {
    exists a: Nodes :: SavedFrom(a, text)
  }

  predicate SavedFrom(a: Nodes, text: string) {
    Ok(a) && FileSave.ValidForest(TreesOf(a, 0, 0)) && text == FileSave.Save(a)
  }

  /** New names are valid, and only saved files are loaded. */
  ghost predicate ValidLine(line: Line) {
    match line.0
    case Mkdir => FileSave.ValidName(BasePart(line.1))
    case Creat => FileSave.ValidName(BasePart(line.1))
    case Reload(Some(text)) => Saved(text)
    case _ => true
  }

  lemma {:induction false} LineKeepsValid(s: Sim, line: Line)
    requires Good(s) && ValidLine(line) && FileSave.ValidForest(TreesOf(s.nodes, 0, 0))
    ensures FileSave.ValidForest(TreesOf(Run(s, line.0, line.1).nodes, 0, 0))
  {
    var cmd, path := line.0, line.1;
    if Where(s, path).Some? {
      match cmd {
        case Cd =>
        case Reload(None) =>
        case Reload(Some(text)) => LoadedIsValid(s, text, path);
        case _ => EditedIsValid(s, cmd, path);
      }
    }
  }

  lemma {:induction false} EditedIsValid(s: Sim, cmd: Command, path: string)
    requires Good(s) && ValidLine((cmd, path)) && FileSave.ValidForest(TreesOf(s.nodes, 0, 0))
    requires !cmd.Cd? && !cmd.Reload? && Where(s, path).Some?
    ensures FileSave.ValidForest(TreesOf(Run(s, cmd, path).nodes, 0, 0))
  {
    assert Sane(s);
    hide Good, Where, BasePart, FileSave.ValidForest, FileSave.ValidName, Run;
    LineIsEdit(s, cmd, path);
    FileSave.EditKeepsValid(TreesOf(s.nodes, 0, 0), NamesTo(s.nodes, Where(s, path).value), EditOf(cmd, BasePart(path)));
  }

  lemma {:induction false} LoadedIsValid(s: Sim, text: string, path: string)
    requires Sane(s) && Saved(text)
    ensures FileSave.ValidForest(TreesOf(Load(s, text, path).nodes, 0, 0))
  {
    var a: Nodes :| SavedFrom(a, text);
    hide FileSave.ValidForest, FileSave.Save, DirPart, BasePart;
    FileSave.SaveReload(a, Pathname(s), Cut(DirPart(path), '/'), BasePart(path));
  }

  lemma {:induction false} RunKeepsValid(s: Sim, lines: seq<Line>)
    requires Good(s) && Careful(s, lines) && FileSave.ValidForest(TreesOf(s.nodes, 0, 0))
    requires forall line :: line in lines ==> ValidLine(line)
    ensures Sane(RunAll(s, lines)) && FileSave.ValidForest(TreesOf(RunAll(s, lines).nodes, 0, 0))
    decreases |lines|
  {
    if lines != [] {
      hide Good, Careful1, FileSave.ValidForest, ValidLine, Run;
      LineKeepsValid(s, lines[0]);
      RunKeepsIff(s, lines[0].0, lines[0].1);
      RunKeepsValid(Run(s, lines[0].0, lines[0].1), lines[1..]);
    }
  }

  /** After every careful run of main() with valid names, its own reloads of saved files included,
      saving and reloading gives the same tree. */
  lemma {:induction false} RunsSaveAndReload(lines: seq<Line>, rootName: string, dname: string, bname: string)
    requires Careful(AtStart(), lines) && forall line :: line in lines ==> ValidLine(line)
    ensures var a := RunAll(AtStart(), lines).nodes;
            var b := FileSave.Reload(FileSave.Save(a), rootName, dname, bname);
            Ok(b) && TreesOf(b, 0, 0) == TreesOf(a, 0, 0)
  {
    var s := AtStart();
    assert TreesOf(s.nodes, 0, 0) == [] && FileSave.ValidForest([]);
    RunKeepsValid(s, lines);
    hide RunAll, Careful, ValidLine, FileSave.ValidForest, FileSave.Save;
    FileSave.SaveReload(RunAll(s, lines).nodes, rootName, dname, bname);
  }

  // ---------------------------------------------------------------- runs that are not careful

  /** `mkdir //` makes a node named "/". */
  lemma {:induction false} SlashNode()
    ensures var s := Run(AtStart(), Mkdir, "//"); !Good(s) && |s.nodes| == 2 && s.nodes[1].name == "/"
  {
    assert Rest("//") == "/" && AllSlashes("/");
    BaseHasSlashIff("/");
    RunKeepsIff(AtStart(), Mkdir, "//");
  }

  function OneDir(): (s: Sim)
  {
    Sim([Node("~", D, -1, [1]), Node("a", D, 0, [])], 0, "~")
  }

  lemma {:induction false} PathA()
    ensures BasePart("a") == "a" && DirPart("a") == "" && BasePart("/a") == "a" && DirPart("/a") == ""
    ensures Tokens("", '/') == [] && Tokens("a", '/') == ["a"]
  {
    assert "a" + "" == "a" && "/a"[1..] == "a" && Rest("/a") == "a" && Rest("a") == "a";
    hide FileSave.DirName, FileSave.BaseName, Rest;
    FileSave.PartsOf("", "a");
    TokensWord("a", "", '/');
  }

  lemma {:induction false} MadeA()
    ensures Sane(OneDir()) && Run(AtStart(), Mkdir, "a") == OneDir()
  {
    PathA();
    var s := AtStart();
    assert Where(s, "a") == Some(0);
    assert [] + [1] == [1] && !Has(s.nodes, 0, D, "a");
    assert Make(s.nodes, 0, D, "a") == OneDir().nodes;
    assert Run(s, Mkdir, "a") == s.(nodes := Make(s.nodes, 0, D, "a"));
  }

  lemma {:induction false} FoundA()
    ensures Sane(OneDir()) && Locate(OneDir().nodes, 0, ["a"]) == Some(1)
  {
    MadeA();
    var a := OneDir().nodes;
    assert Place(a, [1], D, "a") == 0 && Down(a, 0, "a") == Some(1);
    assert ["a"][1..] == [] && Locate(a, 1, []) == Some(1);
  }

  /** Start is in the directory. */
  function InA(): (s: Sim)
  {
    OneDir().(start := 1)
  }

  lemma {:induction false} PathOfA()
    ensures Sane(InA()) && Pathname(InA()) == "~/a"
  {
    MadeA();
    var s := InA();
    assert NodeOk(s.nodes, 1) && NodeOk(s.nodes, 0);
    assert NamesTo(s.nodes, 0) == [] && NamesTo(s.nodes, 1) == [] + ["a"];
    assert Prefixed(["a"], '/') == "/" + "a" + "" by { assert ["a"][1..] == []; }
  }

  lemma {:induction false} CdA()
    ensures Sane(OneDir()) && Run(OneDir(), Cd, "a") == InA()
  {
    PathA();
    MadeA();
    FoundA();
    var s := OneDir();
    assert Where(s, "a") == Some(0) && Move(s, 0, "a") == InA();
  }

  /** `mkdir a`, `cd a`: pathname is "~/a". */
  lemma {:induction false} Entered()
    ensures Run(Run(AtStart(), Mkdir, "a"), Cd, "a") == InA() && Good(InA()) && Pathname(InA()) == "~/a"
  {
    MadeA();
    CdA();
    PathOfA();
    var s1 := OneDir();
    assert Careful1(AtStart(), Mkdir, "a") && Careful1(s1, Cd, "a");
    hide Good, Run, Careful1, OneDir, InA, AtStart, Pathname;
    RunKeepsIff(AtStart(), Mkdir, "a");
    RunKeepsIff(s1, Cd, "a");
  }

  lemma {:induction false} WhereIsA()
    ensures Sane(InA()) && Where(InA(), "/a") == Some(0) && Place(InA().nodes, [1], D, "a") == 0
    ensures Remove(InA().nodes, 0, D, "a")[0].kids == []
  {
    MadeA();
    PathA();
    var a := InA().nodes;
    assert Locate(a, 0, []) == Some(0);
    assert Place(a, [1], D, "a") == 0 && Without([1], 0) == [];
  }

  /** Then `rmdir /a` takes the directory away in which start stands. */
  lemma {:induction false} StartRemoved()
    ensures Sane(InA()) && RemovesStart(InA(), Rmdir, "/a")
    ensures var s := Run(InA(), Rmdir, "/a"); !Good(s) && s.start == 1 && s.nodes[0].kids == []
  {
    Entered();
    PathA();
    WhereIsA();
    assert RemovesStart(InA(), Rmdir, "/a");
    hide Good;
    RunKeepsIff(InA(), Rmdir, "/a");
  }

  lemma {:induction false} WhereIsF()
    ensures Sane(InA()) && Where(InA(), "f") == Some(1)
  {
    MadeA();
    PathA();
    FileSave.PartsOf("", "f");
    assert DirPart("f") == "" && Locate(InA().nodes, 1, []) == Some(1);
  }

  lemma {:induction false} ReloadedAway(s: Sim, text: string, path: string)
    requires Good(s) && Where(s, path).Some? && s.start != 0
    ensures ReloadsAway(s, Reload(Some(text)), path)
    ensures var s' := Run(s, Reload(Some(text)), path);
            !Good(s') && s'.start == 0 && PathTo(s'.nodes, 0) == "" && Pathname(s') == Pathname(s)
  {
    hide Where, Pathname, MakesSlash;
    RunKeepsIff(s, Reload(Some(text)), path);
    PathIsEmptyIff(Run(s, Reload(Some(text)), path).nodes, 0);
  }

  /** And a reload of an empty file makes start the root while pathname stays "~/a". */
  lemma {:induction false} ReloadFromBelow()
    ensures Sane(InA()) && ReloadsAway(InA(), Reload(Some("")), "f")
    ensures var s := Run(InA(), Reload(Some("")), "f");
            !Good(s) && s.start == 0 && PathTo(s.nodes, s.start) == "" && Pathname(s) == "~/a"
  {
    assert InA().start == 1;
    hide *;
    Entered();
    WhereIsF();
    ReloadedAway(InA(), "", "f");
  }
}
