/** Saving the file tree as text and loading it again: saveTree(), reload(), runCommand() and
    dbname() of Lab2/Lab2.c. */
module FileSave {
  import opened Text
  import opened FileTree

  // ---------------------------------------------------------------- dirname() and basename()

  function StripSlashes(p: string): (q: string)
    ensures |q| <= |p| && (q != "" ==> q[|q| - 1] != '/')
  {
    if p == "" || p[|p| - 1] != '/' then p else StripSlashes(p[..|p| - 1])
  }

  /** The place behind the last slash, or 0. */
  function AfterSlash(p: string): (i: nat)
    ensures i <= |p| && (i > 0 ==> p[i - 1] == '/') && forall j :: i <= j < |p| ==> p[j] != '/'
  {
    if p == "" || p[|p| - 1] == '/' then |p| else AfterSlash(p[..|p| - 1])
  }

  function DirName(p: string): string {
    var q := StripSlashes(p);
    if p == "" then "." else if q == "" then "/"
    else
      var i := AfterSlash(q);
      if i == 0 then "." else if StripSlashes(q[..i]) == "" then "/" else StripSlashes(q[..i])
  }

  function BaseName(p: string): string {
    var q := StripSlashes(p);
    if p == "" then "." else if q == "" then "/" else q[AfterSlash(q)..]
  }

  // ---------------------------------------------------------------- runCommand() in reload()

  /** The globals that reload() works on. */
  datatype Session = Session(nodes: Nodes, dname: string, bname: string)

  /** dbname(): "." becomes the empty string. */
  function DbName(s: Session, path: string): Session {
    var d, b := DirName(path), BaseName(path);
    s.(dname := if d == "." then "" else d, bname := if b == "." then "" else b)
  }

  lemma {:induction false} LocateKind(a: Nodes, i: nat, tokens: seq<string>)
    requires Ok(a) && i < |a| && a[i].kind == D
    ensures Locate(a, i, tokens).Some? ==> a[Locate(a, i, tokens).value].kind == D
    decreases |tokens|
  {
    if tokens != [] && Down(a, i, tokens[0]).Some? {
      assert NodeOk(a, i);
      LocateKind(a, Down(a, i, tokens[0]).value, tokens[1..]);
    }
  }

  /** runCommand("mkdir" or "creat", path) with cwd at the root.  An empty path leaves what the
      previous command left in dname and bname; of dname, that is the text up to its first token,
      since strtok() writes into it. */
  function RunCommand(s: Session, kind: Kind, path: string): (s': Session)
    requires Ok(s.nodes)
    ensures Ok(s'.nodes)
  {
    var rel := if path != "" && path[0] == '/' then path[1..] else path;
    var s1 := if rel == "" then s else DbName(s, rel);
    LocateKind(s.nodes, 0, Tokens(s1.dname, '/'));
    var s2 := s1.(dname := Cut(s1.dname, '/'));
    match Locate(s.nodes, 0, Tokens(s1.dname, '/'))
    case None => s2
    case Some(cwd) =>
      MakeOk(s.nodes, cwd, kind, s1.bname);
      s2.(nodes := Make(s.nodes, cwd, kind, s1.bname))
  }

  /** The lines that fgets() returns, each with its last character removed. */
  function Lines(text: string): seq<string>
    decreases |text|
  {
    if text == "" then []
    else
      var n := Span(text, '\n');
      if n == |text| then [text[..n - 1]] else [text[..n]] + Lines(text[n + 1..])
  }

  /** One turn of the loop of reload(); a line without two words is not part of this model. */
  function RunLine(s: Session, line: string): (s': Session)
    requires Ok(s.nodes)
    ensures Ok(s'.nodes)
  {
    var words := Tokens(line, ' ');
    if |words| < 2 then s
    else RunCommand(s, if words[0][0] == 'F' then F else D, words[1])
  }

  function RunLines(s: Session, lines: seq<string>): (s': Session)
    requires Ok(s.nodes)
    ensures Ok(s'.nodes)
    decreases |lines|
  {
    if lines == [] then s else RunLines(RunLine(s, lines[0]), lines[1..])
  }

  /** The table after initialize(): a root without children. */
  function Initial(rootName: string): (a: Nodes)
    ensures Ok(a)
  {
    var a := [Node(rootName, D, -1, [])];
    assert NodeOk(a, 0);
    a
  }

  function Reload(text: string, rootName: string, dname: string, bname: string): Nodes {
    RunLines(Session(Initial(rootName), dname, bname), Lines(text)).nodes
  }

  // ---------------------------------------------------------------- saveTree()

  function Letter(kind: Kind): string {
    if kind == D then "D" else "F"
  }

  /** saveTree(): the first child with its descendants, then its siblings. */
  function SaveTree(ts: seq<Tree>, path: string): string {
    if ts == [] then ""
    else
      var currPath := path + "/" + ts[0].name;
      Letter(ts[0].kind) + " " + currPath + "\n" + SaveTree(ts[0].kids, currPath) + SaveTree(ts[1..], path)
  }

  function Save(a: Nodes): string
    requires Ok(a)
  {
    SaveTree(TreesOf(a, 0, 0), "")
  }

  // ---------------------------------------------------------------- entries

  /** A line of the file, taken apart. */
  datatype Entry = Entry(kind: Kind, path: seq<string>, name: string)

  function Entries(ts: seq<Tree>, path: seq<string>): seq<Entry> {
    if ts == [] then []
    else [Entry(ts[0].kind, path, ts[0].name)] + Entries(ts[0].kids, path + [ts[0].name]) + Entries(ts[1..], path)
  }

  function LineOf(e: Entry): string {
    Letter(e.kind) + " " + Prefixed(e.path + [e.name], '/')
  }

  function TextOf(es: seq<Entry>): string {
    if es == [] then "" else LineOf(es[0]) + "\n" + TextOf(es[1..])
  }

  /** The forest after the command that an entry stands for. */
  function Add(ts: seq<Tree>, e: Entry): seq<Tree> {
    EditAt(ts, e.path, Plus(e.kind, e.name))
  }

  function Replay(ts: seq<Tree>, es: seq<Entry>): seq<Tree>
    decreases |es|
  {
    if es == [] then ts else Replay(Add(ts, es[0]), es[1..])
  }

  // ---------------------------------------------------------------- valid names

  predicate ValidName(n: string) {
    Word(n, '/') && Word(n, ' ') && Word(n, '\n') && n != "." && n != ".."
  }

  /** The trees that save and reload are meant for: names are valid and unique for each kind
      among siblings, and files have no children. */
  predicate ValidForest(ts: seq<Tree>) {
    && NoneAlike(ts)
    && (forall i :: 0 <= i < |ts| ==> ValidName(ts[i].name) && (ts[i].kind == F ==> ts[i].kids == []))
    && (forall i :: 0 <= i < |ts| ==> ValidForest(ts[i].kids))
  }

  /** No two siblings have one kind and name. */
  predicate NoneAlike(ts: seq<Tree>) {
    forall i, j :: 0 <= i < j < |ts| ==> !(ts[i].kind == ts[j].kind && ts[i].name == ts[j].name)
  }

  predicate ValidEntry(e: Entry) {
    ValidName(e.name) && forall i :: 0 <= i < |e.path| ==> ValidName(e.path[i])
  }

  predicate ValidEntries(es: seq<Entry>) {
    forall i :: 0 <= i < |es| ==> ValidEntry(es[i])
  }

  // ---------------------------------------------------------------- the text is the entries

  lemma {:induction false} TextAppend(es: seq<Entry>, fs: seq<Entry>)
    ensures TextOf(es + fs) == TextOf(es) + TextOf(fs)
  {
    if es == [] {
      assert es + fs == fs;
    } else {
      assert (es + fs)[1..] == es[1..] + fs;
      TextAppend(es[1..], fs);
    }
  }

  lemma {:induction false} SaveIsText(ts: seq<Tree>, path: seq<string>)
    ensures SaveTree(ts, Prefixed(path, '/')) == TextOf(Entries(ts, path))
  {
    if ts != [] {
      var e := Entry(ts[0].kind, path, ts[0].name);
      PrefixedAppend(path, ts[0].name, '/');
      SaveIsText(ts[0].kids, path + [ts[0].name]);
      SaveIsText(ts[1..], path);
      TextAppend([e] + Entries(ts[0].kids, path + [ts[0].name]), Entries(ts[1..], path));
      TextAppend([e], Entries(ts[0].kids, path + [ts[0].name]));
      assert TextOf([e]) == LineOf(e) + "\n" + TextOf([]);
    }
  }

  lemma {:induction false} EntriesValid(ts: seq<Tree>, path: seq<string>)
    requires ValidForest(ts) && forall i :: 0 <= i < |path| ==> ValidName(path[i])
    ensures ValidEntries(Entries(ts, path))
  {
    if ts != [] {
      EntriesValid(ts[0].kids, path + [ts[0].name]);
      EntriesValid(ts[1..], path);
    }
  }

  // ---------------------------------------------------------------- one line

  lemma {:induction false} PrefixedLacks(ws: seq<string>, sep: char, c: char)
    requires c != sep && forall i :: 0 <= i < |ws| ==> c !in ws[i]
    ensures c !in Prefixed(ws, sep)
  {
    if ws != [] { PrefixedLacks(ws[1..], sep, c); }
  }

  /** The names on a line have no blank and no end of line. */
  predicate PlainEntry(e: Entry) {
    && ' ' !in e.name && '\n' !in e.name
    && forall i :: 0 <= i < |e.path| ==> ' ' !in e.path[i] && '\n' !in e.path[i]
  }

  lemma {:induction false} PathWords(e: Entry)
    requires PlainEntry(e)
    ensures var path := Prefixed(e.path + [e.name], '/');
            && Tokens(LineOf(e), ' ') == [Letter(e.kind), path] && '\n' !in LineOf(e)
            && path != "" && path[0] == '/'
  {
    var ws := e.path + [e.name];
    var path := Prefixed(ws, '/');
    PrefixedLacks(ws, '/', ' ');
    PrefixedLacks(ws, '/', '\n');
    TokensJoin([Letter(e.kind), path], ' ');
    assert Join([path], ' ') == path;
    assert Join([Letter(e.kind), path], ' ') == LineOf(e);
  }

  lemma {:induction false} AfterSlashWord(p: string, w: string)
    requires '/' !in w && (p == "" || p[|p| - 1] == '/')
    ensures AfterSlash(p + w) == |p|
  {
    if w == "" {
      assert p + w == p;
    } else {
      assert (p + w)[..|p + w| - 1] == p + w[..|w| - 1];
      assert w[|w| - 1] in w;
      AfterSlashWord(p, w[..|w| - 1]);
    }
  }

  /** A path that ends in the word w, behind nothing or behind the slash of a directory. */
  lemma {:induction false} PartsOf(d: string, w: string)
    requires Word(w, '/') && (d == "" || d[|d| - 1] != '/')
    ensures var rel := if d == "" then w else d + "/" + w;
            rel != "" && BaseName(rel) == w && DirName(rel) == if d == "" then "." else d
  {
    assert w[|w| - 1] in w;
    if d == "" {
      AfterSlashWord("", w);
      assert "" + w == w;
    } else {
      var front := d + "/";
      AfterSlashWord(front, w);
      var rel := front + w;
      assert rel[|rel| - 1] == w[|w| - 1];
      assert front[..|front| - 1] == d && rel[..|front|] == front && rel[|front|..] == w;
      assert StripSlashes(rel) == rel && StripSlashes(front) == d;
    }
  }

  /** dirname() and basename() take the path of a line apart. */
  lemma {:induction false} PathParts(ws: seq<string>, w: string)
    requires ValidName(w) && forall i :: 0 <= i < |ws| ==> ValidName(ws[i])
    ensures var rel := Prefixed(ws + [w], '/')[1..];
            && rel != "" && BaseName(rel) == w
            && DirName(rel) == if ws == [] then "." else Prefixed(ws, '/')[1..]
  {
    hide BaseName, DirName;
    var d := Prefixed(ws, '/');
    PrefixedAppend(ws, w, '/');
    if ws == [] {
      PartsOf("", w);
      assert (d + "/" + w)[1..] == w;
    } else {
      LastChar(ws);
      PartsOf(d[1..], w);
      assert (d + "/" + w)[1..] == d[1..] + "/" + w;
    }
  }

  lemma {:induction false} LastChar(ws: seq<string>)
    requires ws != [] && forall i :: 0 <= i < |ws| ==> ValidName(ws[i])
    ensures var d := Prefixed(ws, '/'); |d| > 1 && d[|d| - 1] != '/'
  {
    var w := ws[|ws| - 1];
    PrefixedAppend(ws[..|ws| - 1], w, '/');
    assert ws[..|ws| - 1] + [w] == ws && w[|w| - 1] in w;
  }

  lemma {:induction false} DirTokens(ws: seq<string>)
    requires ws != [] && forall i :: 0 <= i < |ws| ==> ValidName(ws[i])
    ensures var dir := Prefixed(ws, '/')[1..]; Tokens(dir, '/') == ws && dir != "."
  {
    TokensPrefixed(ws, '/');
    var dir := Prefixed(ws, '/')[1..];
    assert Tokens(Prefixed(ws, '/'), '/') == Tokens(dir, '/');
    TokensWord(".", "", '/');
    assert "." + "" == "." && ValidName(ws[0]);
  }

  lemma {:induction false} EditNowhere(a: Nodes, i: nat, path: seq<string>, e: Edit)
    requires Ok(a) && i < |a| && Locate(a, i, path).None?
    requires forall k :: 0 <= k < |path| ==> path[k] != ".."
    ensures EditAt(TreesOf(a, i, 0), path, e) == TreesOf(a, i, 0)
    decreases |path|
  {
    PlaceIsTreePlace(a, i, D, path[0]);
    var p := Place(a, a[i].kids, D, path[0]);
    if p < |a[i].kids| {
      TreesAt(a, i, 0, p);
      EditNowhere(a, a[i].kids[p], path[1..], e);
    }
  }

  /** The loader does with the line of an entry what Add does with the entry. */
  lemma {:induction false} LineIsAdd(s: Session, e: Entry)
    requires Ok(s.nodes) && ValidEntry(e)
    ensures TreesOf(RunLine(s, LineOf(e)).nodes, 0, 0) == Add(TreesOf(s.nodes, 0, 0), e)
  {
    PathWords(e);
    PathParts(e.path, e.name);
    if e.path != [] { DirTokens(e.path); }
    LocateKind(s.nodes, 0, e.path);
    if Locate(s.nodes, 0, e.path).Some? {
      ChangeIsEdit(s.nodes, 0, e.path, Plus(e.kind, e.name));
    } else {
      EditNowhere(s.nodes, 0, e.path, Plus(e.kind, e.name));
    }
  }

  /** What is left in dname and bname behind the line of an entry. */
  lemma {:induction false} NamesBehind(s: Session, e: Entry)
    requires Ok(s.nodes) && ValidEntry(e)
    ensures var s1 := RunLine(s, LineOf(e));
            s1.bname == e.name && Tokens(s1.dname, '/') == if e.path == [] then [] else [e.path[0]]
  {
    PathWords(e);
    PathParts(e.path, e.name);
    if e.path != [] { DirTokens(e.path); }
    var d := if e.path == [] then "" else Prefixed(e.path, '/')[1..];
    TokensCut(d, '/');
    assert Cut("", '/') == "";
    hide Locate, Make, LineOf, Prefixed, Cut;
  }

  lemma {:induction false} EmptyLine(s: Session)
    requires Ok(s.nodes)
    ensures var c := Locate(s.nodes, 0, Tokens(s.dname, '/'));
            RunLine(s, "D /").nodes == if c.None? then s.nodes else Make(s.nodes, c.value, D, s.bname)
  {
    TokensJoin(["D", "/"], ' ');
    assert Join(["/"], ' ') == "/" && Join(["D", "/"], ' ') == "D /";
    hide Locate, Make, Tokens, Cut;
  }

  /** A line without a name, behind the line of an entry: it uses the name again, in the first
      directory of the path. */
  lemma {:induction false} EmptyLineIsAdd(s: Session, e: Entry)
    requires Ok(s.nodes) && ValidEntry(e)
    ensures var s1 := RunLine(s, LineOf(e));
            TreesOf(RunLine(s1, "D /").nodes, 0, 0)
            == Add(TreesOf(s1.nodes, 0, 0), Entry(D, if e.path == [] then [] else [e.path[0]], e.name))
  {
    var s1, first := RunLine(s, LineOf(e)), if e.path == [] then [] else [e.path[0]];
    NamesBehind(s, e);
    EmptyLine(s1);
    hide PlainEntry, ValidEntry, LineOf, Prefixed, Cut, RunLine;
    LocateKind(s1.nodes, 0, first);
    if Locate(s1.nodes, 0, first).Some? {
      ChangeIsEdit(s1.nodes, 0, first, Plus(D, e.name));
    } else {
      EditNowhere(s1.nodes, 0, first, Plus(D, e.name));
    }
  }

  // ---------------------------------------------------------------- all lines

  lemma {:induction false} LinesOfText(es: seq<Entry>)
    requires forall i :: 0 <= i < |es| ==> PlainEntry(es[i])
    ensures |Lines(TextOf(es))| == |es| && forall i :: 0 <= i < |es| ==> Lines(TextOf(es))[i] == LineOf(es[i])
  {
    if es != [] {
      PathWords(es[0]);
      FirstLine(LineOf(es[0]), TextOf(es[1..]));
      LinesOfText(es[1..]);
    }
  }

  lemma {:induction false} FirstLine(line: string, rest: string)
    requires '\n' !in line
    ensures Lines(line + "\n" + rest) == [line] + Lines(rest)
  {
    var text := line + "\n" + rest;
    SpanWord(line, "\n" + rest, '\n');
    assert text == line + ("\n" + rest);
    assert text[..|line|] == line && text[|line| + 1..] == rest;
  }

  lemma {:induction false} LinesAreReplay(s: Session, es: seq<Entry>, lines: seq<string>)
    requires Ok(s.nodes) && ValidEntries(es) && |lines| == |es|
    requires forall i :: 0 <= i < |es| ==> lines[i] == LineOf(es[i])
    ensures TreesOf(RunLines(s, lines).nodes, 0, 0) == Replay(TreesOf(s.nodes, 0, 0), es)
    decreases |es|
  {
    if es != [] {
      LineIsAdd(s, es[0]);
      LinesAreReplay(RunLine(s, lines[0]), es[1..], lines[1..]);
    }
  }

  // ---------------------------------------------------------------- replaying the entries

  function Under(n: string, es: seq<Entry>): (r: seq<Entry>)
    ensures |r| == |es|
  {
    seq(|es|, i requires 0 <= i < |es| => es[i].(path := [n] + es[i].path))
  }

  lemma {:induction false} EntriesUnder(n: string, ts: seq<Tree>, path: seq<string>)
    ensures Entries(ts, [n] + path) == Under(n, Entries(ts, path))
  {
    if ts != [] {
      EntriesUnder(n, ts[0].kids, path + [ts[0].name]);
      EntriesUnder(n, ts[1..], path);
      assert [n] + path + [ts[0].name] == [n] + (path + [ts[0].name]);
    }
  }

  lemma {:induction false} ReplayAppend(ts: seq<Tree>, es: seq<Entry>, fs: seq<Entry>)
    ensures Replay(ts, es + fs) == Replay(Replay(ts, es), fs)
    decreases |es|
  {
    if es == [] {
      assert es + fs == fs;
    } else {
      assert (es + fs)[1..] == es[1..] + fs;
      ReplayAppend(Add(ts, es[0]), es[1..], fs);
    }
  }

  /** Entries below the last tree change only its children. */
  lemma {:induction false} ReplayInside(ts: seq<Tree>, t: Tree, es: seq<Entry>)
    requires t.kind == D && TreePlace(ts + [t], D, t.name) == |ts|
    ensures Replay(ts + [t], Under(t.name, es)) == ts + [t.(kids := Replay(t.kids, es))]
    decreases |es|
  {
    if es != [] {
      var us, e := Under(t.name, es), es[0];
      var t' := t.(kids := Add(t.kids, e));
      assert us[1..] == Under(t.name, es[1..]) && us[0].path[1..] == e.path;
      assert Add(ts + [t], us[0]) == ts + [t'];
      SamePlace(ts, t, t');
      ReplayInside(ts, t', es[1..]);
    } else {
      assert t.(kids := t.kids) == t;
    }
  }

  lemma {:induction false} SamePlace(ts: seq<Tree>, t: Tree, t': Tree)
    requires t.kind == t'.kind && t.name == t'.name && TreePlace(ts + [t], D, t.name) == |ts|
    ensures TreePlace(ts + [t'], D, t.name) == |ts|
  {
    var p := TreePlace(ts + [t'], D, t.name);
    assert (ts + [t'])[|ts|] == t' && (ts + [t])[|ts|] == t;
    assert forall j :: 0 <= j < |ts| ==> (ts + [t'])[j] == ts[j] == (ts + [t])[j];
  }

  lemma {:induction false} FreshPlace(ts: seq<Tree>, kind: Kind, name: string)
    requires forall j :: 0 <= j < |ts| ==> !(ts[j].kind == kind && ts[j].name == name)
    ensures TreePlace(ts, kind, name) == |ts| && TreePlace(ts + [Tree(kind, name, [])], kind, name) == |ts|
  {
    var us := ts + [Tree(kind, name, [])];
    var p := TreePlace(us, kind, name);
    assert us[|ts|] == Tree(kind, name, []);
    assert forall j :: 0 <= j < |ts| ==> us[j] == ts[j];
  }

  /** The entries of the first tree, replayed, append that tree. */
  lemma {:induction false} ReplayFirst(done: seq<Tree>, ts: seq<Tree>)
    requires ValidForest(done + ts) && ts != []
    requires Replay([], Entries(ts[0].kids, [])) == ts[0].kids
    ensures Replay(done, Entries(ts, [])) == Replay(done + [ts[0]], Entries(ts[1..], []))
  {
    var t := ts[0];
    var leaf := Tree(t.kind, t.name, []);
    var first, inner, rest := Entry(t.kind, [], t.name), Entries(t.kids, [t.name]), Entries(ts[1..], []);
    assert [] + [t.name] == [t.name] == [t.name] + [];
    assert Entries(ts, []) == [first] + (inner + rest);
    ForestFresh(done, ts);
    FreshPlace(done, t.kind, t.name);
    assert ([first] + (inner + rest))[1..] == inner + rest;
    assert Replay(done, Entries(ts, [])) == Replay(done + [leaf], inner + rest);
    ReplayAppend(done + [leaf], inner, rest);
    if t.kind == D {
      EntriesUnder(t.name, t.kids, []);
      ReplayInside(done, leaf, Entries(t.kids, []));
    }
  }

  /** Replaying the entries of a forest behind what is already there appends the forest. */
  lemma {:induction false} ReplayRebuilds(done: seq<Tree>, ts: seq<Tree>)
    requires ValidForest(done + ts)
    ensures Replay(done, Entries(ts, [])) == done + ts
    decreases ts
  {
    if ts == [] {
      assert done + ts == done;
    } else {
      ValidHead(done, ts);
      hide ValidForest, Entries, Replay;
      ReplayRebuilds([], ts[0].kids);
      ReplayFirst(done, ts);
      ReplayRebuilds(done + [ts[0]], ts[1..]);
    }
  }

  lemma {:induction false} ValidHead(done: seq<Tree>, ts: seq<Tree>)
    requires ValidForest(done + ts) && ts != []
    ensures ValidForest([] + ts[0].kids) && [] + ts[0].kids == ts[0].kids
    ensures (done + [ts[0]]) + ts[1..] == done + ts
  {
    hide NoneAlike, ValidName;
    assert (done + ts)[|done|] == ts[0] && [] + ts[0].kids == ts[0].kids;
  }

  lemma {:induction false} ForestFresh(done: seq<Tree>, ts: seq<Tree>)
    requires ValidForest(done + ts) && ts != []
    ensures forall j :: 0 <= j < |done| ==> !(done[j].kind == ts[0].kind && done[j].name == ts[0].name)
    ensures ts[0].kind == F ==> ts[0].kids == []
  {
    var all := done + ts;
    assert all[|done|] == ts[0];
    forall j | 0 <= j < |done| ensures !(done[j].kind == ts[0].kind && done[j].name == ts[0].name) {
      assert all[j] == done[j];
    }
  }

  // ---------------------------------------------------------------- the theorem

  /** Saving a tree and loading the text rebuilds the same ordered tree below the root. */
  lemma {:induction false} SaveReload(a: Nodes, rootName: string, dname: string, bname: string)
    requires Ok(a) && ValidForest(TreesOf(a, 0, 0))
    ensures var b := Reload(Save(a), rootName, dname, bname);
            Ok(b) && TreesOf(b, 0, 0) == TreesOf(a, 0, 0)
  {
    var ts := TreesOf(a, 0, 0);
    var es := Entries(ts, []);
    var s := Session(Initial(rootName), dname, bname);
    assert Prefixed([], '/') == "";
    SaveIsText(ts, []);
    EntriesValid(ts, []);
    LinesOfText(es);
    LinesAreReplay(s, es, Lines(TextOf(es)));
    assert TreesOf(s.nodes, 0, 0) == [];
    assert [] + ts == ts;
    ReplayRebuilds([], ts);
  }

  // ---------------------------------------------------------------- empty names

  /** A name that mkdir or creat can make without the names "..", "." and "/": a valid one, or
      the empty one of a command without a path. */
  predicate NearName(n: string) {
    ValidName(n) || n == ""
  }

  /** ValidForest, but for empty names. */
  predicate NearForest(ts: seq<Tree>) {
    && NoneAlike(ts)
    && (forall i :: 0 <= i < |ts| ==> NearName(ts[i].name) && (ts[i].kind == F ==> ts[i].kids == []))
    && (forall i :: 0 <= i < |ts| ==> NearForest(ts[i].kids))
  }

  predicate NoEmptyName(ts: seq<Tree>) {
    forall i :: 0 <= i < |ts| ==> ts[i].name != "" && NoEmptyName(ts[i].kids)
  }

  predicate NearEntry(e: Entry) {
    NearName(e.name) && forall i :: 0 <= i < |e.path| ==> NearName(e.path[i])
  }

  lemma {:induction false} NearIsValid(ts: seq<Tree>)
    requires NearForest(ts) && NoEmptyName(ts)
    ensures ValidForest(ts)
  {
    forall i | 0 <= i < |ts| ensures ValidForest(ts[i].kids) { NearIsValid(ts[i].kids); }
  }

  lemma {:induction false} EntriesNear(ts: seq<Tree>, path: seq<string>)
    requires NearForest(ts) && forall i :: 0 <= i < |path| ==> NearName(path[i])
    ensures forall i :: 0 <= i < |Entries(ts, path)| ==> NearEntry(Entries(ts, path)[i])
  {
    if ts != [] {
      EntriesNear(ts[0].kids, path + [ts[0].name]);
      EntriesNear(ts[1..], path);
    }
  }

  lemma {:induction false} BaseOfSlash(x: string)
    ensures BaseName(x + "/") == if x == "" then "/" else BaseName(x)
  {
    assert (x + "/")[..|x + "/"| - 1] == x;
    assert StripSlashes(x + "/") == StripSlashes(x);
  }

  /** basename() of a saved path is its last name that is not empty, or "/". */
  lemma {:induction false} BaseOfNear(ws: seq<string>)
    requires ws != [] && forall i :: 0 <= i < |ws| ==> NearName(ws[i])
    ensures var rel := Prefixed(ws, '/')[1..]; rel != "" ==> BaseName(rel) != "" && BaseName(rel) != "."
  {
    var front, w := ws[..|ws| - 1], ws[|ws| - 1];
    assert ws == front + [w];
    PrefixedAppend(front, w, '/');
    var x := Prefixed(front, '/');
    if front == [] {
      assert (x + "/" + w)[1..] == w;
      if w != "" { PartsOf("", w); }
    } else {
      assert (x + "/" + w)[1..] == x[1..] + "/" + w;
      if w == "" {
        assert x[1..] + "/" + w == x[1..] + "/";
        BaseOfNear(front);
        BaseOfSlash(x[1..]);
      } else {
        BaseOfWord(x[1..] + "/", w);
      }
    }
  }

  lemma {:induction false} BaseOfWord(front: string, w: string)
    requires ValidName(w) && front != "" && front[|front| - 1] == '/'
    ensures BaseName(front + w) == w
  {
    assert w[|w| - 1] in w && (front + w)[|front + w| - 1] == w[|w| - 1];
    AfterSlashWord(front, w);
    assert StripSlashes(front + w) == front + w;
  }

  /** No node but the root has an empty name. */
  predicate Named(a: Nodes) {
    forall i :: 1 <= i < |a| ==> a[i].name != ""
  }

  lemma {:induction false} MakeNamed(a: Nodes, i: nat, kind: Kind, name: string)
    requires Named(a) && i < |a| && name != ""
    ensures Named(Make(a, i, kind, name))
  {
  }

  lemma {:induction false} CommandKeepsNamed(s: Session, kind: Kind, path: string)
    requires Ok(s.nodes) && Named(s.nodes) && s.bname != "" && path != "" && path[0] == '/'
    requires path[1..] != "" ==> BaseName(path[1..]) != "" && BaseName(path[1..]) != "."
    ensures var s' := RunCommand(s, kind, path); Named(s'.nodes) && s'.bname != ""
  {
    hide Named, BaseName, DirName, Make, Tokens;
    var rel := path[1..];
    var s1 := if rel == "" then s else DbName(s, rel);
    LocateKind(s.nodes, 0, Tokens(s1.dname, '/'));
    var c := Locate(s.nodes, 0, Tokens(s1.dname, '/'));
    if c.Some? { MakeNamed(s.nodes, c.value, kind, s1.bname); }
  }

  /** The loader never makes an empty name: a line without a name leaves the last one. */
  lemma {:induction false} LineKeepsNamed(s: Session, e: Entry)
    requires Ok(s.nodes) && Named(s.nodes) && s.bname != "" && NearEntry(e)
    ensures var s' := RunLine(s, LineOf(e)); Named(s'.nodes) && s'.bname != ""
  {
    var ws := e.path + [e.name];
    PathWords(e);
    BaseOfNear(ws);
    hide RunCommand, BaseName, Prefixed, Tokens, LineOf;
    CommandKeepsNamed(s, if Letter(e.kind)[0] == 'F' then F else D, Prefixed(ws, '/'));
  }

  lemma {:induction false} LinesKeepNamed(s: Session, es: seq<Entry>, lines: seq<string>)
    requires Ok(s.nodes) && Named(s.nodes) && s.bname != "" && |lines| == |es|
    requires forall i :: 0 <= i < |es| ==> NearEntry(es[i]) && lines[i] == LineOf(es[i])
    ensures Named(RunLines(s, lines).nodes)
    decreases |es|
  {
    if es != [] {
      LineKeepsNamed(s, es[0]);
      LinesKeepNamed(RunLine(s, lines[0]), es[1..], lines[1..]);
    }
  }

  lemma {:induction false} NamedTrees(a: Nodes, i: nat, p: nat)
    requires Ok(a) && Named(a) && i < |a| && p <= |a[i].kids|
    ensures NoEmptyName(TreesOf(a, i, p))
    decreases |a| - i, |a[i].kids| - p
  {
    if p < |a[i].kids| {
      assert NodeOk(a, i) && KidOk(a, i, a[i].kids[p]);
      NamedTrees(a, a[i].kids[p], 0);
      NamedTrees(a, i, p + 1);
    }
  }

  /** Among trees whose names are valid or empty, saving and loading gives back exactly those
      without an empty name. */
  lemma {:induction false} SaveReloadIff(a: Nodes, rootName: string, dname: string, bname: string)
    requires Ok(a) && NearForest(TreesOf(a, 0, 0)) && bname != ""
    ensures var b := Reload(Save(a), rootName, dname, bname);
            Ok(b) && (TreesOf(b, 0, 0) == TreesOf(a, 0, 0) <==> NoEmptyName(TreesOf(a, 0, 0)))
  {
    var ts := TreesOf(a, 0, 0);
    if NoEmptyName(ts) {
      NearIsValid(ts);
      SaveReload(a, rootName, dname, bname);
    } else {
      var es := Entries(ts, []);
      var s := Session(Initial(rootName), dname, bname);
      assert Prefixed([], '/') == "";
      SaveIsText(ts, []);
      EntriesNear(ts, []);
      LinesOfText(es);
      LinesKeepNamed(s, es, Lines(TextOf(es)));
      NamedTrees(RunLines(s, Lines(TextOf(es))).nodes, 0, 0);
    }
  }

  // ---------------------------------------------------------------- which trees are valid

  lemma {:induction false} PlusValid(ts: seq<Tree>, t: Tree)
    requires ValidForest(ts) && ValidName(t.name) && t.kids == [] && TreePlace(ts, t.kind, t.name) == |ts|
    ensures ValidForest(ts + [t])
  {
    var us := ts + [t];
    assert forall j :: 0 <= j < |us| ==> us[j] == if j < |ts| then ts[j] else t;
  }

  lemma {:induction false} MinusValid(ts: seq<Tree>, p: nat)
    requires ValidForest(ts) && p < |ts|
    ensures ValidForest(ts[..p] + ts[p + 1..])
  {
    var us := ts[..p] + ts[p + 1..];
    assert forall j :: 0 <= j < |us| ==> us[j] == if j < p then ts[j] else ts[j + 1];
  }

  lemma {:induction false} EditHereValid(ts: seq<Tree>, e: Edit)
    requires ValidForest(ts) && (e.Plus? ==> ValidName(e.name))
    ensures ValidForest(EditHere(ts, e))
  {
    var p := TreePlace(ts, e.kind, e.name);
    if e.Plus? && p == |ts| { PlusValid(ts, Tree(e.kind, e.name, [])); }
    if e.Minus? && p < |ts| { MinusValid(ts, p); }
  }

  /** mkdir and creat with valid names, rmdir and rm keep a tree valid, wherever they are run. */
  lemma {:induction false} EditKeepsValid(ts: seq<Tree>, path: seq<string>, e: Edit)
    requires ValidForest(ts) && (e.Plus? ==> ValidName(e.name))
    ensures ValidForest(EditAt(ts, path, e))
    decreases |path|
  {
    if path == [] {
      EditHereValid(ts, e);
    } else {
      var p := TreePlace(ts, D, path[0]);
      if p < |ts| {
        EditKeepsValid(ts[p].kids, path[1..], e);
        var ts' := EditAt(ts, path, e);
        assert forall j :: 0 <= j < |ts| ==> ts'[j] == if j == p then ts[p].(kids := EditAt(ts[p].kids, path[1..], e)) else ts[j];
      }
    }
  }

  /** Why names must be valid: a directory with the empty name, which mkdir makes when it is
      given no path, comes back with the last name used before. */
  lemma {:induction false} EmptyNameIsLost(rootName: string, bname: string)
    requires bname != ""
    ensures var a := Make(Initial(rootName), 0, D, "");
            && Ok(a) && TreesOf(a, 0, 0) == [Tree(D, "", [])]
            && TreesOf(Reload(Save(a), rootName, "", bname), 0, 0) == [Tree(D, bname, [])]
  {
    var i, a := Initial(rootName), Make(Initial(rootName), 0, D, "");
    NewKid(i, 0, D, "");
    NewKid(i, 0, D, bname);
    assert TreesOf(i, 0, 0) == [] && TreesOf(a, 0, 0) == [Tree(D, "", [])];
    EmptyNameSaved();
    EmptyLine(Session(i, "", bname));
    FirstLine("D /", "");
    hide Make, RunLine, SaveTree;
    var s, none: seq<string> := Session(i, "", bname), [];
    assert ["D /"][1..] == none && RunLines(RunLine(s, "D /"), none) == RunLine(s, "D /");
  }

  lemma {:induction false} EmptyNameSaved()
    ensures SaveTree([Tree(D, "", [])], "") == "D /" + "\n" + "" && Lines("") == []
  {
    assert SaveTree([], "") == "" && SaveTree([], "/") == "";
    assert [Tree(D, "", [])][1..] == [] && "" + "/" + "" == "/";
    assert "D" + " " + "/" + "\n" == "D /" + "\n";
  }
}
