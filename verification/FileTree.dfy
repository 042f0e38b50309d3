/** The file-tree simulator as values: Lab2/Lab2.c.  The nodes are numbered in the order of
    createNode(); node 0 is the root.  `kids` is the Child/Sibling list of a node. */
module FileTree {
  import opened Text

  datatype Kind = D | F

  datatype Node = Node(name: string, kind: Kind, parent: int, kids: seq<nat>)

  type Nodes = seq<Node>

  datatype Option<+T> = None | Some(value: T)

  // ---------------------------------------------------------------- well-formed node tables

  predicate KidOk(a: Nodes, i: nat, k: nat) {
    i < k < |a| && a[k].parent == i
  }

  /** The children of i are younger than i, point back to i, are listed once, and no two of
      them have the same kind and name; a file has none. */
  predicate NodeOk(a: Nodes, i: nat)
    requires i < |a|
  {
    var kids := a[i].kids;
    && (forall j: nat {:trigger kids[j]} :: j < |kids| ==> KidOk(a, i, kids[j]))
    && (forall j: nat, l: nat {:trigger kids[j], kids[l]} :: j < l < |kids| ==>
          && kids[j] != kids[l] && KidOk(a, i, kids[j]) && KidOk(a, i, kids[l])
          && !(a[kids[j]].kind == a[kids[l]].kind && a[kids[j]].name == a[kids[l]].name))
    && (a[i].kind == F ==> kids == [])
    && -1 <= a[i].parent < i && (a[i].parent == -1 ==> i == 0)
    && (a[i].parent >= 0 ==> a[a[i].parent].kind == D)
  }

  predicate Ok(a: Nodes) {
    && |a| > 0 && a[0].kind == D && a[0].parent == -1
    && forall i: nat {:trigger NodeOk(a, i)} :: i < |a| ==> NodeOk(a, i)
  }

  // ---------------------------------------------------------------- commands on node tables

  /** The place among kids of the first node of this kind and name, or |kids|. */
  function Place(a: Nodes, kids: seq<nat>, kind: Kind, name: string): (p: nat)
    ensures p <= |kids|
    ensures p < |kids| ==> kids[p] < |a| && a[kids[p]].kind == kind && a[kids[p]].name == name
    ensures forall j: nat {:trigger kids[j]} :: j < p && kids[j] < |a| ==> !(a[kids[j]].kind == kind && a[kids[j]].name == name)
  {
    if kids == [] then 0
    else if kids[0] < |a| && a[kids[0]].kind == kind && a[kids[0]].name == name then 0
    else 1 + Place(a, kids[1..], kind, name)
  }

  predicate Has(a: Nodes, i: nat, kind: Kind, name: string)
    requires i < |a|
  {
    Place(a, a[i].kids, kind, name) < |a[i].kids|
  }

  /** mkdir() for kind D, creat() for kind F, in directory i. */
  function Make(a: Nodes, i: nat, kind: Kind, name: string): (a': Nodes)
    requires i < |a|
    ensures |a'| >= |a|
  {
    if Has(a, i, kind, name) then a
    else a[i := a[i].(kids := a[i].kids + [|a|])] + [Node(name, kind, i, [])]
  }

  function Without(q: seq<nat>, p: nat): (r: seq<nat>)
    requires p < |q|
    ensures |r| == |q| - 1
  {
    q[..p] + q[p + 1..]
  }

  /** rmdir() for kind D, rm() for kind F: the node is unlinked unless it has children. */
  function Remove(a: Nodes, i: nat, kind: Kind, name: string): (a': Nodes)
    requires i < |a|
    ensures |a'| == |a|
  {
    var p := Place(a, a[i].kids, kind, name);
    if p == |a[i].kids| || a[a[i].kids[p]].kids != [] then a
    else a[i := a[i].(kids := Without(a[i].kids, p))]
  }

  /** The four commands that change the tree: mkdir and creat, rmdir and rm. */
  datatype Edit = Plus(kind: Kind, name: string) | Minus(kind: Kind, name: string)

  function Change(a: Nodes, i: nat, e: Edit): (a': Nodes)
    requires i < |a|
    ensures |a'| >= |a|
  {
    match e
    case Plus(kind, name) => Make(a, i, kind, name)
    case Minus(kind, name) => Remove(a, i, kind, name)
  }

  /** One step of locateDir(). */
  function Down(a: Nodes, i: nat, token: string): (r: Option<nat>)
    requires Ok(a) && i < |a|
    ensures r.Some? ==> r.value < |a|
  {
    if token == ".." && i != 0 then
      assert NodeOk(a, i);
      Some(a[i].parent)
    else
      var p := Place(a, a[i].kids, D, token);
      if p < |a[i].kids| then Some(a[i].kids[p]) else None
  }

  /** locateDir() from node i along the tokens. */
  function Locate(a: Nodes, i: nat, tokens: seq<string>): (r: Option<nat>)
    requires Ok(a) && i < |a|
    ensures r.Some? ==> r.value < |a|
    decreases |tokens|
  {
    if tokens == [] then Some(i)
    else match Down(a, i, tokens[0])
      case None => None
      case Some(j) => Locate(a, j, tokens[1..])
  }

  lemma {:induction false} MakeOk(a: Nodes, i: nat, kind: Kind, name: string)
    requires Ok(a) && i < |a| && a[i].kind == D
    ensures Ok(Make(a, i, kind, name))
  {
    var a' := Make(a, i, kind, name);
    if !Has(a, i, kind, name) {
      forall x: nat | x < |a'| ensures NodeOk(a', x) {
        if x < |a| {
          assert NodeOk(a, x);
          forall j: nat | j < |a[x].kids| ensures KidOk(a', x, a[x].kids[j]) { assert KidOk(a, x, a[x].kids[j]); }
        }
      }
    }
  }

  lemma {:induction false} RemoveOk(a: Nodes, i: nat, kind: Kind, name: string)
    requires Ok(a) && i < |a|
    ensures Ok(Remove(a, i, kind, name))
  {
    var a' := Remove(a, i, kind, name);
    var p := Place(a, a[i].kids, kind, name);
    forall x: nat | x < |a'| ensures NodeOk(a', x) {
      assert NodeOk(a, x);
      forall j: nat | j < |a[x].kids| ensures KidOk(a', x, a[x].kids[j]) { assert KidOk(a, x, a[x].kids[j]); }
      if x == i && a' != a {
        forall j: nat | j < |a'[i].kids| ensures a'[i].kids[j] == a[i].kids[if j < p then j else j + 1] { }
      }
    }
  }

  lemma {:induction false} ChangeOk(a: Nodes, i: nat, e: Edit)
    requires Ok(a) && i < |a| && a[i].kind == D
    ensures Ok(Change(a, i, e))
  {
    match e
    case Plus(kind, name) => MakeOk(a, i, kind, name);
    case Minus(kind, name) => RemoveOk(a, i, kind, name);
  }

  // ---------------------------------------------------------------- ordered trees

  datatype Tree = Tree(kind: Kind, name: string, kids: seq<Tree>)

  function TreeOf(a: Nodes, i: nat): Tree
    requires Ok(a) && i < |a|
    decreases |a| - i, 1
  {
    Tree(a[i].kind, a[i].name, TreesOf(a, i, 0))
  }

  /** The trees of the children of i from place p on. */
  function TreesOf(a: Nodes, i: nat, p: nat): (ts: seq<Tree>)
    requires Ok(a) && i < |a| && p <= |a[i].kids|
    ensures |ts| == |a[i].kids| - p
    decreases |a| - i, 0, |a[i].kids| - p
  {
    if p == |a[i].kids| then []
    else
      assert NodeOk(a, i) && KidOk(a, i, a[i].kids[p]);
      [TreeOf(a, a[i].kids[p])] + TreesOf(a, i, p + 1)
  }

  // ---------------------------------------------------------------- commands on trees

  /** The place of the first tree of this kind and name, or |ts|. */
  function TreePlace(ts: seq<Tree>, kind: Kind, name: string): (p: nat)
    ensures p <= |ts|
    ensures p < |ts| ==> ts[p].kind == kind && ts[p].name == name
    ensures forall j :: 0 <= j < p ==> !(ts[j].kind == kind && ts[j].name == name)
  {
    if ts == [] || (ts[0].kind == kind && ts[0].name == name) then 0 else 1 + TreePlace(ts[1..], kind, name)
  }

  /** The children of the directory in which a command is run: a new node goes to the end
      unless there is one of its kind and name; a removed node must have no children. */
  function EditHere(ts: seq<Tree>, e: Edit): seq<Tree> {
    var p := TreePlace(ts, e.kind, e.name);
    match e
    case Plus(kind, name) => if p < |ts| then ts else ts + [Tree(kind, name, [])]
    case Minus(_, _) => if p == |ts| || ts[p].kids != [] then ts else ts[..p] + ts[p + 1..]
  }

  /** The forest after a command in the directory at the path; unchanged if there is none. */
  function EditAt(ts: seq<Tree>, path: seq<string>, e: Edit): seq<Tree>
    decreases |path|
  {
    if path == [] then EditHere(ts, e)
    else
      var p := TreePlace(ts, D, path[0]);
      if p == |ts| then ts else ts[p := ts[p].(kids := EditAt(ts[p].kids, path[1..], e))]
  }

  lemma {:induction false} TreesAt(a: Nodes, i: nat, p: nat, j: nat)
    requires Ok(a) && i < |a| && p <= j < |a[i].kids|
    ensures a[i].kids[j] < |a| && TreesOf(a, i, p)[j - p] == TreeOf(a, a[i].kids[j])
    decreases j - p
  {
    assert NodeOk(a, i) && KidOk(a, i, a[i].kids[j]);
    if p < j { TreesAt(a, i, p + 1, j); }
  }

  lemma {:induction false} TreeAtHas(a: Nodes, i: nat, j: nat)
    requires Ok(a) && i < |a| && j < |a[i].kids|
    ensures var k := a[i].kids[j];
            k < |a| && TreesOf(a, i, 0)[j].kind == a[k].kind && TreesOf(a, i, 0)[j].name == a[k].name
  {
    TreesAt(a, i, 0, j);
  }

  lemma {:induction false} SamePlaces(a: Nodes, kids: seq<nat>, ts: seq<Tree>, kind: Kind, name: string)
    requires |ts| == |kids|
    requires forall j: nat :: j < |ts| ==> kids[j] < |a| && ts[j].kind == a[kids[j]].kind && ts[j].name == a[kids[j]].name
    ensures Place(a, kids, kind, name) == TreePlace(ts, kind, name)
  {
    if kids != [] {
      forall j: nat | j < |ts[1..]|
        ensures kids[1..][j] < |a| && ts[1..][j].kind == a[kids[1..][j]].kind && ts[1..][j].name == a[kids[1..][j]].name
      {
        assert ts[1..][j] == ts[j + 1] && kids[1..][j] == kids[j + 1];
      }
      SamePlaces(a, kids[1..], ts[1..], kind, name);
    }
  }

  lemma {:induction false} PlaceIsTreePlace(a: Nodes, i: nat, kind: Kind, name: string)
    requires Ok(a) && i < |a|
    ensures Place(a, a[i].kids, kind, name) == TreePlace(TreesOf(a, i, 0), kind, name)
  {
    var ts := TreesOf(a, i, 0);
    forall j: nat | j < |ts|
      ensures a[i].kids[j] < |a| && ts[j].kind == a[a[i].kids[j]].kind && ts[j].name == a[a[i].kids[j]].name
    {
      TreeAtHas(a, i, j);
    }
    SamePlaces(a, a[i].kids, ts, kind, name);
  }

  // ---------------------------------------------------------------- ancestors

  predicate IsAncestor(a: Nodes, x: nat, j: nat)
    requires Ok(a) && j < |a|
    decreases j
  {
    x == j || (assert NodeOk(a, j); a[j].parent >= 0 && IsAncestor(a, x, a[j].parent))
  }

  lemma {:induction false} AncestorOlder(a: Nodes, x: nat, j: nat)
    requires Ok(a) && j < |a| && IsAncestor(a, x, j)
    ensures x <= j
    decreases j
  {
    assert NodeOk(a, j);
    if x != j { AncestorOlder(a, x, a[j].parent); }
  }

  lemma {:induction false} ParentOfAncestor(a: Nodes, x: nat, c: nat, j: nat)
    requires Ok(a) && j < |a| && c < |a| && IsAncestor(a, c, j) && a[c].parent == x
    ensures IsAncestor(a, x, j)
    decreases j
  {
    assert NodeOk(a, j);
    if c != j { ParentOfAncestor(a, x, c, a[j].parent); }
  }

  /** Of two siblings at most one is above j. */
  lemma {:induction false} OneSiblingAbove(a: Nodes, c: nat, d: nat, j: nat)
    requires Ok(a) && j < |a| && c < |a| && d < |a| && a[c].parent == a[d].parent >= 0
    requires IsAncestor(a, c, j) && IsAncestor(a, d, j)
    ensures c == d
    decreases j
  {
    assert NodeOk(a, j) && NodeOk(a, c) && NodeOk(a, d);
    if c == j && d != j { AncestorOlder(a, d, a[j].parent); }
    else if d == j && c != j { AncestorOlder(a, c, a[j].parent); }
    else if c != j { OneSiblingAbove(a, c, d, a[j].parent); }
  }

  lemma {:induction false} LocateGoesDown(a: Nodes, i: nat, path: seq<string>)
    requires Ok(a) && i < |a| && Locate(a, i, path).Some?
    requires forall k :: 0 <= k < |path| ==> path[k] != ".."
    ensures IsAncestor(a, i, Locate(a, i, path).value)
    decreases |path|
  {
    if path != [] {
      var k := Down(a, i, path[0]).value;
      assert NodeOk(a, i) && KidOk(a, i, k);
      LocateGoesDown(a, k, path[1..]);
      ParentOfAncestor(a, i, k, Locate(a, i, path).value);
    }
  }

  // ---------------------------------------------------------------- the commands on trees

  /** A node that is not above the changed directory keeps its tree. */
  lemma {:induction false} TreeKept(a: Nodes, a': Nodes, j: nat, x: nat)
    requires Ok(a) && Ok(a') && |a| <= |a'| && j < |a| && x < |a|
    requires forall y :: 0 <= y < |a| && y != j ==> a'[y] == a[y]
    requires !IsAncestor(a, x, j)
    ensures TreeOf(a', x) == TreeOf(a, x)
    decreases |a| - x, 1
  {
    TreesKept(a, a', j, x, 0);
  }

  lemma {:induction false} TreesKept(a: Nodes, a': Nodes, j: nat, x: nat, p: nat)
    requires Ok(a) && Ok(a') && |a| <= |a'| && j < |a| && x < |a| && p <= |a[x].kids|
    requires forall y :: 0 <= y < |a| && y != j ==> a'[y] == a[y]
    requires !IsAncestor(a, x, j)
    ensures a'[x] == a[x] && TreesOf(a', x, p) == TreesOf(a, x, p)
    decreases |a| - x, 0, |a[x].kids| - p
  {
    if p < |a[x].kids| {
      var c := a[x].kids[p];
      assert NodeOk(a, x) && KidOk(a, x, c);
      if IsAncestor(a, c, j) { ParentOfAncestor(a, x, c, j); }
      TreeKept(a, a', j, c);
      TreesKept(a, a', j, x, p + 1);
    }
  }

  /** A command run in the directory at a path below i does to the ordered trees what EditAt
      does: mkdir and creat append one node there, rmdir and rm delete exactly one childless
      node there, and everything else keeps its place. */
  lemma {:induction false} ChangeIsEdit(a: Nodes, i: nat, path: seq<string>, e: Edit)
    requires Ok(a) && i < |a|
    requires forall k :: 0 <= k < |path| ==> path[k] != ".." || (k == 0 && i == 0)
    requires Locate(a, i, path).Some? && a[Locate(a, i, path).value].kind == D
    ensures var a' := Change(a, Locate(a, i, path).value, e);
            Ok(a') && TreesOf(a', i, 0) == EditAt(TreesOf(a, i, 0), path, e)
    decreases |path|
  {
    ChangeOk(a, Locate(a, i, path).value, e);
    if path == [] {
      ChangeHere(a, i, e);
    } else {
      var k := Down(a, i, path[0]).value;
      assert NodeOk(a, i) && KidOk(a, i, k);
      ChangeIsEdit(a, k, path[1..], e);
      ChangeBelow(a, i, path, e);
    }
  }

  lemma {:induction false} ChangeBelow(a: Nodes, i: nat, path: seq<string>, e: Edit)
    requires Ok(a) && i < |a| && path != []
    requires forall k :: 0 <= k < |path| ==> path[k] != ".." || (k == 0 && i == 0)
    requires Locate(a, i, path).Some? && a[Locate(a, i, path).value].kind == D
    requires var a', k := Change(a, Locate(a, i, path).value, e), Down(a, i, path[0]).value;
             Ok(a') && TreesOf(a', k, 0) == EditAt(TreesOf(a, k, 0), path[1..], e)
    ensures var a' := Change(a, Locate(a, i, path).value, e);
            TreesOf(a', i, 0) == EditAt(TreesOf(a, i, 0), path, e)
  {
    var j := Locate(a, i, path).value;
    var a' := Change(a, j, e);
    var ts, ts' := TreesOf(a, i, 0), EditAt(TreesOf(a, i, 0), path, e);
    var p := Place(a, a[i].kids, D, path[0]);
    var k := a[i].kids[p];
    assert NodeOk(a, i) && KidOk(a, i, k);
    PlaceIsTreePlace(a, i, D, path[0]);
    LocateGoesDown(a, k, path[1..]);
    AncestorOlder(a, k, j);
    ChangesOne(a, j, e);
    TreesAt(a, i, 0, p);
    TreesAt(a', i, 0, p);
    hide Change, Place, TreesOf, Locate, TreePlace;
    forall q | 0 <= q < |ts| && q != p ensures TreesOf(a', i, 0)[q] == ts[q] { OtherKid(a, a', i, p, q, j); }
    assert TreesOf(a', i, 0) == ts';
  }

  /** A command touches the node of its directory only. */
  lemma {:induction false} ChangesOne(a: Nodes, j: nat, e: Edit)
    requires j < |a|
    ensures forall y :: 0 <= y < |a| && y != j ==> Change(a, j, e)[y] == a[y]
    ensures Change(a, j, e)[j] == a[j].(kids := Change(a, j, e)[j].kids)
  {
  }

  /** The trees beside the one that holds the changed directory j stay as they are. */
  lemma {:induction false} OtherKid(a: Nodes, a': Nodes, i: nat, p: nat, q: nat, j: nat)
    requires Ok(a) && Ok(a') && |a| <= |a'| && i < |a| && j < |a| && i != j
    requires p < |a[i].kids| && q < |a[i].kids| && p != q
    requires forall y :: 0 <= y < |a| && y != j ==> a'[y] == a[y]
    requires IsAncestor(a, a[i].kids[p], j)
    ensures TreesOf(a', i, 0)[q] == TreesOf(a, i, 0)[q]
  {
    var c, k := a[i].kids[q], a[i].kids[p];
    assert NodeOk(a, i) && KidOk(a, i, c) && KidOk(a, i, k) && c != k;
    TreesAt(a, i, 0, q);
    TreesAt(a', i, 0, q);
    if IsAncestor(a, c, j) { OneSiblingAbove(a, c, k, j); }
    TreeKept(a, a', j, c);
  }

  lemma {:induction false} ChangeHere(a: Nodes, i: nat, e: Edit)
    requires Ok(a) && i < |a| && a[i].kind == D && Ok(Change(a, i, e))
    ensures TreesOf(Change(a, i, e), i, 0) == EditHere(TreesOf(a, i, 0), e)
  {
    PlaceIsTreePlace(a, i, e.kind, e.name);
    match e
    case Plus(kind, name) =>
      if !Has(a, i, kind, name) { NewKid(a, i, kind, name); }
    case Minus(kind, name) =>
      var p := Place(a, a[i].kids, kind, name);
      if p < |a[i].kids| {
        TreesAt(a, i, 0, p);
        if a[a[i].kids[p]].kids == [] { GoneKid(a, i, p); }
      }
  }

  /** The child lists of one directory change; its old children keep their trees. */
  lemma {:induction false} KidKept(a: Nodes, a': Nodes, i: nat, q: nat)
    requires Ok(a) && Ok(a') && |a| <= |a'| && i < |a| && q < |a[i].kids|
    requires forall y :: 0 <= y < |a| && y != i ==> a'[y] == a[y]
    ensures a[i].kids[q] < |a| && TreeOf(a', a[i].kids[q]) == TreesOf(a, i, 0)[q]
  {
    var c := a[i].kids[q];
    assert NodeOk(a, i) && KidOk(a, i, c);
    TreesAt(a, i, 0, q);
    if IsAncestor(a, c, i) { AncestorOlder(a, c, i); }
    TreeKept(a, a', i, c);
  }

  lemma {:induction false} NewKid(a: Nodes, i: nat, kind: Kind, name: string)
    requires Ok(a) && i < |a| && a[i].kind == D && !Has(a, i, kind, name)
    ensures var a' := Make(a, i, kind, name);
            Ok(a') && TreesOf(a', i, 0) == TreesOf(a, i, 0) + [Tree(kind, name, [])]
  {
    var a' := Make(a, i, kind, name);
    MakeOk(a, i, kind, name);
    var ts, ts' := TreesOf(a, i, 0) + [Tree(kind, name, [])], TreesOf(a', i, 0);
    forall q | 0 <= q < |ts'| ensures ts'[q] == ts[q] {
      TreesAt(a', i, 0, q);
      if q < |a[i].kids| { KidKept(a, a', i, q); }
    }
  }

  lemma {:induction false} GoneKid(a: Nodes, i: nat, p: nat)
    requires Ok(a) && i < |a| && p < |a[i].kids|
    requires Ok(a[i := a[i].(kids := Without(a[i].kids, p))])
    ensures var a' := a[i := a[i].(kids := Without(a[i].kids, p))];
            TreesOf(a', i, 0) == TreesOf(a, i, 0)[..p] + TreesOf(a, i, 0)[p + 1..]
  {
    var a' := a[i := a[i].(kids := Without(a[i].kids, p))];
    var ts, ts' := TreesOf(a, i, 0)[..p] + TreesOf(a, i, 0)[p + 1..], TreesOf(a', i, 0);
    forall q | 0 <= q < |ts'| ensures ts'[q] == ts[q] {
      TreesAt(a', i, 0, q);
      KidKept(a, a', i, if q < p then q else q + 1);
    }
  }
}
