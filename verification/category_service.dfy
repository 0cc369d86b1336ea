/** Categories as they are created and deleted, the ancestor chain, the forest and the inherited suggestions. */
module CategoryService {
  import opened Common
  import opened Text
  import opened CategoryGraph

  datatype CategoryError = ParentNotFound | NameTaken | CategoryNotFound

  // ---- no cycles ----------------------------------------------------------------------

  /** Every parent exists and ranks below its children: the order in which the rows were made. */
  ghost predicate Ranked(g: Graph, rank: map<Id, nat>) {
    rank.Keys == g.Keys &&
    forall x :: x in g && g[x].parentId.Some? ==> g[x].parentId.value in g && rank[g[x].parentId.value] < rank[x]
  }

  predicate StepsUp(g: Graph, x: Id, y: Id) {
    x in g && y in g && g[x].parentId == Some(y)
  }

  /** A walk up the parents, deleted ones included. */
  ghost predicate Walk(g: Graph, p: seq<Id>) {
    p != [] && p[0] in g && forall k :: 0 < k < |p| ==> StepsUp(g, p[k - 1], p[k])
  }

  /** No category is above itself. */
  ghost predicate Acyclic(g: Graph) {
    forall p :: Walk(g, p) && |p| > 1 ==> p[0] != p[|p| - 1]
  }

  lemma {:induction false} WalkDescendsInRank(g: Graph, rank: map<Id, nat>, p: seq<Id>)
    requires Ranked(g, rank) && Walk(g, p)
    ensures p[|p| - 1] in g && (|p| > 1 ==> rank[p[|p| - 1]] < rank[p[0]])
    decreases |p|
  {
    if |p| > 1 {
      assert StepsUp(g, p[|p| - 2], p[|p| - 1]);
      WalkDescendsInRank(g, rank, p[..|p| - 1]);
    }
  }

  lemma RankedIsAcyclic(g: Graph, rank: map<Id, nat>)
    requires Ranked(g, rank)
    ensures Acyclic(g)
  {
    forall p | Walk(g, p) && |p| > 1
      ensures p[0] != p[|p| - 1]
    {
      WalkDescendsInRank(g, rank, p);
    }
  }

  predicate HasLiveChild(g: Graph, id: Id) {
    exists y :: y in g && IsChild(g, id, y)
  }

  /** A name is taken under a parent by any row, deleted or not; roots may share names. */
  predicate NameIsTaken(g: Graph, name: string, parentId: Option<Id>) {
    parentId.Some? && exists x :: x in g && g[x].parentId == parentId && g[x].name == name
  }

  class Categories {
    var rows: Graph
    ghost var rank: map<Id, nat>

    constructor ()
      ensures Valid() && rows == map[]
    {
      rows, rank := map[], map[];
    }

    ghost predicate Valid()
      reads this
    {
      Ranked(rows, rank)
    }

    /** A new category goes under a row that exists, so the graph stays without cycles. */
    method CreateCategory(id: Id, name: string, parentId: Option<Id>) returns (result: Result<Category, CategoryError>)
      requires Valid() && id !in rows
      modifies this
      ensures Valid() && Acyclic(rows)
      ensures result.Ok? <==> (parentId.Some? ==> parentId.value in old(rows)) && !NameIsTaken(old(rows), name, parentId)
      ensures result.Ok? ==> rows == old(rows)[id := Category(name, parentId, false)] && result.value == rows[id]
      ensures result.Err? ==> rows == old(rows)
      ensures parentId.Some? && parentId.value !in old(rows) <==> result == Err(ParentNotFound)
      ensures result == Err(NameTaken) <==>
        parentId != None && parentId.value in old(rows) &&
        exists x :: x in old(rows) && old(rows)[x].parentId == parentId && old(rows)[x].name == name
    {
      RankedIsAcyclic(rows, rank);
      if parentId.Some? && parentId.value !in rows {
        return Err(ParentNotFound);
      }
      if NameIsTaken(rows, name, parentId) {
        return Err(NameTaken);
      }
      rows := rows[id := Category(name, parentId, false)];
      rank := rank[id := if parentId.Some? then rank[parentId.value] + 1 else 0];
      RankedIsAcyclic(rows, rank);
      result := Ok(rows[id]);
    }

    /**
     * Delete softly when something live hangs on the row, for good otherwise; rows that pointed at
     * it then point nowhere. Either way the graph stays without cycles.
     */
    method DeleteCategory(id: Id, isUsed: bool) returns (result: Result<bool, CategoryError>)
      requires Valid()
      modifies this
      ensures Valid() && Acyclic(rows)
      ensures result.Ok? <==> id in old(rows)
      ensures result.Err? ==> rows == old(rows)
      ensures result.Ok? && (isUsed || HasLiveChild(old(rows), id)) ==>
        !result.value && rows == old(rows)[id := old(rows)[id].(deleted := true)]
      ensures result.Ok? && !(isUsed || HasLiveChild(old(rows), id)) ==>
        result.value && rows == Detached(old(rows), id)
      ensures result.Ok? ==>
        (result.value <==> !isUsed && forall x :: x in old(rows) && old(rows)[x].parentId == Some(id) ==> old(rows)[x].deleted)
      ensures result.Ok? && result.value ==>
        rows.Keys == old(rows).Keys - {id} &&
        forall x :: x in rows ==>
          var was := old(rows)[x];
          rows[x] == if was.parentId == Some(id) then Category(was.name, None, was.deleted) else was
      ensures result.Ok? ==> forall x :: x != id ==> Live(rows, x) == Live(old(rows), x)
      ensures result.Ok? ==> !Live(rows, id)
    {
      RankedIsAcyclic(rows, rank);
      if id !in rows {
        return Err(CategoryNotFound);
      }
      if isUsed || HasLiveChild(rows, id) {
        rows := rows[id := rows[id].(deleted := true)];
        result := Ok(false);
      } else {
        rows := Detached(rows, id);
        rank := rank - {id};
        result := Ok(true);
      }
      RankedIsAcyclic(rows, rank);
    }
  }

  function Detached(g: Graph, id: Id): Graph {
    map x | x in g && x != id :: if g[x].parentId == Some(id) then g[x].(parentId := None) else g[x]
  }

  // ---- the ancestor chain -------------------------------------------------------------

  predicate HasLiveParent(g: Graph, x: Id) {
    x in g && g[x].parentId.Some? && Live(g, g[x].parentId.value)
  }

  /** A category and its live ancestors, nearest first. */
  ghost function Chain(g: Graph, rank: map<Id, nat>, x: Id): (chain: seq<Id>)
    requires Ranked(g, rank) && Live(g, x)
    ensures |chain| > 0 && chain[0] == x
    decreases rank[x]
  {
    if HasLiveParent(g, x) then [x] + Chain(g, rank, g[x].parentId.value) else [x]
  }

  /** The chain goes up parent by parent, and ends at a category with no live parent: a root of the forest. */
  lemma {:induction false} ChainClimbs(g: Graph, rank: map<Id, nat>, x: Id)
    requires Ranked(g, rank) && Live(g, x)
    ensures UpPath(g, Chain(g, rank, x))
    ensures var chain := Chain(g, rank, x); !HasLiveParent(g, chain[|chain| - 1])
    decreases rank[x]
  {
    if HasLiveParent(g, x) {
      ChainClimbs(g, rank, g[x].parentId.value);
    }
  }

  /** In the closure of one category, a parent is found exactly when it is live. */
  lemma ParentInClosure(g: Graph, closure: map<Id, Category>, start: Id, x: Id)
    requires FromGraph(g, closure) && (forall y :: y in closure <==> IsAbove(g, {start}, y))
    requires x in closure && g[x].parentId.Some?
    ensures g[x].parentId.value in closure <==> Live(g, g[x].parentId.value)
  {
    var y := g[x].parentId.value;
    AboveIsLive(g, {start}, x);
    if Live(g, y) {
      assert IsAbove(g, {start}, x);
      AscendsFurther(g, start, x, y);
    } else if y in closure {
      AboveIsLive(g, {start}, y);
    }
  }

  lemma AboveIsLive(g: Graph, ids: set<Id>, x: Id)
    requires IsAbove(g, ids, x)
    ensures Live(g, x)
  {
    var s :| s in ids && Ascends(g, s, x);
    var p :| UpPath(g, p) && p[0] == s && p[|p| - 1] == x;
    if |p| > 1 {
      assert IsParent(g, p[|p| - 2], p[|p| - 1]);
    }
  }

  lemma ChainNext(g: Graph, rank: map<Id, nat>, closure: map<Id, Category>, start: Id, x: Id)
    requires Ranked(g, rank) && FromGraph(g, closure) && (forall y :: y in closure <==> IsAbove(g, {start}, y))
    requires x in closure
    ensures Live(g, x) && closure[x].parentId == g[x].parentId
    ensures var p := g[x].parentId;
      if p.Some? && p.value in closure then
        Live(g, p.value) && Chain(g, rank, x) == [x] + Chain(g, rank, p.value) && rank[p.value] < rank[x]
      else Chain(g, rank, x) == [x]
  {
    AboveIsLive(g, {start}, x);
    if g[x].parentId.Some? {
      ParentInClosure(g, closure, start, x);
    }
  }

  /** The walk up the closure; it ends because the graph has no cycle. */
  method WalkUp(g: Graph, ghost rank: map<Id, nat>, categoryId: Id) returns (chain: seq<Id>)
    requires Ranked(g, rank) && Live(g, categoryId)
    ensures chain == Chain(g, rank, categoryId)
  {
    var closure := GetAncestorClosure(g, {categoryId});
    AscendsSelf(g, categoryId);
    assert IsAbove(g, {categoryId}, categoryId);
    hide IsAbove, Chain, Ranked, FromGraph;
    chain := [];
    var cursor := Some(categoryId);
    while cursor.Some?
      invariant cursor.Some? ==> cursor.value in closure && Live(g, cursor.value)
      invariant Chain(g, rank, categoryId) == chain + (if cursor.Some? then Chain(g, rank, cursor.value) else [])
      decreases if cursor.Some? then rank[cursor.value] + 1 else 0
    {
      var x := cursor.value;
      ChainNext(g, rank, closure, categoryId, x);
      chain := chain + [x];
      var parentId := closure[x].parentId;
      cursor := if parentId.Some? && parentId.value in closure then parentId else None;
    }
  }

  // ---- the forest ---------------------------------------------------------------------

  class TreeNode {
    const id: Id
    const name: string
    var subCategories: seq<TreeNode>

    constructor (id: Id, name: string)
      ensures this.id == id && this.name == name && subCategories == []
    {
      this.id, this.name, subCategories := id, name, [];
    }
  }

  /** The rows under `parent`, in row order. */
  function ChildRows(g: Graph, rows: seq<Id>, parent: Id): seq<Id> {
    if rows == [] then [] else
      var last := rows[|rows| - 1];
      ChildRows(g, rows[..|rows| - 1], parent) + if last in g && g[last].parentId == Some(parent) then [last] else []
  }

  /** The rows with no live parent, in row order. */
  function RootRows(g: Graph, rows: seq<Id>): seq<Id> {
    if rows == [] then [] else
      var last := rows[|rows| - 1];
      RootRows(g, rows[..|rows| - 1]) + if HasLiveParent(g, last) then [] else [last]
  }

  lemma {:induction false} ListedRows(g: Graph, rows: seq<Id>, parent: Id)
    requires Distinct(rows) && forall k :: 0 <= k < |rows| ==> rows[k] in g
    ensures Distinct(ChildRows(g, rows, parent)) && Distinct(RootRows(g, rows))
    ensures forall x :: x in ChildRows(g, rows, parent) <==> x in rows && g[x].parentId == Some(parent)
    ensures forall x :: x in RootRows(g, rows) <==> x in rows && !HasLiveParent(g, x)
    decreases |rows|
  {
    if rows != [] {
      var n := |rows| - 1;
      ListedRows(g, rows[..n], parent);
      assert rows == rows[..n] + [rows[n]];
      assert rows[n] !in rows[..n];
    }
  }

  /**
   * Every live category is in exactly one list, once: among the roots, or under its live parent.
   */
  lemma PlacedOnce(g: Graph, rows: seq<Id>, x: Id)
    requires Distinct(rows) && (forall y :: y in rows <==> Live(g, y)) && Live(g, x)
    ensures Distinct(RootRows(g, rows))
    ensures x in RootRows(g, rows) <==> forall p :: Live(g, p) ==> x !in ChildRows(g, rows, p)
    ensures forall p :: Distinct(ChildRows(g, rows, p))
    ensures forall p, q :: x in ChildRows(g, rows, p) && x in ChildRows(g, rows, q) ==> p == q
  {
    assert forall k :: 0 <= k < |rows| ==> rows[k] in rows;
    forall p
      ensures Distinct(ChildRows(g, rows, p)) && Distinct(RootRows(g, rows))
      ensures x in ChildRows(g, rows, p) <==> g[x].parentId == Some(p)
      ensures x in RootRows(g, rows) <==> !HasLiveParent(g, x)
    {
      ListedRows(g, rows, p);
    }
    ListedRows(g, rows, x);
    if HasLiveParent(g, x) {
      assert x in ChildRows(g, rows, g[x].parentId.value);
    }
  }

  /** The nodes of a list of rows. */
  ghost function Nodes(byId: map<Id, TreeNode>, ids: seq<Id>): seq<TreeNode>
    requires forall k :: 0 <= k < |ids| ==> ids[k] in byId
  {
    seq(|ids|, k requires 0 <= k < |ids| => byId[ids[k]])
  }

  /** `held` are the nodes of the rows under `x`. */
  ghost predicate Holds(byId: map<Id, TreeNode>, g: Graph, rows: seq<Id>, x: Id, held: seq<TreeNode>) {
    var ids := ChildRows(g, rows, x);
    (forall k :: 0 <= k < |ids| ==> ids[k] in byId) && held == Nodes(byId, ids)
  }

  lemma HoldsOneMore(byId: map<Id, TreeNode>, g: Graph, rows: seq<Id>, row: Id, x: Id, held: seq<TreeNode>)
    requires Holds(byId, g, rows, x, held) && row in g && row in byId
    ensures Holds(byId, g, rows + [row], x, if g[row].parentId == Some(x) then held + [byId[row]] else held)
  {
    hide Nodes;
    assert (rows + [row])[..|rows|] == rows;
    NodesAppend(byId, ChildRows(g, rows, x), row);
  }

  lemma RootsOneMore(byId: map<Id, TreeNode>, g: Graph, rows: seq<Id>, row: Id, roots: seq<TreeNode>)
    requires HoldsRoots(byId, g, rows, roots) && row in g && row in byId
    ensures HoldsRoots(byId, g, rows + [row], if HasLiveParent(g, row) then roots else roots + [byId[row]])
  {
    hide Nodes, HasLiveParent;
    assert (rows + [row])[..|rows|] == rows;
    NodesAppend(byId, RootRows(g, rows), row);
  }

  lemma NodesAppend(byId: map<Id, TreeNode>, ids: seq<Id>, row: Id)
    requires (forall k :: 0 <= k < |ids| ==> ids[k] in byId) && row in byId
    ensures ids + [] == ids
    ensures forall k :: 0 <= k < |ids + [row]| ==> (ids + [row])[k] in byId
    ensures Nodes(byId, ids + [row]) == Nodes(byId, ids) + [byId[row]]
  {
  }

  ghost predicate HoldsRoots(byId: map<Id, TreeNode>, g: Graph, rows: seq<Id>, roots: seq<TreeNode>) {
    var ids := RootRows(g, rows);
    (forall k :: 0 <= k < |ids| ==> ids[k] in byId) && roots == Nodes(byId, ids)
  }

  method MakeNodes(g: Graph, rows: seq<Id>) returns (byId: map<Id, TreeNode>, ghost made: set<TreeNode>)
    requires forall k :: 0 <= k < |rows| ==> rows[k] in g
    ensures fresh(made) && forall x :: x in byId <==> x in rows
    ensures forall x :: x in byId ==> NodeOf(byId[x], g, x) && byId[x] in made && byId[x].subCategories == []
  {
    byId, made := map[], {};
    for k := 0 to |rows|
      invariant fresh(made) && forall x :: x in byId <==> x in rows[..k]
      invariant forall x :: x in byId ==> NodeOf(byId[x], g, x) && byId[x] in made && byId[x].subCategories == []
    {
      assert rows[..k + 1] == rows[..k] + [rows[k]];
      var node := new TreeNode(rows[k], g[rows[k]].name);
      byId := byId[rows[k] := node];
      made := made + {node};
    }
    assert rows[..|rows|] == rows;
  }

  /** The node carries its row's id and name. */
  ghost predicate NodeOf(node: TreeNode, g: Graph, x: Id) {
    x in g && node.id == x && node.name == g[x].name
  }

  /** The live categories linked up: each node is under its parent's node, the others are roots. */
  method GetAllCategoryTrees(g: Graph, rows: seq<Id>) returns (roots: seq<TreeNode>, ghost nodes: map<Id, TreeNode>)
    requires Distinct(rows) && forall x :: x in rows <==> Live(g, x)
    ensures forall x :: x in nodes <==> Live(g, x)
    ensures forall x :: x in nodes ==> fresh(nodes[x]) && NodeOf(nodes[x], g, x)
    ensures forall x :: x in nodes ==> Holds(nodes, g, rows, x, nodes[x].subCategories)
    ensures HoldsRoots(nodes, g, rows, roots)
  {
    assert forall k :: 0 <= k < |rows| ==> rows[k] in rows;
    var byId, made := MakeNodes(g, rows);
    nodes := byId;
    roots := LinkNodes(byId, made, g, rows);
  }

  /** Every node holds the nodes of its rows. */
  ghost predicate Linked(byId: map<Id, TreeNode>, made: set<TreeNode>, g: Graph, rows: seq<Id>)
    reads made
  {
    forall x :: x in byId ==> byId[x] in made && Holds(byId, g, rows, x, byId[x].subCategories)
  }

  /** There is a node for each live category, under its own id. */
  ghost predicate Indexes(byId: map<Id, TreeNode>, g: Graph) {
    (forall x :: x in byId <==> Live(g, x)) && forall x :: x in byId ==> byId[x].id == x
  }

  /** The second loop: each node is pushed where it belongs. */
  method LinkNodes(byId: map<Id, TreeNode>, ghost made: set<TreeNode>, g: Graph, rows: seq<Id>) returns (roots: seq<TreeNode>)
    requires forall x :: x in byId ==> byId[x] in made && byId[x].subCategories == []
    requires Indexes(byId, g) && forall k :: 0 <= k < |rows| ==> rows[k] in byId
    modifies made
    ensures Linked(byId, made, g, rows) && HoldsRoots(byId, g, rows, roots)
  {
    roots := [];
    StartForest(byId, g);
    assert rows[..0] == [];
    assert Built(byId, made, g, rows, 0, roots);
    hide Built;
    for k := 0 to |rows|
      invariant Built(byId, made, g, rows, k, roots)
    {
      roots := Attach(byId, made, g, rows, k, roots);
    }
    AllBuilt(byId, made, g, rows, roots);
  }

  /** The first `k` rows are where they belong. */
  ghost predicate Built(byId: map<Id, TreeNode>, made: set<TreeNode>, g: Graph, rows: seq<Id>, k: nat, roots: seq<TreeNode>)
    reads made
  {
    k <= |rows| && Linked(byId, made, g, rows[..k]) && HoldsRoots(byId, g, rows[..k], roots)
  }

  lemma AllBuilt(byId: map<Id, TreeNode>, made: set<TreeNode>, g: Graph, rows: seq<Id>, roots: seq<TreeNode>)
    requires Built(byId, made, g, rows, |rows|, roots)
    ensures Linked(byId, made, g, rows) && HoldsRoots(byId, g, rows, roots)
  {
    assert rows[..|rows|] == rows;
  }

  /** Push row `k`'s node to its parent's children, or to the roots. */
  method Attach(byId: map<Id, TreeNode>, ghost made: set<TreeNode>, g: Graph, rows: seq<Id>, k: nat, roots: seq<TreeNode>)
      returns (roots': seq<TreeNode>)
    requires Indexes(byId, g) && k < |rows| && rows[k] in byId && Built(byId, made, g, rows, k, roots)
    modifies made
    ensures Built(byId, made, g, rows, k + 1, roots')
  {
    hide Holds, HoldsRoots;
    assert rows[..k + 1] == rows[..k] + [rows[k]];
    var node := byId[rows[k]];
    var parentId := g[rows[k]].parentId;
    RootsOneMore(byId, g, rows[..k], rows[k], roots);
    forall x | x in byId
      ensures Holds(byId, g, rows[..k + 1], x,
        if parentId == Some(x) then byId[x].subCategories + [node] else byId[x].subCategories)
    {
      HoldsOneMore(byId, g, rows[..k], rows[k], x, byId[x].subCategories);
    }
    if parentId.Some? && parentId.value in byId {
      var parent := byId[parentId.value];
      parent.subCategories := parent.subCategories + [node];
      roots' := roots;
    } else {
      roots' := roots + [node];
    }
  }

  lemma StartForest(byId: map<Id, TreeNode>, g: Graph)
    ensures forall x :: x in byId ==> Holds(byId, g, [], x, [])
    ensures HoldsRoots(byId, g, [], [])
  {
  }

  // ---- inherited suggestions ----------------------------------------------------------

  /** A name as a category of the chain declares it. */
  datatype Declared = Declared(depth: nat, source: Id, name: string)

  datatype Suggestion = Suggestion(name: string, inherited: bool, fromCategoryName: Option<string>)

  type Buckets = map<Id, seq<string>>

  function Bucket(buckets: Buckets, x: Id): seq<string> {
    if x in buckets then buckets[x] else []
  }

  function DeclaredBy(buckets: Buckets, x: Id, depth: nat): seq<Declared> {
    seq(|Bucket(buckets, x)|, k requires 0 <= k < |Bucket(buckets, x)| => Declared(depth, x, Bucket(buckets, x)[k]))
  }

  /** Everything the chain declares, nearest category first. */
  function AllDeclared(buckets: Buckets, chain: seq<Id>): seq<Declared> {
    if chain == [] then [] else
      AllDeclared(buckets, chain[..|chain| - 1]) + DeclaredBy(buckets, chain[|chain| - 1], |chain| - 1)
  }

  predicate DeclaresKey(ds: seq<Declared>, key: string) {
    exists k :: 0 <= k < |ds| && Fold(ds[k].name) == key
  }

  /** The declarations whose key no earlier one has. */
  function Firsts(ds: seq<Declared>): seq<Declared> {
    if ds == [] then [] else
      var before, last := ds[..|ds| - 1], ds[|ds| - 1];
      Firsts(before) + if DeclaresKey(before, Fold(last.name)) then [] else [last]
  }

  lemma {:induction false} DepthsAscend(buckets: Buckets, chain: seq<Id>, i: nat, j: nat)
    requires i <= j < |AllDeclared(buckets, chain)|
    ensures AllDeclared(buckets, chain)[i].depth <= AllDeclared(buckets, chain)[j].depth < |chain|
    decreases |chain|
  {
    var before := AllDeclared(buckets, chain[..|chain| - 1]);
    if i < |before| {
      DepthsAscend(buckets, chain[..|chain| - 1], i, if j < |before| then j else i);
    }
  }

  /** What is suggested was declared, first of its key, and every key declared is suggested. */
  lemma {:induction false} FirstsOfKeys(ds: seq<Declared>)
    ensures forall i, j :: 0 <= i < j < |Firsts(ds)| ==> Fold(Firsts(ds)[i].name) != Fold(Firsts(ds)[j].name)
    ensures forall i :: 0 <= i < |Firsts(ds)| ==> DeclaresKey(ds, Fold(Firsts(ds)[i].name))
    ensures forall key :: DeclaresKey(ds, key) ==> DeclaresKey(Firsts(ds), key)
    decreases |ds|
  {
    if ds != [] {
      var n := |ds| - 1;
      FirstsOfKeys(ds[..n]);
      assert ds == ds[..n] + [ds[n]];
      DeclaresAppend(ds[..n], ds[n]);
      DeclaresAppend(Firsts(ds[..n]), ds[n]);
      assert Firsts(ds[..n]) + [] == Firsts(ds[..n]);
    }
  }

  lemma DeclaresAppend(ds: seq<Declared>, d: Declared)
    ensures forall key :: DeclaresKey(ds + [d], key) <==> DeclaresKey(ds, key) || Fold(d.name) == key
  {
    forall key | DeclaresKey(ds, key)
      ensures DeclaresKey(ds + [d], key)
    {
      var k :| 0 <= k < |ds| && Fold(ds[k].name) == key;
      assert (ds + [d])[k] == ds[k];
    }
    assert (ds + [d])[|ds|] == d;
  }

  /** A suggestion comes from the first declaration of its key. */
  lemma {:induction false} FirstOfItsKey(ds: seq<Declared>, i: nat, j: nat)
    requires i < |Firsts(ds)| && j < |ds| && Fold(ds[j].name) == Fold(Firsts(ds)[i].name)
    ensures exists k :: 0 <= k <= j && ds[k] == Firsts(ds)[i]
    decreases |ds|
  {
    hide Fold;
    var n := |ds| - 1;
    var before := Firsts(ds[..n]);
    if i < |before| {
      if j == n {
        FirstsOfKeys(ds[..n]);
        var m :| 0 <= m < n && Fold(ds[..n][m].name) == Fold(before[i].name);
        FirstOfItsKey(ds[..n], i, m);
      } else {
        FirstOfItsKey(ds[..n], i, j);
      }
    } else {
      assert Firsts(ds)[i] == ds[n] && !DeclaresKey(ds[..n], Fold(ds[n].name));
      forall m | 0 <= m < n
        ensures Fold(ds[m].name) != Fold(ds[n].name)
      {
        assert ds[..n][m] == ds[m];
      }
    }
  }

  /** Nearest wins: no category nearer than a suggestion's own declares its key. */
  lemma NearestWins(buckets: Buckets, chain: seq<Id>, i: nat, j: nat)
    requires i < |Firsts(AllDeclared(buckets, chain))| && j < |AllDeclared(buckets, chain)|
    requires Fold(AllDeclared(buckets, chain)[j].name) == Fold(Firsts(AllDeclared(buckets, chain))[i].name)
    ensures Firsts(AllDeclared(buckets, chain))[i].depth <= AllDeclared(buckets, chain)[j].depth
  {
    var ds := AllDeclared(buckets, chain);
    FirstOfItsKey(ds, i, j);
    var k :| 0 <= k <= j && ds[k] == Firsts(ds)[i];
    DepthsAscend(buckets, chain, k, j);
  }

  function Shown(g: Graph, d: Declared): Suggestion
    requires d.source in g
  {
    Suggestion(d.name, d.depth > 0, if d.depth == 0 then None else Some(g[d.source].name))
  }

  /** The suggestions for a category: the first declaration of each key up its chain. */
  method GetVariantSuggestions(g: Graph, ghost rank: map<Id, nat>, buckets: Buckets, categoryId: Id)
      returns (result: Result<seq<Suggestion>, CategoryError>, ghost chain: seq<Id>, ghost picked: seq<Declared>)
    requires Ranked(g, rank)
    ensures result.Ok? <==> Live(g, categoryId)
    ensures result.Ok? ==>
      chain == Chain(g, rank, categoryId) && picked == Firsts(AllDeclared(buckets, chain)) &&
      |result.value| == |picked| &&
      forall k :: 0 <= k < |picked| ==> picked[k].source in g && result.value[k] == Shown(g, picked[k])
  {
    if !Live(g, categoryId) {
      return Err(CategoryNotFound), [], [];
    }
    var up := WalkUp(g, rank, categoryId);
    ChainClimbs(g, rank, categoryId);
    chain := up;
    var seen: set<string> := {};
    var suggestions: seq<Suggestion> := [];
    picked := [];
    assert Collected(g, AllDeclared(buckets, up[..0]), seen, suggestions, picked);
    hide Collected, Chain, UpPath, DeclaredBy;
    for depth := 0 to |up|
      invariant Collected(g, AllDeclared(buckets, up[..depth]), seen, suggestions, picked)
    {
      assert up[..depth + 1][..depth] == up[..depth];
      OnPathIsLive(g, up, depth);
      seen, suggestions, picked :=
        CollectBucket(g, buckets, up[depth], depth, AllDeclared(buckets, up[..depth]), seen, suggestions, picked);
    }
    assert up[..|up|] == up;
    result := Ok(suggestions);
    CollectedMeans(g, AllDeclared(buckets, up), seen, suggestions, picked);
  }

  lemma CollectedMeans(g: Graph, ds: seq<Declared>, seen: set<string>, suggestions: seq<Suggestion>, picked: seq<Declared>)
    requires Collected(g, ds, seen, suggestions, picked)
    ensures picked == Firsts(ds) && |suggestions| == |picked|
    ensures forall k :: 0 <= k < |picked| ==> picked[k].source in g && suggestions[k] == Shown(g, picked[k])
    ensures forall key :: key in seen <==> DeclaresKey(ds, key)
  {
  }

  /** The rows of one category of the chain, in order; a key seen nearer by is passed over. */
  method CollectBucket(g: Graph, buckets: Buckets, x: Id, depth: nat, ghost before: seq<Declared>,
      seen: set<string>, suggestions: seq<Suggestion>, ghost picked: seq<Declared>)
      returns (seen': set<string>, suggestions': seq<Suggestion>, ghost picked': seq<Declared>)
    requires x in g && Collected(g, before, seen, suggestions, picked)
    ensures Collected(g, before + DeclaredBy(buckets, x, depth), seen', suggestions', picked')
  {
    seen', suggestions', picked' := seen, suggestions, picked;
    var names := Bucket(buckets, x);
    ghost var own := DeclaredBy(buckets, x, depth);
    assert before + own[..0] == before;
    hide Collected, Fold;
    for m := 0 to |names|
      invariant Collected(g, before + own[..m], seen', suggestions', picked')
    {
      ghost var d := Declared(depth, x, names[m]);
      assert before + own[..m + 1] == before + own[..m] + [d];
      CollectedNext(g, before + own[..m], seen', suggestions', picked', d);
      var key := Fold(names[m]);
      if key !in seen' {
        seen' := seen' + {key};
        suggestions' := suggestions' + [Suggestion(names[m], depth != 0, if depth == 0 then None else Some(g[x].name))];
        picked' := picked' + [d];
      }
    }
    assert own[..|names|] == own;
  }

  lemma OnPathIsLive(g: Graph, p: seq<Id>, k: nat)
    requires UpPath(g, p) && k < |p|
    ensures Live(g, p[k])
  {
    if k > 0 {
      assert IsParent(g, p[k - 1], p[k]);
    }
  }

  /** What the loops have built once `ds` is declared. */
  ghost predicate Collected(g: Graph, ds: seq<Declared>, seen: set<string>, suggestions: seq<Suggestion>, picked: seq<Declared>) {
    picked == Firsts(ds) && (forall key :: key in seen <==> DeclaresKey(ds, key)) &&
    |suggestions| == |picked| &&
    forall k :: 0 <= k < |picked| ==> picked[k].source in g && suggestions[k] == Shown(g, picked[k])
  }

  lemma CollectedNext(g: Graph, ds: seq<Declared>, seen: set<string>, suggestions: seq<Suggestion>, picked: seq<Declared>, d: Declared)
    requires Collected(g, ds, seen, suggestions, picked) && d.source in g
    ensures var key := Fold(d.name);
      if key in seen then Collected(g, ds + [d], seen, suggestions, picked)
      else Collected(g, ds + [d], seen + {key}, suggestions + [Shown(g, d)], picked + [d])
  {
    DeclaresAppend(ds, d);
    assert (ds + [d])[..|ds|] == ds;
    assert Firsts(ds) + [] == Firsts(ds);
  }
}
