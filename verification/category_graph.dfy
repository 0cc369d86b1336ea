/** The category rows as a graph, and the two closures computed level by level over it. */
module CategoryGraph {
  import opened Common

  type Id = string

  datatype Category = Category(name: string, parentId: Option<Id>, deleted: bool)

  /** Any rows at all: parents may be missing, deleted or in a cycle. */
  type Graph = map<Id, Category>

  predicate Live(g: Graph, x: Id) {
    x in g && !g[x].deleted
  }

  /** `y` is a live child of `x`, which need not be a live category itself. */
  predicate IsChild(g: Graph, x: Id, y: Id) {
    Live(g, y) && g[y].parentId == Some(x)
  }

  /** `y` is the live parent of the live `x`. */
  predicate IsParent(g: Graph, x: Id, y: Id) {
    Live(g, x) && Live(g, y) && g[x].parentId == Some(y)
  }

  // ---- reachability -------------------------------------------------------------------

  /** A path downwards, each step to a live child. */
  ghost predicate DownPath(g: Graph, p: seq<Id>) {
    p != [] && forall k :: 0 < k < |p| ==> IsChild(g, p[k - 1], p[k])
  }

  ghost predicate Descends(g: Graph, x: Id, y: Id) {
    exists p :: DownPath(g, p) && p[0] == x && p[|p| - 1] == y
  }

  /** A path upwards through live categories. */
  ghost predicate UpPath(g: Graph, p: seq<Id>) {
    p != [] && Live(g, p[0]) && forall k :: 0 < k < |p| ==> IsParent(g, p[k - 1], p[k])
  }

  ghost predicate Ascends(g: Graph, x: Id, y: Id) {
    exists p :: UpPath(g, p) && p[0] == x && p[|p| - 1] == y
  }

  lemma DescendsSelf(g: Graph, x: Id)
    ensures Descends(g, x, x)
  {
    assert DownPath(g, [x]);
  }

  lemma DescendsFurther(g: Graph, x: Id, y: Id, z: Id)
    requires Descends(g, x, y) && IsChild(g, y, z)
    ensures Descends(g, x, z)
  {
    var p :| DownPath(g, p) && p[0] == x && p[|p| - 1] == y;
    var q := p + [z];
    assert DownPath(g, q) && q[0] == x && q[|q| - 1] == z;
  }

  lemma AscendsSelf(g: Graph, x: Id)
    requires Live(g, x)
    ensures Ascends(g, x, x)
  {
    assert UpPath(g, [x]);
  }

  lemma AscendsFurther(g: Graph, x: Id, y: Id, z: Id)
    requires Ascends(g, x, y) && IsParent(g, y, z)
    ensures Ascends(g, x, z)
  {
    var p :| UpPath(g, p) && p[0] == x && p[|p| - 1] == y;
    var q := p + [z];
    assert UpPath(g, q) && q[0] == x && q[|q| - 1] == z;
  }

  /** A set that holds the start and every live child of its members holds all descendants. */
  lemma {:induction false} ClosedDownward(g: Graph, s: set<Id>, p: seq<Id>)
    requires DownPath(g, p) && p[0] in s && forall x, y :: x in s && IsChild(g, x, y) ==> y in s
    ensures p[|p| - 1] in s
    decreases |p|
  {
    if |p| > 1 {
      var q := p[..|p| - 1];
      ClosedDownward(g, s, q);
      assert IsChild(g, q[|q| - 1], p[|p| - 1]);
    }
  }

  lemma {:induction false} ClosedUpward(g: Graph, s: set<Id>, p: seq<Id>)
    requires UpPath(g, p) && p[0] in s && forall x, y :: x in s && IsParent(g, x, y) ==> y in s
    ensures p[|p| - 1] in s
    decreases |p|
  {
    if |p| > 1 {
      var q := p[..|p| - 1];
      ClosedUpward(g, s, q);
      assert IsParent(g, q[|q| - 1], p[|p| - 1]);
    }
  }

  // ---- the repository's queries -------------------------------------------------------

  function SetOf<T>(s: seq<T>): set<T> {
    set k | 0 <= k < |s| :: s[k]
  }

  /** The ids of a set of rows, in whatever order the database gives them. */
  method AnyOrder(rows: set<Id>) returns (ids: seq<Id>)
    ensures Distinct(ids) && SetOf(ids) == rows
  {
    ids := [];
    var todo := rows;
    while todo != {}
      invariant todo <= rows && Distinct(ids) && SetOf(ids) == rows - todo
    {
      var x :| x in todo;
      assert SetOf(ids + [x]) == SetOf(ids) + {x} by {
        SetOfAppend(ids, [x]);
        assert [x][0] == x;
      }
      assert x !in SetOf(ids);
      ids := ids + [x];
      todo := todo - {x};
    }
  }

  lemma SetOfAppend<T>(a: seq<T>, b: seq<T>)
    ensures SetOf(a + b) == SetOf(a) + SetOf(b)
  {
    forall x | x in SetOf(a) + SetOf(b)
      ensures x in SetOf(a + b)
    {
      if x in SetOf(a) {
        var k :| 0 <= k < |a| && a[k] == x;
        assert (a + b)[k] == x;
      } else {
        var k :| 0 <= k < |b| && b[k] == x;
        assert (a + b)[|a| + k] == x;
      }
    }
  }

  function ChildrenOf(g: Graph, queue: set<Id>): set<Id> {
    set y | y in g && !g[y].deleted && g[y].parentId.Some? && g[y].parentId.value in queue
  }

  function LiveAmong(g: Graph, queue: set<Id>): set<Id> {
    set x | x in queue && Live(g, x)
  }

  // ---- descendants --------------------------------------------------------------------

  /** The ids not seen before, in order. */
  function Unseen(found: seq<Id>, ids: seq<Id>): seq<Id> {
    if found == [] then [] else
      Unseen(found[..|found| - 1], ids) + if found[|found| - 1] in ids then [] else [found[|found| - 1]]
  }

  lemma {:induction false} UnseenAre(found: seq<Id>, ids: seq<Id>)
    requires Distinct(found)
    ensures Distinct(Unseen(found, ids)) && SetOf(Unseen(found, ids)) == SetOf(found) - SetOf(ids)
    decreases |found|
  {
    if found == [] {
      assert SetOf(found) == {} && SetOf(Unseen(found, ids)) == {};
    } else {
      var n := |found| - 1;
      UnseenAre(found[..n], ids);
      SetOfAppend(found[..n], [found[n]]);
      assert found == found[..n] + [found[n]] && SetOf([found[n]]) == {found[n]};
      SetOfAppend(Unseen(found[..n], ids), if found[n] in ids then [] else [found[n]]);
      assert found[n] !in SetOf(found[..n]);
      assert found[n] in ids <==> found[n] in SetOf(ids);
    }
  }

  /** Everything a row's children can add is in the list, except below the rows still queued. */
  ghost predicate ClosedExcept(g: Graph, ids: set<Id>, queue: set<Id>) {
    forall x, y :: x in ids && x !in queue && IsChild(g, x, y) ==> y in ids
  }

  /** The start and everything below it through live children, each once, on any graph. */
  method GetDescendantCategoryIds(g: Graph, categoryId: Id) returns (ids: seq<Id>)
    ensures Distinct(ids) && ids != [] && ids[0] == categoryId
    ensures forall x :: x in ids <==> Descends(g, categoryId, x)
  {
    ids := [categoryId];
    var queue := [categoryId];
    SingleDown(g, categoryId);
    hide Descends, ClosedExcept, SetOf;
    while |queue| > 0
      invariant Distinct(ids) && ids != [] && ids[0] == categoryId
      invariant DownTo(g, categoryId, SetOf(ids), SetOf(queue))
      invariant |queue| > 0 ==> queue[0] in SetOf(queue)
      decreases g.Keys - SetOf(ids), |queue|
    {
      var childIds := AnyOrder(ChildrenOf(g, SetOf(queue)));
      LevelDown(g, categoryId, SetOf(ids), SetOf(queue));
      if |childIds| == 0 {
        EmptySetOf(childIds);
        break;
      }
      UnseenAre(childIds, ids);
      queue := Unseen(childIds, ids);
      SetOfAppend(ids, queue);
      DistinctAppend(ids, queue);
      NextLevel(g, SetOf(ids), childIds, queue);
      ids := ids + queue;
    }
    if queue == [] {
      EmptySetOf(queue);
    }
    DownDone(g, categoryId, ids, SetOf(queue));
  }

  /** What is listed is below the start, and only below `queue` can anything be missing. */
  ghost predicate DownTo(g: Graph, start: Id, ids: set<Id>, queue: set<Id>) {
    queue <= ids && start in ids && (forall x :: x in ids ==> Descends(g, start, x)) &&
    (ClosedExcept(g, ids, queue) || ClosedExcept(g, ids, {}))
  }

  lemma SingleDown(g: Graph, start: Id)
    ensures SetOf([start]) == {start} && DownTo(g, start, SetOf([start]), SetOf([start]))
    ensures start in SetOf([start])
  {
    assert [start][0] == start;
    DescendsSelf(g, start);
  }

  lemma EmptySetOf(s: seq<Id>)
    requires s == []
    ensures SetOf(s) == {}
  {
  }

  /** A non-empty level of unseen rows shrinks what is left to see. */
  lemma NextLevel(g: Graph, ids: set<Id>, childIds: seq<Id>, queue: seq<Id>)
    requires SetOf(childIds) <= g.Keys && SetOf(queue) == SetOf(childIds) - ids
    ensures |queue| > 0 ==> queue[0] in SetOf(queue) && queue[0] in g.Keys - ids
  {
  }

  lemma LevelDown(g: Graph, start: Id, ids: set<Id>, queue: set<Id>)
    requires DownTo(g, start, ids, queue)
    ensures var more := ids + (ChildrenOf(g, queue) - ids);
      DownTo(g, start, more, ChildrenOf(g, queue) - ids)
    ensures ChildrenOf(g, queue) == {} ==> ClosedExcept(g, ids, {})
    ensures ChildrenOf(g, queue) <= g.Keys
  {
    LevelReached(g, start, ids, queue);
    var more := ids + (ChildrenOf(g, queue) - ids);
    forall x, y | x in ids && IsChild(g, x, y)
      ensures y in more
    {
      assert y in ids || x in queue;
    }
  }

  lemma DownDone(g: Graph, start: Id, ids: seq<Id>, queue: set<Id>)
    requires DownTo(g, start, SetOf(ids), queue) && (queue == {} || ClosedExcept(g, SetOf(ids), {}))
    ensures forall x :: x in ids <==> Descends(g, start, x)
  {
    assert forall x :: x in ids <==> x in SetOf(ids);
    forall x | Descends(g, start, x)
      ensures x in SetOf(ids)
    {
      var p :| DownPath(g, p) && p[0] == start && p[|p| - 1] == x;
      ClosedDownward(g, SetOf(ids), p);
    }
  }

  lemma DistinctAppend(a: seq<Id>, b: seq<Id>)
    requires Distinct(a) && Distinct(b) && SetOf(b) !! SetOf(a)
    ensures Distinct(a + b)
  {
    forall i, j | 0 <= i < j < |a + b|
      ensures (a + b)[i] != (a + b)[j]
    {
      if i < |a| <= j {
        assert a[i] in SetOf(a) && b[j - |a|] in SetOf(b);
      }
    }
  }

  lemma LevelReached(g: Graph, start: Id, ids: set<Id>, queue: set<Id>)
    requires queue <= ids && forall x :: x in ids ==> Descends(g, start, x)
    ensures forall y :: y in ChildrenOf(g, queue) ==> Descends(g, start, y)
  {
    forall y | y in ChildrenOf(g, queue)
      ensures Descends(g, start, y)
    {
      DescendsFurther(g, start, g[y].parentId.value, y);
    }
  }

  // ---- ancestors ----------------------------------------------------------------------

  ghost predicate UpClosedExcept(g: Graph, seen: set<Id>, queue: set<Id>) {
    forall x, y :: x in seen && IsParent(g, x, y) ==> y in seen || y in queue
  }

  /** The parents not resolved yet of the rows just read. */
  function UnresolvedParents(g: Graph, nodes: set<Id>, seen: set<Id>): set<Id>
    requires nodes <= g.Keys
  {
    set x | x in nodes && g[x].parentId.Some? && g[x].parentId.value !in seen :: g[x].parentId.value
  }

  /** The live ones among `ids` and every live category above them through live ones, on any graph. */
  method GetAncestorClosure(g: Graph, ids: set<Id>) returns (seen: map<Id, Category>)
    ensures forall x :: x in seen <==> IsAbove(g, ids, x)
    ensures FromGraph(g, seen)
  {
    seen := map[];
    var queue := ids;
    StartUp(g, ids);
    assert seen.Keys == {} && FromGraph(g, seen);
    hide UpTo, IsAbove, FromGraph;
    while queue != {}
      invariant (forall x :: x in queue ==> x !in seen) && FromGraph(g, seen) && UpTo(g, ids, seen.Keys, queue)
      decreases |g.Keys - seen.Keys|, |queue|
    {
      seen, queue := ReadLevel(g, ids, seen, queue);
    }
    UpDone(g, ids, seen.Keys);
  }

  ghost predicate FromGraph(g: Graph, seen: map<Id, Category>) {
    forall x :: x in seen ==> x in g && seen[x] == g[x]
  }

  function Learn(g: Graph, seen: map<Id, Category>, nodes: set<Id>): (more: map<Id, Category>)
    requires nodes <= g.Keys
    ensures more.Keys == seen.Keys + nodes
    ensures FromGraph(g, seen) ==> FromGraph(g, more)
  {
    seen + map x | x in nodes :: g[x]
  }

  /** One level: the queued rows that are live are seen, and their unresolved parents are queued. */
  method ReadLevel(g: Graph, ghost ids: set<Id>, seen: map<Id, Category>, queue: set<Id>)
      returns (seen': map<Id, Category>, queue': set<Id>)
    requires queue != {} && (forall x :: x in queue ==> x !in seen) && FromGraph(g, seen) && UpTo(g, ids, seen.Keys, queue)
    ensures (forall x :: x in queue' ==> x !in seen') && FromGraph(g, seen') && UpTo(g, ids, seen'.Keys, queue')
    ensures |g.Keys - seen'.Keys| < |g.Keys - seen.Keys| || (seen'.Keys == seen.Keys && queue' == {})
  {
    var nodes := LiveAmong(g, queue);
    UpLevel(g, ids, seen.Keys, queue);
    NewLevel(g, seen.Keys, queue);
    seen' := Learn(g, seen, nodes);
    hide UpTo, LiveAmong, UnresolvedParents, FromGraph;
    queue' := UnresolvedParents(g, nodes, seen'.Keys);
  }

  lemma SmallerSet(a: set<Id>, b: set<Id>, x: Id)
    requires a <= b && x in b && x !in a
    ensures |a| < |b|
  {
    assert b == a + (b - a) && x in b - a;
  }

  /** A level adds rows not seen before, or ends the search. */
  lemma NewLevel(g: Graph, seen: set<Id>, queue: set<Id>)
    requires forall x :: x in queue ==> x !in seen
    ensures var nodes := LiveAmong(g, queue);
      nodes <= g.Keys && nodes !! seen && UnresolvedParents(g, nodes, seen + nodes) !! seen + nodes &&
      (nodes == {} ==> UnresolvedParents(g, nodes, seen + nodes) == {} && seen + nodes == seen) &&
      (nodes != {} ==> |g.Keys - (seen + nodes)| < |g.Keys - seen|)
  {
    var nodes := LiveAmong(g, queue);
    if x :| x in nodes {
      assert x in g.Keys - seen && x !in g.Keys - (seen + nodes);
      SmallerSet(g.Keys - (seen + nodes), g.Keys - seen, x);
    }
  }

  ghost predicate IsAbove(g: Graph, ids: set<Id>, x: Id) {
    exists s :: s in ids && Ascends(g, s, x)
  }

  ghost predicate Above(g: Graph, ids: set<Id>, seen: set<Id>) {
    forall x :: x in seen && Live(g, x) ==> IsAbove(g, ids, x)
  }

  /** What is seen or queued is above `ids`, and whatever is missing is above `queue`. */
  ghost predicate UpTo(g: Graph, ids: set<Id>, seen: set<Id>, queue: set<Id>) {
    (forall x :: x in seen ==> Live(g, x)) && Above(g, ids, seen) && Above(g, ids, queue) &&
    UpClosedExcept(g, seen, queue) && (forall s :: s in ids && Live(g, s) ==> s in seen || s in queue)
  }

  lemma StartUp(g: Graph, ids: set<Id>)
    ensures UpTo(g, ids, {}, ids)
  {
    forall x | x in ids && Live(g, x)
      ensures IsAbove(g, ids, x)
    {
      AscendsSelf(g, x);
    }
  }

  lemma UpLevel(g: Graph, ids: set<Id>, seen: set<Id>, queue: set<Id>)
    requires UpTo(g, ids, seen, queue)
    ensures var nodes := LiveAmong(g, queue);
      UpTo(g, ids, seen + nodes, UnresolvedParents(g, nodes, seen + nodes))
  {
    var nodes := LiveAmong(g, queue);
    var more := seen + nodes;
    var next := UnresolvedParents(g, nodes, more);
    forall x, y | x in more && IsParent(g, x, y)
      ensures y in more || y in next
    {
      if x in seen {
        assert y in seen || y in queue;
      }
    }
    forall y | y in next && Live(g, y)
      ensures IsAbove(g, ids, y)
    {
      var x :| x in nodes && g[x].parentId == Some(y);
      assert IsAbove(g, ids, x);
      var s :| s in ids && Ascends(g, s, x);
      AscendsFurther(g, s, x, y);
    }
  }

  lemma UpDone(g: Graph, ids: set<Id>, seen: set<Id>)
    requires UpTo(g, ids, seen, {})
    ensures forall x :: x in seen <==> IsAbove(g, ids, x)
  {
    forall s, x | s in ids && Ascends(g, s, x)
      ensures x in seen
    {
      var p :| UpPath(g, p) && p[0] == s && p[|p| - 1] == x;
      ClosedUpward(g, seen, p);
    }
  }
}
