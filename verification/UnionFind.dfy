/**
 The disjoint-set forest of the catalog projection: every root is the least member of its class,
 so the classes after any list of joins are the connected components of the joined pairs.
 */
module UnionFind {

  /** The partition: every vertex mapped to the root of its class. */
  type Partition = map<nat, nat>

  /** A parent never points upwards, stays in its class, and only a root is its own parent. */
  ghost predicate PointsDown(parents: map<nat, nat>, roots: Partition, v: nat)
    requires parents.Keys == roots.Keys && v in parents
  {
    && parents[v] in parents && parents[v] <= v
    && roots[v] == roots[parents[v]]
    && (parents[v] == v ==> roots[v] == v)
  }

  ghost predicate Tracks(parents: map<nat, nat>, roots: Partition) {
    && parents.Keys == roots.Keys
    && forall v {:trigger PointsDown(parents, roots, v)} :: v in parents ==> PointsDown(parents, roots, v)
  }

  /** `Tracks` leaves no freedom: the tracked root is where the walk along the parents ends. */
  lemma {:induction false} TrackedRootEndsTheWalk(parents: map<nat, nat>, roots: Partition, v: nat)
    requires Tracks(parents, roots) && v in parents
    ensures roots[v] in parents && parents[roots[v]] == roots[v] && roots[v] <= v
    decreases v
  {
    assert PointsDown(parents, roots, v);
    if parents[v] != v {
      TrackedRootEndsTheWalk(parents, roots, parents[v]);
    }
  }

  /** The partition after merging the classes with roots `l` and `r` under `top`, one of them. */
  ghost function Unified(roots: Partition, l: nat, r: nat, top: nat): Partition {
    map v | v in roots :: if roots[v] == l || roots[v] == r then top else roots[v]
  }

  function Lesser(a: nat, b: nat): nat {
    if a < b then a else b
  }

  /** Pointing a vertex at a lesser vertex of its own class changes no root. */
  lemma RelinkKeepsTracks(parents: map<nat, nat>, roots: Partition, x: nat, y: nat)
    requires Tracks(parents, roots) && x in parents && y in parents
    requires y <= x && roots[x] == roots[y] && (x == y ==> roots[x] == x)
    ensures Tracks(parents[x := y], roots)
  {
    forall v | v in parents
      ensures PointsDown(parents[x := y], roots, v)
    {
      assert PointsDown(parents, roots, v);
    }
  }

  /** Linking the greater root under the lesser one merges exactly those two classes. */
  lemma LinkMergesClasses(parents: map<nat, nat>, roots: Partition, lo: nat, hi: nat)
    requires Tracks(parents, roots) && lo in parents && hi in parents
    requires roots[lo] == lo && roots[hi] == hi && lo < hi
    ensures Tracks(parents[hi := lo], Unified(roots, lo, hi, lo))
  {
    var merged := Unified(roots, lo, hi, lo);
    forall v | v in parents
      ensures PointsDown(parents[hi := lo], merged, v)
    {
      assert PointsDown(parents, roots, v);
    }
  }

  class DisjointSets {
    var parents: map<nat, nat>
    ghost var roots: Partition

    ghost predicate Valid()
      reads this
    {
      Tracks(parents, roots)
    }

    constructor (values: set<nat>)
      ensures Valid() && roots == map v | v in values :: v
    {
      parents := map v | v in values :: v;
      roots := map v | v in values :: v;
    }

    /** Walks to the root with path halving; the answer is exact and the partition is untouched. */
    method Find(value: nat) returns (root: nat)
      requires Valid() && value in roots
      modifies this`parents
      ensures Valid() && root == roots[value] && root in roots && roots[root] == root
      ensures root in parents && parents[root] == root
    {
      var parent: nat := parents[value];
      assert PointsDown(parents, roots, value);
      while parent != parents[parent]
        invariant Valid() && parent in parents && parent <= value
        invariant roots[parent] == roots[value] && (parent == value ==> parents[value] == value)
        decreases parent
      {
        ghost var p := parents;
        assert PointsDown(p, roots, parent) && PointsDown(p, roots, p[parent]);
        parents := parents[parent := parents[parents[parent]]];
        RelinkKeepsTracks(p, roots, parent, parents[parent]);
        parent := parents[parent];
      }
      assert PointsDown(parents, roots, parent);
      RelinkKeepsTracks(parents, roots, value, parent);
      parents := parents[value := parent];
      root := parent;
    }

    /** Merges exactly the two classes of its arguments. */
    method Join(left: nat, right: nat)
      requires Valid() && left in roots && right in roots
      modifies this
      ensures Valid() && var (l, r) := (old(roots)[left], old(roots)[right]); roots == Unified(old(roots), l, r, Lesser(l, r))
    {
      var leftRoot := Find(left);
      var rightRoot := Find(right);
      assert PointsDown(parents, roots, leftRoot) && PointsDown(parents, roots, rightRoot);
      ghost var merged := Unified(roots, leftRoot, rightRoot, Lesser(leftRoot, rightRoot));
      if leftRoot != rightRoot {
        var lo: nat := if leftRoot < rightRoot then leftRoot else rightRoot;
        var hi: nat := if leftRoot < rightRoot then rightRoot else leftRoot;
        LinkMergesClasses(parents, roots, lo, hi);
        assert merged == Unified(roots, lo, hi, lo);
        parents := parents[hi := lo];
      } else {
        assert merged == roots;
      }
      roots := merged;
    }
  }

  // ----- The relational specification: connected components -----

  type Edges = set<(nat, nat)>

  ghost predicate Adjacent(edges: Edges, a: nat, b: nat) {
    (a, b) in edges || (b, a) in edges
  }

  ghost predicate IsPath(edges: Edges, path: seq<nat>, a: nat, b: nat) {
    && |path| > 0 && path[0] == a && path[|path| - 1] == b
    && forall i :: 0 < i < |path| ==> Adjacent(edges, path[i - 1], path[i])
  }

  ghost predicate Connected(edges: Edges, a: nat, b: nat) {
    exists path :: IsPath(edges, path, a, b)
  }

  lemma ConnectedReflexive(edges: Edges, a: nat)
    ensures Connected(edges, a, a)
  {
    assert IsPath(edges, [a], a, a);
  }

  lemma ConnectedByEdge(edges: Edges, a: nat, b: nat)
    requires Adjacent(edges, a, b)
    ensures Connected(edges, a, b)
  {
    assert IsPath(edges, [a, b], a, b);
  }

  lemma ConnectedTransitive(edges: Edges, a: nat, b: nat, c: nat)
    requires Connected(edges, a, b) && Connected(edges, b, c)
    ensures Connected(edges, a, c)
  {
    var p :| IsPath(edges, p, a, b);
    var q :| IsPath(edges, q, b, c);
    var r := p + q[1..];
    forall i | 0 < i < |r|
      ensures Adjacent(edges, r[i - 1], r[i])
    {
      if i >= |p| {
        assert r[i - 1] == q[i - |p|];
        assert r[i] == q[i - |p| + 1];
      }
    }
    assert IsPath(edges, r, a, c);
  }

  lemma ConnectedSymmetric(edges: Edges, a: nat, b: nat)
    requires Connected(edges, a, b)
    ensures Connected(edges, b, a)
  {
    var p :| IsPath(edges, p, a, b);
    var r := seq(|p|, i requires 0 <= i < |p| => p[|p| - 1 - i]);
    forall i | 0 < i < |r|
      ensures Adjacent(edges, r[i - 1], r[i])
    {
      assert Adjacent(edges, p[|p| - 1 - i], p[|p| - i]);
    }
    assert IsPath(edges, r, b, a);
  }

  lemma ConnectedMonotone(small: Edges, big: Edges, a: nat, b: nat)
    requires small <= big && Connected(small, a, b)
    ensures Connected(big, a, b)
  {
    var p :| IsPath(small, p, a, b);
    forall i | 0 < i < |p|
      ensures Adjacent(big, p[i - 1], p[i])
    {
      assert Adjacent(small, p[i - 1], p[i]);
    }
    assert IsPath(big, p, a, b);
  }

  /** A marking that every edge respects is constant along every path. */
  lemma {:induction false} ConnectedKeepsLabel<L>(edges: Edges, mark: map<nat, L>, path: seq<nat>, a: nat, b: nat)
    requires IsPath(edges, path, a, b) && a in mark
    requires forall e :: e in edges ==> e.0 in mark && e.1 in mark && mark[e.0] == mark[e.1]
    ensures b in mark && mark[a] == mark[b]
    decreases |path|
  {
    if |path| > 1 {
      assert Adjacent(edges, path[0], path[1]);
      var rest := path[1..];
      forall i | 0 < i < |rest|
        ensures Adjacent(edges, rest[i - 1], rest[i])
      {
        assert Adjacent(edges, path[i], path[i + 1]);
      }
      ConnectedKeepsLabel(edges, mark, rest, path[1], b);
    }
  }

  ghost predicate HasRoot(roots: Partition, edges: Edges, v: nat)
    requires v in roots
  {
    roots[v] in roots && Connected(edges, v, roots[v])
  }

  /** The classes of the partition are the connected components of the edges joined so far. */
  ghost predicate Represents(roots: Partition, edges: Edges) {
    && (forall e :: e in edges ==> e.0 in roots && e.1 in roots)
    && (forall v {:trigger HasRoot(roots, edges, v)} :: v in roots ==> HasRoot(roots, edges, v))
    && (forall a, b {:trigger Connected(edges, a, b)} :: a in roots && b in roots ==>
          (roots[a] == roots[b] <==> Connected(edges, a, b)))
  }

  lemma FreshForestRepresentsNoEdges(values: set<nat>)
    ensures Represents(map v | v in values :: v, {})
  {
    var roots: Partition := map v | v in values :: v;
    forall a, b | a in roots && b in roots
      ensures roots[a] == roots[b] <==> Connected({}, a, b)
    {
      ConnectedReflexive({}, a);
      if Connected({}, a, b) {
        var path :| IsPath({}, path, a, b);
        assert |path| > 1 ==> Adjacent({}, path[0], path[1]);
      }
    }
    forall v | v in roots
      ensures HasRoot(roots, {}, v)
    {
      ConnectedReflexive({}, v);
    }
  }

  /** Joining the classes of `x` and `y` is adding the edge between them. */
  lemma JoinRepresents(roots: Partition, edges: Edges, x: nat, y: nat, top: nat)
    requires Represents(roots, edges) && x in roots && y in roots && (top == roots[x] || top == roots[y])
    ensures Represents(Unified(roots, roots[x], roots[y], top), edges + {(x, y)})
  {
    var more := edges + {(x, y)};
    var merged := Unified(roots, roots[x], roots[y], top);
    MergedRespectsEdges(roots, edges, x, y, top);
    forall a, b | a in merged && b in merged
      ensures merged[a] == merged[b] <==> Connected(more, a, b)
    {
      if Connected(more, a, b) {
        var path :| IsPath(more, path, a, b);
        ConnectedKeepsLabel(more, merged, path, a, b);
      }
      if merged[a] == merged[b] {
        JoinConnects(roots, edges, x, y, a, b);
      }
    }
    forall v | v in merged
      ensures HasRoot(merged, more, v)
    {
      MergedHasRoot(roots, edges, x, y, top, v);
    }
  }

  lemma MergedHasRoot(roots: Partition, edges: Edges, x: nat, y: nat, top: nat, v: nat)
    requires Represents(roots, edges) && x in roots && y in roots && v in roots && (top == roots[x] || top == roots[y])
    ensures HasRoot(Unified(roots, roots[x], roots[y], top), edges + {(x, y)}, v)
  {
    var merged := Unified(roots, roots[x], roots[y], top);
    RootOfRoot(roots, edges, x);
    RootOfRoot(roots, edges, y);
    RootOfRoot(roots, edges, v);
    assert HasRoot(roots, edges, v) && HasRoot(roots, edges, x) && HasRoot(roots, edges, y);
    JoinConnects(roots, edges, x, y, v, merged[v]);
  }

  /** A root stands for itself. */
  lemma RootOfRoot(roots: Partition, edges: Edges, v: nat)
    requires Represents(roots, edges) && v in roots
    ensures roots[v] in roots && roots[roots[v]] == roots[v] && Connected(edges, v, roots[v])
  {
    assert HasRoot(roots, edges, v);
  }

  lemma MergedRespectsEdges(roots: Partition, edges: Edges, x: nat, y: nat, top: nat)
    requires Represents(roots, edges) && x in roots && y in roots
    ensures var merged := Unified(roots, roots[x], roots[y], top);
      forall e :: e in edges + {(x, y)} ==> e.0 in merged && e.1 in merged && merged[e.0] == merged[e.1]
  {
    forall e | e in edges
      ensures roots[e.0] == roots[e.1]
    {
      ConnectedByEdge(edges, e.0, e.1);
    }
  }

  lemma JoinConnects(roots: Partition, edges: Edges, x: nat, y: nat, a: nat, b: nat)
    requires Represents(roots, edges) && x in roots && y in roots && a in roots && b in roots
    requires
      || roots[a] == roots[b]
      || (roots[a] in {roots[x], roots[y]} && roots[b] in {roots[x], roots[y]})
    ensures Connected(edges + {(x, y)}, a, b)
  {
    var more := edges + {(x, y)};
    if roots[a] == roots[b] {
      ConnectedMonotone(edges, more, a, b);
    } else {
      var (u, v) := if roots[a] == roots[x] then (x, y) else (y, x);
      ConnectedMonotone(edges, more, a, u);
      ConnectedMonotone(edges, more, v, b);
      ConnectedByEdge(more, u, v);
      ConnectedTransitive(more, a, u, v);
      ConnectedTransitive(more, a, v, b);
    }
  }

  /** No class lies below its root. */
  ghost predicate Least(roots: Partition) {
    forall v :: v in roots ==> roots[v] <= v
  }

  lemma TrackedRootsAreLeast(parents: map<nat, nat>, roots: Partition)
    requires Tracks(parents, roots)
    ensures Least(roots)
  {
    forall v | v in roots
      ensures roots[v] <= v
    {
      TrackedRootEndsTheWalk(parents, roots, v);
    }
  }

  /** The root is the least vertex of its connected component. */
  lemma RootIsLeastOfComponent(parents: map<nat, nat>, roots: Partition, edges: Edges, v: nat)
    requires Tracks(parents, roots) && Represents(roots, edges) && v in roots
    ensures roots[v] in roots && Connected(edges, v, roots[v])
    ensures forall w :: w in roots && Connected(edges, v, w) ==> roots[v] <= w
  {
    TrackedRootsAreLeast(parents, roots);
    assert HasRoot(roots, edges, v);
    forall w | w in roots && Connected(edges, v, w)
      ensures roots[v] <= w
    {
      assert HasRoot(roots, edges, w);
    }
  }

  /** Two forests that represent the same edges have the same roots, whatever the joining order was. */
  lemma RootsDependOnEdgesOnly(x: map<nat, nat>, p: Partition, y: map<nat, nat>, q: Partition, edges: Edges)
    requires Tracks(x, p) && Represents(p, edges) && Tracks(y, q) && Represents(q, edges) && p.Keys == q.Keys
    ensures p == q
  {
    forall v | v in p
      ensures q[v] == p[v]
    {
      RootIsLeastOfComponent(x, p, edges, v);
      RootIsLeastOfComponent(y, q, edges, v);
    }
  }
}
