/** Walks towards the root of the parent forest, as the code makes them and as SQL bounds them. */
module Hierarchy {
  import opened Catalog

  type Items = map<nat, Item>

  /** The parent of `x`, unknown when `x` is outside the rows that were loaded. */
  function Up(items: Items, scope: set<nat>, x: nat): Option<nat> {
    if x in items && x in scope then items[x].parent else None
  }

  /** The ids a walk visits: it stops at a missing parent or at an id it has seen. */
  function Chain(items: Items, scope: set<nat>, current: Option<nat>, visited: set<nat>): set<nat>
    decreases scope - visited, current.Some?
  {
    if current.None? || current.value in visited then {}
    else
      var x := current.value;
      assert x !in scope ==> scope - (visited + {x}) == scope - visited;
      {x} + Chain(items, scope, Up(items, scope, x), visited + {x})
  }

  /** The first show such a walk meets. */
  function NearestShow(items: Items, scope: set<nat>, current: Option<nat>, visited: set<nat>): Option<nat>
    decreases scope - visited, current.Some?
  {
    if current.None? || current.value in visited then None
    else
      var x := current.value;
      assert x !in scope ==> scope - (visited + {x}) == scope - visited;
      if x in items && x in scope && items[x].kind == Show then Some(x)
      else NearestShow(items, scope, Up(items, scope, x), visited + {x})
  }

  /** The recursive query: `x` and at most `depth` steps up. */
  function Line(items: Items, scope: set<nat>, x: nat, depth: nat): set<nat>
    decreases depth
  {
    {x} + if depth > 0 && Up(items, scope, x).Some? then Line(items, scope, Up(items, scope, x).value, depth - 1) else {}
  }

  const MAX_DEPTH := 4

  /** The parent forest is acyclic and no item is more than four steps below its root. */
  ghost predicate Shallow(items: Items, level: map<nat, nat>) {
    forall x {:trigger Below(items, level, x)} :: x in items ==> Below(items, level, x)
  }

  ghost predicate Below(items: Items, level: map<nat, nat>, x: nat)
    requires x in items
  {
    && x in level && level[x] <= MAX_DEPTH
    && (items[x].parent.Some? ==>
          && items[x].parent.value in items && items[x].parent.value in level
          && level[items[x].parent.value] < level[x])
  }

  ghost predicate Deeper(level: map<nat, nat>, visited: set<nat>, x: nat)
    requires x in level
  {
    forall v :: v in visited ==> v in level && level[v] > level[x]
  }

  /** On a shallow forest the guard against cycles never fires, so the walk is the bounded query. */
  lemma {:induction false} ChainIsLine(items: Items, scope: set<nat>, level: map<nat, nat>, x: nat,
                                       visited: set<nat>, depth: nat)
    requires Shallow(items, level) && x in items && Below(items, level, x)
    requires level[x] <= depth && Deeper(level, visited, x)
    ensures Chain(items, scope, Some(x), visited) == Line(items, scope, x, depth)
    decreases depth
  {
    var up := Up(items, scope, x);
    if up.Some? {
      assert Below(items, level, up.value);
      ChainIsLine(items, scope, level, up.value, visited + {x}, depth - 1);
    } else {
      assert Chain(items, scope, None, visited + {x}) == {};
    }
  }

  /** Deeper queries find no more once the depth covers the level. */
  lemma {:induction false} LineSaturates(items: Items, scope: set<nat>, level: map<nat, nat>, x: nat, depth: nat)
    requires Shallow(items, level) && x in items && Below(items, level, x)
    requires level[x] <= depth <= MAX_DEPTH
    ensures Line(items, scope, x, depth) == Line(items, scope, x, MAX_DEPTH)
  {
    assert Deeper(level, {}, x);
    ChainIsLine(items, scope, level, x, {}, depth);
    ChainIsLine(items, scope, level, x, {}, MAX_DEPTH);
  }

  /** A walk that is to reach `targets` never leaves the items loaded below `targets`. */
  lemma {:induction false} TargetsStayReachable(items: Items, tree: set<nat>, targets: set<nat>,
                                                level: map<nat, nat>, x: nat, depth: nat)
    requires Shallow(items, level) && x in items && Below(items, level, x) && level[x] <= depth <= MAX_DEPTH
    requires forall y {:trigger y in tree} :: y in items && Line(items, items.Keys, y, MAX_DEPTH) * targets != {} ==> y in tree
    ensures Line(items, tree, x, depth) * targets == Line(items, items.Keys, x, depth) * targets
    decreases depth
  {
    LineSaturates(items, items.Keys, level, x, depth);
    var up := items[x].parent;
    if up.Some? {
      assert Below(items, level, up.value);
      TargetsStayReachable(items, tree, targets, level, up.value, depth - 1);
      if x !in tree {
        assert Line(items, items.Keys, x, depth) * targets == {} && Line(items, tree, x, depth) == {x};
        assert x in Line(items, items.Keys, x, depth);
      }
    }
  }

  /** The fuelled form of `NearestShow`. */
  function Nearest(items: Items, scope: set<nat>, x: nat, depth: nat): Option<nat>
    decreases depth
  {
    if x in items && x in scope && items[x].kind == Show then Some(x)
    else if depth > 0 && Up(items, scope, x).Some? then Nearest(items, scope, Up(items, scope, x).value, depth - 1)
    else None
  }

  lemma {:induction false} NearestShowIsNearest(items: Items, scope: set<nat>, level: map<nat, nat>, x: nat,
                                                visited: set<nat>, depth: nat)
    requires Shallow(items, level) && x in items && Below(items, level, x)
    requires level[x] <= depth && Deeper(level, visited, x)
    ensures NearestShow(items, scope, Some(x), visited) == Nearest(items, scope, x, depth)
    decreases depth
  {
    var up := Up(items, scope, x);
    if up.Some? {
      assert Below(items, level, up.value);
      NearestShowIsNearest(items, scope, level, up.value, visited + {x}, depth - 1);
    } else {
      assert NearestShow(items, scope, None, visited + {x}) == None;
    }
  }

  /** A show found among fewer rows is the nearest show among all rows. */
  lemma {:induction false} NearestInTreeIsNearest(items: Items, tree: set<nat>, x: nat, depth: nat)
    requires Nearest(items, tree, x, depth).Some?
    ensures Nearest(items, items.Keys, x, depth) == Nearest(items, tree, x, depth)
    decreases depth
  {
    if x in items && x in tree && items[x].kind != Show {
      NearestInTreeIsNearest(items, tree, items[x].parent.value, depth - 1);
    }
  }

  /** The nearest show is found in the tree whenever it is one of the tree's targets. */
  lemma {:induction false} TargetShowStaysNearest(items: Items, tree: set<nat>, targets: set<nat>, x: nat, depth: nat)
    requires depth <= MAX_DEPTH
    requires forall y {:trigger y in tree} :: y in items && Line(items, items.Keys, y, MAX_DEPTH) * targets != {} ==> y in tree
    requires Nearest(items, items.Keys, x, depth).Some? && Nearest(items, items.Keys, x, depth).value in targets
    ensures Nearest(items, tree, x, depth) == Nearest(items, items.Keys, x, depth)
    ensures x in tree
    decreases depth
  {
    var s := Nearest(items, items.Keys, x, depth).value;
    NearestOnLine(items, x, depth);
    LineGrows(items, x, depth, MAX_DEPTH);
    assert s in Line(items, items.Keys, x, MAX_DEPTH) * targets;
    assert x in tree;
    if items[x].kind != Show {
      TargetShowStaysNearest(items, tree, targets, items[x].parent.value, depth - 1);
    }
  }

  lemma {:induction false} LineGrows(items: Items, x: nat, depth: nat, more: nat)
    requires depth <= more
    ensures Line(items, items.Keys, x, depth) <= Line(items, items.Keys, x, more)
    decreases depth
  {
    if depth > 0 && Up(items, items.Keys, x).Some? {
      LineGrows(items, Up(items, items.Keys, x).value, depth - 1, more - 1);
    }
  }

  lemma {:induction false} NearestOnLine(items: Items, x: nat, depth: nat)
    requires Nearest(items, items.Keys, x, depth).Some?
    ensures x in items
    ensures Nearest(items, items.Keys, x, depth).value in Line(items, items.Keys, x, depth)
    decreases depth
  {
    if items[x].kind != Show {
      NearestOnLine(items, items[x].parent.value, depth - 1);
    }
  }
}
