/**
 The other union-find of the code: it links whichever root the caller names, so its roots are not
 the least members, but its classes are the same connected components.
 */
module LinkedSets {
  import opened UnionFind

  /** Towards the root ages grow strictly, so every walk ends. */
  ghost predicate Aged(parents: map<nat, nat>, roots: Partition, age: map<nat, nat>, oldest: nat, v: nat)
    requires parents.Keys == roots.Keys == age.Keys && v in parents
  {
    && parents[v] in parents && roots[v] == roots[parents[v]] && age[v] <= oldest
    && if parents[v] == v then roots[v] == v else age[v] < age[parents[v]]
  }

  ghost predicate Ordered(parents: map<nat, nat>, roots: Partition, age: map<nat, nat>, oldest: nat) {
    && parents.Keys == roots.Keys == age.Keys
    && forall v {:trigger Aged(parents, roots, age, oldest, v)} :: v in parents ==> Aged(parents, roots, age, oldest, v)
  }

  /** The walk along the parents ends at the recorded root. */
  lemma {:induction false} WalkEndsAtRoot(parents: map<nat, nat>, roots: Partition, age: map<nat, nat>, oldest: nat, v: nat)
    requires Ordered(parents, roots, age, oldest) && v in parents
    ensures roots[v] in parents && parents[roots[v]] == roots[v] && roots[roots[v]] == roots[v]
    decreases oldest - age[v]
  {
    assert Aged(parents, roots, age, oldest, v);
    if parents[v] != v {
      assert Aged(parents, roots, age, oldest, parents[v]);
      WalkEndsAtRoot(parents, roots, age, oldest, parents[v]);
    }
  }

  lemma HalvingKeepsOrder(parents: map<nat, nat>, roots: Partition, age: map<nat, nat>, oldest: nat, v: nat)
    requires Ordered(parents, roots, age, oldest) && v in parents && parents[v] != v && parents[v] in parents
    requires parents[parents[v]] in parents
    ensures Ordered(parents[v := parents[parents[v]]], roots, age, oldest)
  {
    var next := parents[v := parents[parents[v]]];
    forall x | x in next
      ensures Aged(next, roots, age, oldest, x)
    {
      assert Aged(parents, roots, age, oldest, x) && Aged(parents, roots, age, oldest, parents[v]);
    }
  }

  lemma AttachKeepsOrder(parents: map<nat, nat>, roots: Partition, age: map<nat, nat>, oldest: nat, root: nat, other: nat)
    requires Ordered(parents, roots, age, oldest) && root in parents && other in parents && root != other
    requires roots[root] == root && roots[other] == other
    ensures Ordered(parents[other := root], Unified(roots, root, other, root), age[root := oldest + 1], oldest + 1)
  {
    var next := parents[other := root];
    var merged := Unified(roots, root, other, root);
    WalkEndsAtRoot(parents, roots, age, oldest, root);
    forall x | x in next
      ensures Aged(next, merged, age[root := oldest + 1], oldest + 1, x)
    {
      assert Aged(parents, roots, age, oldest, x);
    }
  }

  class Forest {
    var parents: map<nat, nat>
    ghost var roots: Partition
    ghost var age: map<nat, nat>
    ghost var oldest: nat

    ghost predicate Valid()
      reads this
    {
      Ordered(parents, roots, age, oldest)
    }

    constructor (values: set<nat>)
      ensures Valid() && roots == map v | v in values :: v
    {
      parents := map v | v in values :: v;
      roots := map v | v in values :: v;
      age := map v | v in values :: 0;
      oldest := 0;
    }

    /** A value is its own class until it is linked. */
    method Include(value: nat)
      requires Valid()
      modifies this
      ensures Valid() && roots == if value in old(roots) then old(roots) else old(roots)[value := value]
    {
      if value !in parents {
        ghost var before := parents;
        parents, roots, age := parents[value := value], roots[value := value], age[value := 0];
        forall x | x in parents
          ensures Aged(parents, roots, age, oldest, x)
        {
          if x in before {
            assert Aged(before, old(roots), old(age), oldest, x);
            assert before[x] in before;
          }
        }
      }
    }

    method Find(value: nat) returns (root: nat)
      requires Valid() && value in roots
      modifies `parents
      ensures Valid() && root == roots[value] && root in roots && roots[root] == root
    {
      root := value;
      while parents[root] != root
        invariant Valid() && root in parents && roots[root] == roots[value]
        decreases oldest - age[root]
      {
        ghost var before := parents;
        assert Aged(before, roots, age, oldest, root) && Aged(before, roots, age, oldest, before[root]);
        HalvingKeepsOrder(before, roots, age, oldest, root);
        var x := root;
        parents := parents[x := parents[parents[x]]];
        root := parents[x];
        assert Aged(parents, roots, age, oldest, x);
      }
      assert Aged(parents, roots, age, oldest, root);
    }

    /** Hangs one root below another. */
    method Attach(root: nat, other: nat)
      requires Valid() && root in roots && other in roots && roots[root] == root && roots[other] == other
      modifies this
      ensures Valid() && roots == Unified(old(roots), root, other, root)
    {
      if root == other {
        assert Unified(roots, root, other, root) == roots;
        return;
      }
      AttachKeepsOrder(parents, roots, age, oldest, root, other);
      parents := parents[other := root];
      roots, age, oldest := Unified(roots, root, other, root), age[root := oldest + 1], oldest + 1;
    }
  }
}
