/**
 Two more groupings by union-find: the duplicates a reconciliation looks at, and the items between
 which watch states travel.
 */
module ItemGroups {
  import opened Catalog
  import opened UnionFind
  import opened LinkedSets
  import Grouping

  // ----- From classes to listed groups -----

  /** The group lists one whole class of the given items. */
  ghost predicate IsClass(roots: Partition, ids: set<nat>, group: seq<nat>) {
    && group != [] && Grouping.Distinct(group) && (forall v :: v in group ==> v in ids && v in roots)
    && forall v, w :: v in group && w in ids && w in roots ==> (w in group <==> roots[w] == roots[v])
  }

  ghost predicate Separate(groups: seq<seq<nat>>) {
    forall i, j, x :: 0 <= i < j < |groups| && x in groups[i] ==> x !in groups[j]
  }

  ghost predicate Listed(groups: seq<seq<nat>>, v: nat) {
    exists g :: 0 <= g < |groups| && v in groups[g]
  }

  ghost predicate ListsClasses(groups: seq<seq<nat>>, roots: Partition, ids: set<nat>) {
    && (forall g :: 0 <= g < |groups| ==> IsClass(roots, ids, groups[g]))
    && Separate(groups)
  }

  method CollectByRoot(forest: Forest, ids: seq<nat>) returns (byRoot: map<nat, seq<nat>>)
    requires forest.Valid() && Grouping.Distinct(ids) && Grouping.Elements(ids) <= forest.roots.Keys
    modifies forest`parents
    ensures forest.Valid() && Grouping.ListsRoots(byRoot, forest.roots, Grouping.Elements(ids))
  {
    byRoot := map[];
    for k := 0 to |ids|
      invariant forest.Valid() && Grouping.ListsRoots(byRoot, forest.roots, Grouping.Elements(ids[..k]))
    {
      var v := ids[k];
      assert v in Grouping.Elements(ids) && v !in Grouping.Elements(ids[..k]);
      assert Grouping.Elements(ids[..k + 1]) == Grouping.Elements(ids[..k]) + {v};
      Grouping.AddListsRoots(byRoot, forest.roots, Grouping.Elements(ids[..k]), v);
      var root := forest.Find(v);
      byRoot := Grouping.Added(byRoot, root, v);
    }
    assert ids[..|ids|] == ids;
  }

  lemma AppendClass(groups: seq<seq<nat>>, roots: Partition, ids: set<nat>, r: nat, group: seq<nat>)
    requires ListsClasses(groups, roots, ids) && IsClass(roots, ids, group) && (forall v :: v in group ==> roots[v] == r)
    requires forall g, v :: 0 <= g < |groups| && v in groups[g] ==> v in roots && roots[v] != r
    ensures ListsClasses(groups + [group], roots, ids)
  {
    var more := groups + [group];
    forall i, j, x | 0 <= i < j < |more| && x in more[i]
      ensures x !in more[j]
    {
      assert j < |groups| ==> more[i] == groups[i] && more[j] == groups[j];
    }
  }

  /** Every class whose root is not pending and that is large enough is listed. */
  ghost predicate CollectedSoFar(groups: seq<seq<nat>>, byRoot: map<nat, seq<nat>>, roots: Partition, least: nat, pending: set<nat>) {
    && (forall g, v :: 0 <= g < |groups| && v in groups[g] ==> v in roots && roots[v] !in pending)
    && (forall g :: 0 <= g < |groups| ==> |groups[g]| >= least)
    && (forall r :: r in byRoot && r !in pending && |byRoot[r]| >= least ==> byRoot[r] in groups)
  }

  /** One listed group per class that has at least `least` members. */
  method CollectGroups(forest: Forest, ids: seq<nat>, least: nat) returns (groups: seq<seq<nat>>)
    requires forest.Valid() && Grouping.Distinct(ids) && Grouping.Elements(ids) <= forest.roots.Keys
    modifies forest`parents
    ensures forest.Valid() && ListsClasses(groups, forest.roots, Grouping.Elements(ids))
    ensures forall g :: 0 <= g < |groups| ==> |groups[g]| >= least
    ensures forall v :: v in ids && least <= 1 ==> Listed(groups, v)
    ensures forall v, w ::
      (v in ids && w in ids && v != w && forest.roots[v] == forest.roots[w] && least <= 2) ==> Listed(groups, v)
  {
    var byRoot := CollectByRoot(forest, ids);
    ghost var roots, all := forest.roots, Grouping.Elements(ids);
    groups := [];
    var pending := byRoot.Keys;
    while pending != {}
      invariant forest.Valid() && forest.roots == roots && pending <= byRoot.Keys && ListsClasses(groups, roots, all)
      invariant CollectedSoFar(groups, byRoot, roots, least, pending)
      decreases pending
    {
      var r :| r in pending;
      pending := pending - {r};
      if |byRoot[r]| >= least {
        RootListIsClass(byRoot, roots, all, r);
        AppendClass(groups, roots, all, r, byRoot[r]);
        groups := groups + [byRoot[r]];
      }
    }
    CollectedAll(groups, byRoot, roots, ids, least);
  }

  lemma CollectedAll(groups: seq<seq<nat>>, byRoot: map<nat, seq<nat>>, roots: Partition, ids: seq<nat>, least: nat)
    requires Grouping.ListsRoots(byRoot, roots, Grouping.Elements(ids)) && Grouping.Elements(ids) <= roots.Keys
    requires CollectedSoFar(groups, byRoot, roots, least, {})
    ensures forall v :: v in ids && least <= 1 ==> Listed(groups, v)
    ensures forall v, w :: (v in ids && w in ids && v != w && roots[v] == roots[w] && least <= 2) ==> Listed(groups, v)
  {
    forall v | v in ids
      ensures v in Grouping.Elements(ids) && roots[v] in byRoot && v in byRoot[roots[v]]
      ensures |byRoot[roots[v]]| >= least ==> Listed(groups, v)
    {
      assert v in Grouping.Elements(ids);
      assert roots[v] in byRoot && v in byRoot[roots[v]];
    }
    forall v, w | v in ids && w in ids && v != w && roots[v] == roots[w]
      ensures |byRoot[roots[v]]| >= 2
    {
      assert w in byRoot[roots[v]];
    }
  }

  lemma RootListIsClass(byRoot: map<nat, seq<nat>>, roots: Partition, ids: set<nat>, r: nat)
    requires Grouping.ListsRoots(byRoot, roots, ids) && r in byRoot && ids <= roots.Keys
    ensures IsClass(roots, ids, byRoot[r]) && forall v :: v in byRoot[r] ==> roots[v] == r
  {
  }

  // ----- Linking -----

  /** A new vertex without edges is a class of its own. */
  lemma IncludeRepresents(roots: Partition, edges: Edges, v: nat)
    requires Represents(roots, edges) && v !in roots
    ensures Represents(roots[v := v], edges)
  {
    var more := roots[v := v];
    forall x | x in more
      ensures HasRoot(more, edges, x)
    {
      ConnectedReflexive(edges, v);
      assert x in roots ==> HasRoot(roots, edges, x);
    }
    forall a, b | a in more && b in more
      ensures more[a] == more[b] <==> Connected(edges, a, b)
    {
      IncludeKeepsPair(roots, edges, v, a, b);
    }
  }

  lemma IncludeKeepsPair(roots: Partition, edges: Edges, v: nat, a: nat, b: nat)
    requires Represents(roots, edges) && v !in roots && a in roots[v := v] && b in roots[v := v]
    ensures roots[v := v][a] == roots[v := v][b] <==> Connected(edges, a, b)
  {
    ConnectedReflexive(edges, v);
    assert a in roots ==> HasRoot(roots, edges, a);
    assert b in roots ==> HasRoot(roots, edges, b);
    if a == v && b != v {
      LonelyVertex(roots, edges, v, b);
    } else if b == v && a != v {
      if Connected(edges, a, v) {
        ConnectedSymmetric(edges, a, v);
      }
      LonelyVertex(roots, edges, v, a);
    }
  }

  lemma LonelyVertex(roots: Partition, edges: Edges, v: nat, b: nat)
    requires Represents(roots, edges) && v !in roots && b != v
    ensures !Connected(edges, v, b)
  {
    forall path
      ensures !IsPath(edges, path, v, b)
    {
      assert |path| > 1 && path[0] == v ==> !Adjacent(edges, path[0], path[1]);
    }
  }

  /** Links the classes of two items under the root of the first. */
  method Link(forest: Forest, left: nat, right: nat, ghost edges: Edges)
    requires forest.Valid() && left in forest.roots && right in forest.roots && Represents(forest.roots, edges)
    modifies forest
    ensures forest.Valid() && forest.roots.Keys == old(forest.roots.Keys)
    ensures Represents(forest.roots, edges + {(left, right)})
  {
    JoinRepresents(forest.roots, edges, left, right, forest.roots[left]);
    var root := forest.Find(left);
    var other := forest.Find(right);
    forest.Attach(root, other);
  }

  // ----- Duplicates by shared identifiers -----

  /** Every row of the query lists the items that share one identifier. */
  ghost function SharedUpTo(rows: seq<seq<nat>>, n: nat): Edges {
    set r, k | 0 <= r < |rows| && r < n && 0 <= k < |rows[r]| :: (rows[r][0], rows[r][k])
  }

  ghost function Mentioned(rows: seq<seq<nat>>): set<nat> {
    set r, k | 0 <= r < |rows| && 0 <= k < |rows[r]| :: rows[r][k]
  }

  ghost function RowEdges(row: seq<nat>, n: nat): Edges
    requires n <= |row|
  {
    set k | 0 <= k < n :: (row[0], row[k])
  }

  method IncludeAndLink(forest: Forest, first: nat, v: nat, ghost edges: Edges)
    requires forest.Valid() && Represents(forest.roots, edges) && (first in forest.roots || first == v)
    modifies forest
    ensures forest.Valid() && forest.roots.Keys == old(forest.roots.Keys) + {v}
    ensures Represents(forest.roots, edges + {(first, v)})
  {
    if v !in forest.roots {
      IncludeRepresents(forest.roots, edges, v);
    }
    forest.Include(v);
    Link(forest, first, v, edges);
  }

  method LinkRow(forest: Forest, row: seq<nat>, ghost edges: Edges)
    requires forest.Valid() && Represents(forest.roots, edges) && row != []
    modifies forest
    ensures forest.Valid() && forest.roots.Keys == old(forest.roots.Keys) + Grouping.Elements(row)
    ensures Represents(forest.roots, edges + RowEdges(row, |row|))
  {
    assert edges + RowEdges(row, 0) == edges;
    for k := 0 to |row|
      invariant forest.Valid() && Represents(forest.roots, edges + RowEdges(row, k))
      invariant forest.roots.Keys == old(forest.roots.Keys) + Grouping.Elements(row[..k])
    {
      assert k > 0 ==> row[0] in Grouping.Elements(row[..k]);
      IncludeAndLink(forest, row[0], row[k], edges + RowEdges(row, k));
      assert Grouping.Elements(row[..k + 1]) == Grouping.Elements(row[..k]) + {row[k]};
      assert edges + RowEdges(row, k + 1) == (edges + RowEdges(row, k)) + {(row[0], row[k])};
    }
    assert row[..|row|] == row;
  }

  /** The groups are the connected components of shared identifiers, except those of a single item. */
  method DuplicateGroups(rows: seq<seq<nat>>) returns (groups: seq<seq<nat>>)
    requires forall r :: 0 <= r < |rows| ==> rows[r] != []
    ensures Separate(groups) && forall g :: 0 <= g < |groups| ==> |groups[g]| > 1 && Grouping.Distinct(groups[g])
    ensures forall g, a, b :: 0 <= g < |groups| && a in groups[g] && b in Mentioned(rows) ==>
      (b in groups[g] <==> Connected(SharedUpTo(rows, |rows|), a, b))
    ensures forall a, b ::
      (a in Mentioned(rows) && b in Mentioned(rows) && a != b && Connected(SharedUpTo(rows, |rows|), a, b)) ==>
        Listed(groups, a)
  {
    var forest := new Forest({});
    FreshForestRepresentsNoEdges({});
    ghost var seen: set<nat> := {};
    for n := 0 to |rows|
      invariant fresh(forest) && forest.Valid() && Represents(forest.roots, SharedUpTo(rows, n))
      invariant forest.roots.Keys == Mentioned(rows[..n])
    {
      LinkRow(forest, rows[n], SharedUpTo(rows, n));
      assert SharedUpTo(rows, n + 1) == SharedUpTo(rows, n) + RowEdges(rows[n], |rows[n]|);
      MentionedGrows(rows, n);
    }
    assert rows[..|rows|] == rows;
    var ids := Grouping.Listing(forest.parents.Keys);
    groups := CollectGroups(forest, ids, 2);
  }

  lemma MentionedGrows(rows: seq<seq<nat>>, n: nat)
    requires n < |rows|
    ensures Mentioned(rows[..n + 1]) == Mentioned(rows[..n]) + Grouping.Elements(rows[n])
  {
    var (more, less) := (rows[..n + 1], rows[..n]);
    assert forall r :: 0 <= r < n ==> more[r] == less[r];
    assert more[n] == rows[n];
    forall v | v in Mentioned(less)
      ensures v in Mentioned(more)
    {
      var r, k :| 0 <= r < |less| && 0 <= k < |less[r]| && v == less[r][k];
      assert more[r][k] == v;
    }
  }

  // ----- Items between which watch states travel -----

  predicate Syncable(kind: Kind) {
    kind == Movie || kind == Episode || kind == Track
  }

  /** What two items have in common: a file, or an id, among items of one kind. */
  datatype Clue = SameFile(kind: Kind, path: string) | SameId(kind: Kind, provider: Provider, externalId: string)

  type Mentions = seq<(Clue, nat)>

  type Files = map<nat, set<string>>

  function FilesOf(files: Files, x: nat): set<string> {
    if x in files then files[x] else {}
  }

  /** Different files outweigh a shared id. */
  predicate Conflict(files: Files, a: nat, b: nat) {
    FilesOf(files, a) != {} && FilesOf(files, b) != {} && FilesOf(files, a) * FilesOf(files, b) == {}
  }

  /** Row `j` is the first to mention the clue of row `i`. */
  ghost predicate IsFirst(mentions: Mentions, j: nat, i: nat) {
    j <= i < |mentions| && mentions[j].0 == mentions[i].0 && forall h :: 0 <= h < j ==> mentions[h].0 != mentions[i].0
  }

  /** The link row `i` calls for: with the first item of its clue, unless ids are overruled by files. */
  ghost predicate Calls(mentions: Mentions, files: Files, i: nat, e: (nat, nat)) {
    exists j: nat :: IsFirst(mentions, j, i) &&
      match mentions[i].0
      case SameFile(_, _) => e == (mentions[j].1, mentions[i].1)
      case SameId(_, _, _) => e == (mentions[i].1, mentions[j].1) && !Conflict(files, mentions[j].1, mentions[i].1)
  }

  ghost predicate CalledUpTo(mentions: Mentions, files: Files, n: nat, e: (nat, nat)) {
    exists i: nat :: i < n && i < |mentions| && Calls(mentions, files, i, e)
  }

  ghost predicate IsLinks(mentions: Mentions, files: Files, n: nat, links: Edges) {
    forall e {:trigger CalledUpTo(mentions, files, n, e)} {:trigger e in links} ::
      e in links <==> CalledUpTo(mentions, files, n, e)
  }

  /** The first items recorded for the clues of the first `n` rows. */
  ghost predicate Records(owners: map<Clue, nat>, mentions: Mentions, n: nat) {
    && (forall c :: c in owners ==> exists j: nat :: j < n && j < |mentions| && IsFirst(mentions, j, j) && mentions[j] == (c, owners[c]))
    && (forall j :: 0 <= j < n && j < |mentions| ==> mentions[j].0 in owners)
  }

  function Owner(owners: map<Clue, nat>, m: (Clue, nat)): nat {
    if m.0 in owners then owners[m.0] else m.1
  }

  lemma OwnerIsFirst(owners: map<Clue, nat>, mentions: Mentions, n: nat) returns (j: nat)
    requires Records(owners, mentions, n) && n < |mentions|
    ensures IsFirst(mentions, j, n) && mentions[j].1 == Owner(owners, mentions[n])
    ensures forall h: nat :: IsFirst(mentions, h, n) ==> h == j
    ensures Records(owners[mentions[n].0 := Owner(owners, mentions[n])], mentions, n + 1)
  {
    var c := mentions[n].0;
    if c in owners {
      j :| j < n && j < |mentions| && IsFirst(mentions, j, j) && mentions[j] == (c, owners[c]);
      assert owners[c := owners[c]] == owners;
    } else {
      j := n;
    }
    assert IsFirst(mentions, j, n);
  }

  /** What one row adds, given the recorded first item. */
  ghost function Added(files: Files, m: (Clue, nat), owner: nat): Edges {
    if m.0.SameFile? then {(owner, m.1)} else if Conflict(files, owner, m.1) then {} else {(m.1, owner)}
  }

  lemma RowCalls(owners: map<Clue, nat>, mentions: Mentions, files: Files, n: nat, e: (nat, nat))
    requires Records(owners, mentions, n) && n < |mentions|
    ensures Calls(mentions, files, n, e) <==> e in Added(files, mentions[n], Owner(owners, mentions[n]))
  {
    var j := OwnerIsFirst(owners, mentions, n);
  }

  lemma LinksGrow(owners: map<Clue, nat>, mentions: Mentions, files: Files, n: nat, links: Edges)
    requires Records(owners, mentions, n) && n < |mentions| && IsLinks(mentions, files, n, links)
    ensures IsLinks(mentions, files, n + 1, links + Added(files, mentions[n], Owner(owners, mentions[n])))
  {
    var more := links + Added(files, mentions[n], Owner(owners, mentions[n]));
    forall e
      ensures e in more <==> CalledUpTo(mentions, files, n + 1, e)
    {
      RowCalls(owners, mentions, files, n, e);
      assert e in links <==> CalledUpTo(mentions, files, n, e);
    }
  }

  ghost predicate OneKindLinks(kinds: map<nat, Kind>, links: Edges) {
    forall e :: e in links ==> e.0 in kinds && e.1 in kinds && kinds[e.0] == kinds[e.1]
  }

  /** Clues name the kind of the item they were found on. */
  ghost predicate KindsNamed(kinds: map<nat, Kind>, items: set<nat>, mentions: Mentions) {
    forall i :: 0 <= i < |mentions| ==> mentions[i].1 in items && mentions[i].1 in kinds && mentions[i].0.kind == kinds[mentions[i].1]
  }

  /** The files first, then the ids: every row links its item with the first one of its clue. */
  method LinkMentions(forest: Forest, kinds: map<nat, Kind>, mentions: Mentions, files: Files) returns (ghost links: Edges)
    requires forest.Valid() && Represents(forest.roots, {}) && KindsNamed(kinds, forest.roots.Keys, mentions)
    modifies forest
    ensures forest.Valid() && forest.roots.Keys == old(forest.roots.Keys) && Represents(forest.roots, links)
    ensures IsLinks(mentions, files, |mentions|, links) && OneKindLinks(kinds, links)
  {
    var owners: map<Clue, nat> := map[];
    links := {};
    for n := 0 to |mentions|
      invariant forest.Valid() && forest.roots.Keys == old(forest.roots.Keys) && Represents(forest.roots, links)
      invariant IsLinks(mentions, files, n, links) && OneKindLinks(kinds, links) && Records(owners, mentions, n)
    {
      var (c, v) := mentions[n];
      var o := Owner(owners, mentions[n]);
      RowGrows(owners, kinds, forest.roots.Keys, mentions, files, n, links);
      links := LinkOne(forest, files, mentions[n], o, links);
      owners := owners[c := o];
    }
  }

  lemma RowGrows(owners: map<Clue, nat>, kinds: map<nat, Kind>, items: set<nat>, mentions: Mentions, files: Files,
                 n: nat, links: Edges)
    requires KindsNamed(kinds, items, mentions) && n < |mentions| && Records(owners, mentions, n)
    requires IsLinks(mentions, files, n, links) && OneKindLinks(kinds, links)
    ensures var (m, o) := (mentions[n], Owner(owners, mentions[n]));
      && m.1 in items && o in items && Records(owners[m.0 := o], mentions, n + 1)
      && IsLinks(mentions, files, n + 1, links + Added(files, m, o)) && OneKindLinks(kinds, links + Added(files, m, o))
  {
    var j := OwnerIsFirst(owners, mentions, n);
    LinksGrow(owners, mentions, files, n, links);
  }

  method LinkOne(forest: Forest, files: Files, m: (Clue, nat), o: nat, ghost links: Edges) returns (ghost more: Edges)
    requires forest.Valid() && m.1 in forest.roots && o in forest.roots && Represents(forest.roots, links)
    modifies forest
    ensures forest.Valid() && forest.roots.Keys == old(forest.roots.Keys)
    ensures more == links + Added(files, m, o) && Represents(forest.roots, more)
  {
    more := links + Added(files, m, o);
    if m.0.SameFile? {
      Link(forest, o, m.1, links);
    } else if !Conflict(files, o, m.1) {
      Link(forest, m.1, o, links);
    } else {
      assert more == links;
    }
  }

  /** The groups are the connected components of the links, for the kinds that have a watch state of their own. */
  ghost predicate IsGrouping(groups: seq<seq<nat>>, links: Edges, items: set<nat>, kinds: map<nat, Kind>, mentions: Mentions, files: Files)
    requires items <= kinds.Keys
  {
    && IsLinks(mentions, files, |mentions|, links) && Separate(groups)
    && (forall g, a :: 0 <= g < |groups| && a in groups[g] ==> a in items && Syncable(kinds[a]))
    && (forall g, a, b :: (0 <= g < |groups| && a in groups[g] && b in items && Syncable(kinds[b])) ==>
          (b in groups[g] <==> Connected(links, a, b)))
    && (forall a :: a in items && Syncable(kinds[a]) ==> Listed(groups, a))
  }

  /** Exactly the connected components of those links, for the kinds that have a watch state of their own. */
  method MatchingGroups(items: set<nat>, kinds: map<nat, Kind>, mentions: Mentions, files: Files)
      returns (groups: seq<seq<nat>>, ghost links: Edges)
    requires items <= kinds.Keys && KindsNamed(kinds, items, mentions)
    ensures IsGrouping(groups, links, items, kinds, mentions, files)
    ensures forall g, a, b :: 0 <= g < |groups| && a in groups[g] && b in groups[g] ==> kinds[a] == kinds[b]
  {
    var forest := new Forest(items);
    FreshForestRepresentsNoEdges(items);
    links := LinkMentions(forest, kinds, mentions, files);
    var ids := Grouping.Listing(set x | x in items && Syncable(kinds[x]));
    groups := CollectGroups(forest, ids, 1);
    ClassesAreComponents(groups, forest.roots, links, kinds, items, ids);
  }

  lemma ClassesAreComponents(groups: seq<seq<nat>>, roots: Partition, links: Edges, kinds: map<nat, Kind>,
                             items: set<nat>, ids: seq<nat>)
    requires items <= kinds.Keys && roots.Keys == items && Represents(roots, links) && OneKindLinks(kinds, links)
    requires Grouping.Elements(ids) == set x | x in items && Syncable(kinds[x])
    requires ListsClasses(groups, roots, Grouping.Elements(ids)) && forall v :: v in ids ==> Listed(groups, v)
    ensures forall g, a :: 0 <= g < |groups| && a in groups[g] ==> a in items && Syncable(kinds[a])
    ensures forall g, a, b :: (0 <= g < |groups| && a in groups[g] && b in items && Syncable(kinds[b])) ==>
      (b in groups[g] <==> Connected(links, a, b))
    ensures forall a :: a in items && Syncable(kinds[a]) ==> Listed(groups, a)
    ensures forall g, a, b :: 0 <= g < |groups| && a in groups[g] && b in groups[g] ==> kinds[a] == kinds[b]
  {
    var all := Grouping.Elements(ids);
    forall a | a in all
      ensures a in ids
    {
    }
    forall g, a | 0 <= g < |groups| && a in groups[g]
      ensures a in all
    {
      assert IsClass(roots, all, groups[g]);
    }
    forall g, a, b | 0 <= g < |groups| && a in groups[g] && b in all
      ensures b in groups[g] <==> Connected(links, a, b)
    {
      assert IsClass(roots, all, groups[g]);
    }
    forall g, a, b | 0 <= g < |groups| && a in groups[g] && b in groups[g]
      ensures kinds[a] == kinds[b]
    {
      assert a in all && b in all;
      ConnectedIsOneKind(kinds, links, a, b);
    }
  }

  lemma ConnectedIsOneKind(kinds: map<nat, Kind>, links: Edges, a: nat, b: nat)
    requires OneKindLinks(kinds, links) && Connected(links, a, b) && a in kinds
    ensures b in kinds && kinds[a] == kinds[b]
  {
    var path :| IsPath(links, path, a, b);
    ConnectedKeepsLabel(links, kinds, path, a, b);
  }
}
