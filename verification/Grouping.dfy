/**
 Which items share one catalog card: components of the safe identity and title buckets, kept whole
 when the whole component is safe and split into single items otherwise.
 */
module Grouping {
  import opened Catalog
  import opened UnionFind

  // ----- The relational specification -----

  /** Two different members may share a card. */
  ghost predicate Compatible(t: Identity, a: nat, b: nat)
    requires a in t.items && b in t.items
  {
    && (t.items[a].manual == "" || t.items[b].manual == "" || t.items[a].manual == t.items[b].manual)
    && (LivePaths(t, a) == {} || LivePaths(t, b) == {} || LivePaths(t, a) * LivePaths(t, b) != {})
    && LiveSources(t, a) !! LiveSources(t, b)
    && AllSources(t, a) != {} && AllSources(t, b) != {}
  }

  ghost predicate SafeSet(t: Identity, members: set<nat>)
    requires members <= t.items.Keys
  {
    forall a, b :: a in members && b in members && a != b ==> Compatible(t, a, b)
  }

  datatype BucketKey =
    | ById(kind: Kind, provider: Provider, externalId: string)
    | ByTitle(kind: Kind, scope: Option<nat>, title: string, year: Option<nat>)

  /** Episodes, albums and tracks are compared inside their parent only; a missing parent reads as 0. */
  function TitleKey(item: Item): BucketKey {
    ByTitle(item.kind,
            if item.kind in {Episode, Album, Track} then Some(item.parent.GetOr(0)) else None,
            item.title, item.year)
  }

  ghost predicate InBucket(t: Identity, key: BucketKey, v: nat)
    requires v in t.items
  {
    if HasStableId(t, v) then
      key.ById? && key.kind == t.items[v].kind && Stable(key.provider)
      && Identifier(v, key.provider, key.externalId) in t.identifiers
    else
      key == TitleKey(t.items[v])
  }

  ghost function Bucket(t: Identity, key: BucketKey): set<nat> {
    set v | v in CatalogIds(t) && InBucket(t, key, v)
  }

  ghost predicate Linked(t: Identity, a: nat, b: nat) {
    exists key :: a in Bucket(t, key) && b in Bucket(t, key) && SafeSet(t, Bucket(t, key))
  }

  ghost function Links(t: Identity): Edges {
    set a, b | a in CatalogIds(t) && b in CatalogIds(t) && Linked(t, a, b) :: (a, b)
  }

  ghost function Component(t: Identity, v: nat): set<nat> {
    set w | w in CatalogIds(t) && Connected(Links(t), v, w)
  }

  ghost function GroupOf(t: Identity, v: nat): set<nat> {
    if SafeSet(t, Component(t, v)) then Component(t, v) else {v}
  }

  /** Confirmed matches first, then items known to a Plex server, then the smallest id. */
  predicate Before(t: Identity, a: nat, b: nat)
    requires a in t.items && b in t.items
  {
    var (manualA, manualB) := (t.items[a].manual != "", t.items[b].manual != "");
    var (plexA, plexB) := (HasPlexRef(t, a), HasPlexRef(t, b));
    if manualA != manualB then manualA
    else if plexA != plexB then plexA
    else a < b
  }

  ghost predicate IsCanonical(t: Identity, members: set<nat>, c: nat)
    requires members <= t.items.Keys
  {
    c in members && forall v :: v in members && v != c ==> Before(t, c, v)
  }

  lemma CanonicalUnique(t: Identity, members: set<nat>, c: nat, d: nat)
    requires members <= t.items.Keys && IsCanonical(t, members, c) && IsCanonical(t, members, d)
    ensures c == d
  {
  }

  lemma {:induction false} CanonicalExists(t: Identity, members: set<nat>)
    requires members <= t.items.Keys && members != {}
    ensures exists c :: IsCanonical(t, members, c)
    decreases |members|
  {
    var x :| x in members;
    if members == {x} {
      assert IsCanonical(t, members, x);
    } else {
      var rest := members - {x};
      CanonicalExists(t, rest);
      var d :| IsCanonical(t, rest, d);
      var c := if Before(t, x, d) then x else d;
      forall v | v in members && v != c
        ensures Before(t, c, v)
      {
        assert v != x ==> v in rest;
        assert v != x && v != d ==> Before(t, d, v);
      }
      assert IsCanonical(t, members, c);
    }
  }

  ghost function Canonical(t: Identity, members: set<nat>): (c: nat)
    requires members <= t.items.Keys && members != {}
    ensures IsCanonical(t, members, c)
  {
    CanonicalExists(t, members);
    var d :| IsCanonical(t, members, d);
    d
  }

  // ----- What every grouping guarantees -----

  lemma ConnectedStaysInCatalog(t: Identity, v: nat, w: nat)
    requires v in CatalogIds(t) && Connected(Links(t), v, w)
    ensures w in CatalogIds(t) && t.items[w].kind == t.items[v].kind
  {
    var kinds := map x | x in CatalogIds(t) :: t.items[x].kind;
    var path :| IsPath(Links(t), path, v, w);
    forall e | e in Links(t)
      ensures e.0 in kinds && e.1 in kinds && kinds[e.0] == kinds[e.1]
    {
      var key :| e.0 in Bucket(t, key) && e.1 in Bucket(t, key) && SafeSet(t, Bucket(t, key));
    }
    ConnectedKeepsLabel(Links(t), kinds, path, v, w);
  }

  lemma ComponentsAgree(t: Identity, v: nat, w: nat)
    requires v in CatalogIds(t) && w in Component(t, v)
    ensures Component(t, w) == Component(t, v)
  {
    ConnectedSymmetric(Links(t), v, w);
    forall x
      ensures x in Component(t, w) <==> x in Component(t, v)
    {
      if x in Component(t, w) {
        ConnectedTransitive(Links(t), v, w, x);
      }
      if x in Component(t, v) {
        ConnectedTransitive(Links(t), w, v, x);
      }
    }
  }

  /**
   The groups partition the catalog; each holds one kind, at most one confirmed id, pairwise
   disjoint live sources, and every member of a shared card is known to some source.
   */
  lemma GroupsAreSafeClasses(t: Identity, v: nat, w: nat)
    requires v in CatalogIds(t) && w in GroupOf(t, v)
    ensures v in GroupOf(t, v) && GroupOf(t, v) <= CatalogIds(t)
    ensures GroupOf(t, w) == GroupOf(t, v)
    ensures t.items[w].kind == t.items[v].kind
    ensures v != w ==>
      && LiveSources(t, v) !! LiveSources(t, w) && AllSources(t, v) != {}
      && (t.items[v].manual == "" || t.items[w].manual == "" || t.items[v].manual == t.items[w].manual)
      && (LivePaths(t, v) == {} || LivePaths(t, w) == {} || LivePaths(t, v) * LivePaths(t, w) != {})
  {
    ConnectedReflexive(Links(t), v);
    if SafeSet(t, Component(t, v)) {
      ComponentsAgree(t, v, w);
      ConnectedStaysInCatalog(t, v, w);
      assert v != w ==> Compatible(t, v, w);
    }
  }

  /** The card of every item, and nothing else, stands for itself. */
  lemma CanonicalStandsForItself(t: Identity, v: nat)
    requires v in CatalogIds(t)
    ensures GroupOf(t, v) <= t.items.Keys && GroupOf(t, v) != {}
    ensures var c := Canonical(t, GroupOf(t, v));
      c in GroupOf(t, v) && GroupOf(t, c) == GroupOf(t, v) && t.items[c].kind == t.items[v].kind
  {
    ConnectedReflexive(Links(t), v);
    GroupsAreSafeClasses(t, v, v);
    GroupsAreSafeClasses(t, v, Canonical(t, GroupOf(t, v)));
  }

  // ----- The safety test -----

  function Elements(s: seq<nat>): set<nat> {
    set v | v in s
  }

  ghost predicate Distinct(s: seq<nat>) {
    forall i, j :: 0 <= i < j < |s| ==> s[i] != s[j]
  }

  /** The members of a set in some order. */
  method Listing(items: set<nat>) returns (ids: seq<nat>)
    ensures Distinct(ids) && Elements(ids) == items
  {
    ids := [];
    var pending := items;
    while pending != {}
      invariant Distinct(ids) && Elements(ids) !! pending && Elements(ids) + pending == items
      decreases pending
    {
      var x :| x in pending;
      assert x !in Elements(ids);
      assert Elements(ids + [x]) == Elements(ids) + {x};
      ids := ids + [x];
      pending := pending - {x};
    }
  }

  method AtMostOneManual(t: Identity, members: seq<nat>) returns (ok: bool)
    requires Elements(members) <= t.items.Keys
    ensures ok <==> forall i, j :: 0 <= i < j < |members| ==>
      var (a, b) := (t.items[members[i]].manual, t.items[members[j]].manual);
      a == "" || b == "" || a == b
  {
    var manualIds: set<string> := {};
    ghost var known := "";
    ok := true;
    for k := 0 to |members|
      invariant manualIds <= {known}
      invariant known != "" ==> known in manualIds
      invariant known != "" ==> exists i :: 0 <= i < k && t.items[members[i]].manual == known
      invariant ok && "" !in manualIds
      invariant forall i :: 0 <= i < k ==> t.items[members[i]].manual in {"", known}
    {
      var manual := t.items[members[k]].manual;
      if manual != "" {
        if manualIds != {} && manual !in manualIds {
          return false;
        }
        manualIds := manualIds + {manual};
        known := manual;
      }
    }
  }

  method PathsOverlap(t: Identity, members: seq<nat>) returns (ok: bool)
    ensures ok <==> forall i, j :: 0 <= i < j < |members| ==>
      var (a, b) := (LivePaths(t, members[i]), LivePaths(t, members[j]));
      a == {} || b == {} || a * b != {}
  {
    for i := 0 to |members|
      invariant forall x, j :: 0 <= x < i && x < j < |members| ==>
        LivePaths(t, members[x]) == {} || LivePaths(t, members[j]) == {}
        || LivePaths(t, members[x]) * LivePaths(t, members[j]) != {}
    {
      for j := i + 1 to |members|
        invariant forall y :: i < y < j ==>
          LivePaths(t, members[i]) == {} || LivePaths(t, members[y]) == {}
          || LivePaths(t, members[i]) * LivePaths(t, members[y]) != {}
      {
        var (left, right) := (LivePaths(t, members[i]), LivePaths(t, members[j]));
        if left != {} && right != {} && left * right == {} {
          return false;
        }
      }
    }
    return true;
  }

  method SafeGroup(t: Identity, members: seq<nat>) returns (ok: bool)
    ensures ok <==>
      && (|members| >= 2 ==> forall i :: 0 <= i < |members| ==> AllSources(t, members[i]) != {})
      && forall i, j :: 0 <= i < j < |members| ==> LiveSources(t, members[i]) !! LiveSources(t, members[j])
  {
    if |members| < 2 {
      return true;
    }
    var seen: set<nat> := {};
    for k := 0 to |members|
      invariant forall i :: 0 <= i < k ==> AllSources(t, members[i]) != {}
      invariant forall i :: 0 <= i < k ==> LiveSources(t, members[i]) <= seen
      invariant forall s :: s in seen ==> exists i :: 0 <= i < k && s in LiveSources(t, members[i])
      invariant forall i, j :: 0 <= i < j < k ==> LiveSources(t, members[i]) !! LiveSources(t, members[j])
    {
      if AllSources(t, members[k]) == {} {
        return false;
      }
      var sources := LiveSources(t, members[k]);
      if seen * sources != {} {
        ghost var s :| s in seen * sources;
        ghost var i :| 0 <= i < k && s in LiveSources(t, members[i]);
        assert s in LiveSources(t, members[i]) * LiveSources(t, members[k]);
        return false;
      }
      seen := seen + sources;
    }
    return true;
  }

  ghost predicate PairwiseCompatible(t: Identity, members: seq<nat>)
    requires Elements(members) <= t.items.Keys
  {
    forall i, j :: 0 <= i < j < |members| ==> Compatible(t, members[i], members[j])
  }

  lemma PairwiseIsSafeSet(t: Identity, members: seq<nat>)
    requires Elements(members) <= t.items.Keys && Distinct(members)
    ensures PairwiseCompatible(t, members) <==> SafeSet(t, Elements(members))
  {
    if SafeSet(t, Elements(members)) {
      forall i, j | 0 <= i < j < |members|
        ensures Compatible(t, members[i], members[j])
      {
        assert members[i] in Elements(members) && members[j] in Elements(members);
      }
    }
    if PairwiseCompatible(t, members) {
      forall a, b | a in Elements(members) && b in Elements(members) && a != b
        ensures Compatible(t, a, b)
      {
        var i :| 0 <= i < |members| && members[i] == a;
        var j :| 0 <= j < |members| && members[j] == b;
        assert if i < j then Compatible(t, members[i], members[j]) else Compatible(t, members[j], members[i]);
      }
    }
  }

  method SafeIdentityGroup(t: Identity, members: seq<nat>) returns (safe: bool)
    requires Elements(members) <= t.items.Keys && Distinct(members)
    ensures safe <==> SafeSet(t, Elements(members))
  {
    PairwiseIsSafeSet(t, members);
    var manual := AtMostOneManual(t, members);
    if !manual {
      return false;
    }
    var paths := PathsOverlap(t, members);
    if !paths {
      return false;
    }
    safe := SafeGroup(t, members);
    if safe {
      assert PairwiseCompatible(t, members);
    } else if |members| >= 2 && PairwiseCompatible(t, members) {
      forall i | 0 <= i < |members|
        ensures AllSources(t, members[i]) != {}
      {
        assert if i == 0 then Compatible(t, members[0], members[1]) else Compatible(t, members[0], members[i]);
      }
    }
  }

  // ----- The rebuild's grouping pass -----

  type Buckets = map<BucketKey, seq<nat>>

  ghost predicate Lists(t: Identity, buckets: Buckets, key: BucketKey)
    requires key in buckets
  {
    |buckets[key]| > 0 && Distinct(buckets[key]) && Elements(buckets[key]) == Bucket(t, key)
  }

  function Appended(buckets: Buckets, key: BucketKey, v: nat): Buckets {
    buckets[key := (if key in buckets then buckets[key] else []) + [v]]
  }

  /** The bucket `key` holds, each once, exactly the items of `filed` that belong to it. */
  ghost predicate Files(t: Identity, buckets: Buckets, filed: set<(BucketKey, nat)>) {
    && (forall f :: f in filed ==> f.0 in buckets && f.1 in buckets[f.0])
    && (forall key :: key in buckets ==> |buckets[key]| > 0 && Distinct(buckets[key]))
    && (forall key, v :: key in buckets && v in buckets[key] ==> (key, v) in filed)
  }

  lemma AppendFiles(t: Identity, buckets: Buckets, filed: set<(BucketKey, nat)>, key: BucketKey, v: nat)
    requires Files(t, buckets, filed) && (key, v) !in filed
    ensures Files(t, Appended(buckets, key, v), filed + {(key, v)})
  {
  }

  lemma FiledIsListed(t: Identity, buckets: Buckets, filed: set<(BucketKey, nat)>, key: BucketKey)
    requires Files(t, buckets, filed) && key in buckets
    requires forall v :: (key, v) in filed <==> v in Bucket(t, key)
    ensures Lists(t, buckets, key)
  {
    forall v
      ensures v in Elements(buckets[key]) <==> v in Bucket(t, key)
    {
      assert v in Elements(buckets[key]) <==> v in buckets[key];
    }
  }

  method IdentityBuckets(t: Identity) returns (buckets: Buckets)
    requires WellFormed(t)
    ensures forall key :: key in buckets ==> key.ById? && Lists(t, buckets, key)
    ensures forall key: BucketKey :: key.ById? && Bucket(t, key) != {} ==> key in buckets
  {
    buckets := map[];
    var rows := t.identifiers;
    ghost var filed: set<(BucketKey, nat)> := {};
    while rows != {}
      invariant rows <= t.identifiers && Files(t, buckets, filed)
      invariant forall f :: f in filed ==>
        f.0.ById? && f.1 in Bucket(t, f.0) && Identifier(f.1, f.0.provider, f.0.externalId) !in rows
      invariant forall i :: i in t.identifiers - rows && Stable(i.provider) && i.item in CatalogIds(t) ==>
        (ById(t.items[i.item].kind, i.provider, i.externalId), i.item) in filed
      decreases rows
    {
      var row :| row in rows;
      rows := rows - {row};
      if Stable(row.provider) && row.item in CatalogIds(t) {
        var key := ById(t.items[row.item].kind, row.provider, row.externalId);
        assert HasStableId(t, row.item);
        AppendFiles(t, buckets, filed, key, row.item);
        buckets := Appended(buckets, key, row.item);
        filed := filed + {(key, row.item)};
      }
    }
    forall key | key in buckets
      ensures key.ById? && Lists(t, buckets, key)
    {
      assert buckets[key][0] in buckets[key];
      FiledIsListed(t, buckets, filed, key);
    }
  }

  method TitleBuckets(t: Identity, ids: seq<nat>) returns (buckets: Buckets)
    requires Distinct(ids) && Elements(ids) == CatalogIds(t)
    ensures forall key :: key in buckets ==> key.ByTitle? && Lists(t, buckets, key)
    ensures forall key: BucketKey :: key.ByTitle? && Bucket(t, key) != {} ==> key in buckets
  {
    buckets := map[];
    ghost var filed: set<(BucketKey, nat)> := {};
    for k := 0 to |ids|
      invariant Files(t, buckets, filed)
      invariant forall f :: f in filed ==> f.0.ByTitle? && f.1 in Bucket(t, f.0) && f.1 in ids[..k]
      invariant forall j :: 0 <= j < k && !HasStableId(t, ids[j]) ==>
        ids[j] in t.items && (TitleKey(t.items[ids[j]]), ids[j]) in filed
    {
      var v := ids[k];
      assert v in Elements(ids);
      if !HasStableId(t, v) {
        var key := TitleKey(t.items[v]);
        AppendFiles(t, buckets, filed, key, v);
        buckets := Appended(buckets, key, v);
        filed := filed + {(key, v)};
      }
    }
    forall key: BucketKey, v | key.ByTitle? && v in Bucket(t, key)
      ensures (key, v) in filed
    {
      assert v in Elements(ids);
    }
    forall key | key in buckets
      ensures key.ByTitle? && Lists(t, buckets, key)
    {
      assert buckets[key][0] in buckets[key];
      FiledIsListed(t, buckets, filed, key);
    }
  }

  ghost predicate Joined(t: Identity, edges: Edges, key: BucketKey) {
    SafeSet(t, Bucket(t, key)) ==>
      forall a, b :: a in Bucket(t, key) && b in Bucket(t, key) ==> Connected(edges, a, b)
  }

  method JoinMembers(t: Identity, sets: DisjointSets, key: BucketKey, members: seq<nat>, ghost edges: Edges)
      returns (ghost more: Edges)
    requires sets.Valid() && Represents(sets.roots, edges) && sets.roots.Keys == CatalogIds(t)
    requires |members| > 0 && Elements(members) == Bucket(t, key) && SafeSet(t, Bucket(t, key))
    requires edges <= Links(t)
    modifies sets
    ensures sets.Valid() && Represents(sets.roots, more) && sets.roots.Keys == CatalogIds(t)
    ensures edges <= more <= Links(t) && Joined(t, more, key)
  {
    more := edges;
    ConnectedReflexive(more, members[0]);
    assert members[0] in Elements(members);
    for k := 1 to |members|
      invariant sets.Valid() && Represents(sets.roots, more) && sets.roots.Keys == CatalogIds(t)
      invariant edges <= more <= Links(t)
      invariant forall j :: 0 <= j < k ==> members[j] in sets.roots && sets.roots[members[0]] == sets.roots[members[j]]
    {
      assert members[k] in Elements(members);
      JoinRepresents(sets.roots, more, members[0], members[k],
                     Lesser(sets.roots[members[0]], sets.roots[members[k]]));
      sets.Join(members[0], members[k]);
      more := more + {(members[0], members[k])};
    }
  }

  method JoinSafeBuckets(t: Identity, sets: DisjointSets, buckets: Buckets, ghost edges: Edges)
      returns (ghost more: Edges)
    requires sets.Valid() && Represents(sets.roots, edges) && sets.roots.Keys == CatalogIds(t)
    requires forall key :: key in buckets ==> Lists(t, buckets, key)
    requires edges <= Links(t)
    modifies sets
    ensures sets.Valid() && Represents(sets.roots, more) && sets.roots.Keys == CatalogIds(t)
    ensures edges <= more <= Links(t)
    ensures forall key :: key in buckets ==> Joined(t, more, key)
  {
    more := edges;
    var keys := buckets.Keys;
    while keys != {}
      invariant keys <= buckets.Keys
      invariant sets.Valid() && Represents(sets.roots, more) && sets.roots.Keys == CatalogIds(t)
      invariant edges <= more <= Links(t)
      invariant forall key :: key in buckets.Keys - keys ==> Joined(t, more, key)
      decreases keys
    {
      var key :| key in keys;
      assert Lists(t, buckets, key);
      var safe := SafeIdentityGroup(t, buckets[key]);
      ghost var before := more;
      if safe {
        more := JoinMembers(t, sets, key, buckets[key], more);
      }
      forall other | other in buckets.Keys - keys
        ensures Joined(t, more, other)
      {
        JoinedMonotone(t, before, more, other);
      }
      keys := keys - {key};
    }
  }

  lemma JoinedMonotone(t: Identity, small: Edges, big: Edges, key: BucketKey)
    requires small <= big && Joined(t, small, key)
    ensures Joined(t, big, key)
  {
    if SafeSet(t, Bucket(t, key)) {
      forall a, b | a in Bucket(t, key) && b in Bucket(t, key)
        ensures Connected(big, a, b)
      {
        ConnectedMonotone(small, big, a, b);
      }
    }
  }

  /** The star of joins inside each safe bucket has the same components as all links of the bucket. */
  lemma StarsRepresentLinks(t: Identity, roots: Partition, edges: Edges)
    requires Represents(roots, edges) && roots.Keys == CatalogIds(t) && edges <= Links(t)
    requires forall key :: Bucket(t, key) != {} ==> Joined(t, edges, key)
    ensures Represents(roots, Links(t))
  {
    forall e | e in Links(t)
      ensures roots[e.0] == roots[e.1]
    {
      var key :| e.0 in Bucket(t, key) && e.1 in Bucket(t, key) && SafeSet(t, Bucket(t, key));
      assert Joined(t, edges, key) && Connected(edges, e.0, e.1);
    }
    forall a, b | a in roots && b in roots
      ensures roots[a] == roots[b] <==> Connected(Links(t), a, b)
    {
      if Connected(Links(t), a, b) {
        var path :| IsPath(Links(t), path, a, b);
        ConnectedKeepsLabel(Links(t), roots, path, a, b);
      }
      if roots[a] == roots[b] {
        ConnectedMonotone(edges, Links(t), a, b);
      }
    }
    forall v | v in roots
      ensures HasRoot(roots, Links(t), v)
    {
      assert HasRoot(roots, edges, v);
      ConnectedMonotone(edges, Links(t), v, roots[v]);
    }
  }

  method JoinCatalog(t: Identity, ids: seq<nat>) returns (sets: DisjointSets)
    requires WellFormed(t) && Distinct(ids) && Elements(ids) == CatalogIds(t)
    ensures fresh(sets) && sets.Valid() && sets.roots.Keys == CatalogIds(t)
    ensures Represents(sets.roots, Links(t))
  {
    sets := new DisjointSets(CatalogIds(t));
    FreshForestRepresentsNoEdges(CatalogIds(t));
    var byId := IdentityBuckets(t);
    ghost var edges := JoinSafeBuckets(t, sets, byId, {});
    var byTitle := TitleBuckets(t, ids);
    ghost var more := JoinSafeBuckets(t, sets, byTitle, edges);
    forall key | Bucket(t, key) != {}
      ensures Joined(t, more, key)
    {
      if key.ById? {
        JoinedMonotone(t, edges, more, key);
      }
    }
    StarsRepresentLinks(t, sets.roots, more);
  }

  method ChooseCanonical(t: Identity, members: seq<nat>) returns (c: nat)
    requires Elements(members) <= t.items.Keys && Elements(members) != {}
    ensures c == Canonical(t, Elements(members))
  {
    c := members[0];
    assert c in Elements(members);
    for k := 1 to |members|
      invariant c in members[..k]
      invariant forall j :: 0 <= j < k && members[j] != c ==> members[j] in t.items && c in t.items && Before(t, c, members[j])
    {
      assert members[k] in Elements(members);
      if Before(t, members[k], c) {
        c := members[k];
      }
    }
    assert IsCanonical(t, Elements(members), c);
    CanonicalUnique(t, Elements(members), c, Canonical(t, Elements(members)));
  }

  /** The card of an item. */
  ghost function Card(t: Identity, v: nat): nat
    requires v in CatalogIds(t)
  {
    CanonicalStandsForItself(t, v);
    Canonical(t, GroupOf(t, v))
  }

  /** The membership table the rebuild stores: a function of the tables, whatever the row order. */
  ghost function CardOf(t: Identity): map<nat, nat> {
    map v | v in CatalogIds(t) :: Card(t, v)
  }

  lemma MemberCard(t: Identity, members: set<nat>, v: nat)
    requires v in members && members <= CatalogIds(t) && members == Component(t, v)
    ensures Card(t, v) == if SafeSet(t, members) then Canonical(t, members) else v
  {
    if !SafeSet(t, members) {
      CanonicalUnique(t, {v}, v, Canonical(t, {v}));
    }
  }

  /** Every item's candidate group, listed once under the root of its component. */
  ghost predicate ListsRoots(groups: map<nat, seq<nat>>, roots: Partition, ids: set<nat>) {
    && (forall r :: r in groups ==> |groups[r]| > 0 && Distinct(groups[r]))
    && (forall r, v {:trigger v in groups[r]} :: r in groups && v in groups[r] ==>
          v in ids && v in roots && roots[v] == r)
    && (forall v {:trigger v in ids} :: v in ids && v in roots ==>
          roots[v] in groups && v in groups[roots[v]])
  }

  function Added(groups: map<nat, seq<nat>>, root: nat, v: nat): map<nat, seq<nat>> {
    groups[root := (if root in groups then groups[root] else []) + [v]]
  }

  lemma AddListsRoots(groups: map<nat, seq<nat>>, roots: Partition, ids: set<nat>, v: nat)
    requires ListsRoots(groups, roots, ids) && v in roots && v !in ids
    ensures ListsRoots(Added(groups, roots[v], v), roots, ids + {v})
  {
    var root := roots[v];
    var more := Added(groups, root, v);
    assert root in groups ==> v !in groups[root];
    forall r | r in more
      ensures |more[r]| > 0 && Distinct(more[r])
    {
      if r == root && r in groups {
        forall i, j | 0 <= i < j < |more[r]|
          ensures more[r][i] != more[r][j]
        {
          assert i < |groups[r]| && groups[r][i] in groups[r];
        }
      }
    }
  }

  method CandidateGroups(sets: DisjointSets, ids: seq<nat>) returns (groups: map<nat, seq<nat>>)
    requires sets.Valid() && sets.roots.Keys == Elements(ids) && Distinct(ids)
    modifies sets`parents
    ensures sets.Valid() && ListsRoots(groups, sets.roots, Elements(ids))
  {
    groups := map[];
    for k := 0 to |ids|
      invariant sets.Valid() && ListsRoots(groups, sets.roots, Elements(ids[..k]))
    {
      var v := ids[k];
      assert v in Elements(ids) && v !in Elements(ids[..k]);
      assert Elements(ids[..k + 1]) == Elements(ids[..k]) + {v};
      AddListsRoots(groups, sets.roots, Elements(ids[..k]), v);
      var root := sets.Find(v);
      groups := Added(groups, root, v);
    }
    assert ids[..|ids|] == ids;
  }

  lemma CandidateIsComponent(t: Identity, groups: map<nat, seq<nat>>, roots: Partition, r: nat)
    requires Represents(roots, Links(t)) && roots.Keys == CatalogIds(t)
    requires ListsRoots(groups, roots, CatalogIds(t)) && r in groups
    ensures Elements(groups[r]) <= CatalogIds(t) && Elements(groups[r]) != {}
    ensures forall v :: v in groups[r] ==> Elements(groups[r]) == Component(t, v)
  {
    assert groups[r][0] in groups[r];
    assert groups[r][0] in Elements(groups[r]);
    forall v | v in groups[r]
      ensures Elements(groups[r]) == Component(t, v)
    {
      forall w
        ensures w in Elements(groups[r]) <==> w in Component(t, v)
      {
        assert w in Elements(groups[r]) <==> w in groups[r];
      }
    }
  }

  /** Every member of a kept group gets the group's canonical item; a split member gets itself. */
  method AssignGroup(t: Identity, members: seq<nat>, cards: map<nat, nat>) returns (more: map<nat, nat>)
    requires Distinct(members) && Elements(members) <= CatalogIds(t) && Elements(members) != {}
    requires forall v :: v in members ==> Elements(members) == Component(t, v)
    ensures more.Keys == cards.Keys + Elements(members)
    ensures forall v :: v in cards && v !in Elements(members) ==> more[v] == cards[v]
    ensures forall v :: v in Elements(members) ==> v in CatalogIds(t) && more[v] == Card(t, v)
  {
    var whole := true;
    if |members| > 1 {
      whole := SafeIdentityGroup(t, members);
    } else {
      assert Elements(members) == {members[0]};
    }
    ghost var group := Elements(members);
    assert whole <==> SafeSet(t, group);
    var c := ChooseCanonical(t, members);
    forall v | v in members
      ensures v in CatalogIds(t) && Card(t, v) == if whole then c else v
    {
      assert v in group;
      MemberCard(t, group, v);
    }
    more := FillCards(members, whole, c, cards);
  }

  method FillCards(members: seq<nat>, whole: bool, c: nat, cards: map<nat, nat>) returns (more: map<nat, nat>)
    ensures more.Keys == cards.Keys + Elements(members)
    ensures forall v :: v in cards && v !in members ==> more[v] == cards[v]
    ensures forall v :: v in members ==> more[v] == if whole then c else v
  {
    more := cards;
    for k := 0 to |members|
      invariant more.Keys == cards.Keys + Elements(members[..k])
      invariant forall v :: v in cards && v !in members ==> more[v] == cards[v]
      invariant forall j :: 0 <= j < k ==> members[j] in more && more[members[j]] == if whole then c else members[j]
    {
      var v := members[k];
      assert Elements(members[..k + 1]) == Elements(members[..k]) + {v};
      more := more[v := if whole then c else v];
    }
    assert members[..|members|] == members;
  }

  lemma CardsComplete(t: Identity, groups: map<nat, seq<nat>>, roots: Partition, cards: map<nat, nat>)
    requires ListsRoots(groups, roots, CatalogIds(t)) && roots.Keys == CatalogIds(t)
    requires Covered(groups, {}, cards) && CardsSoFar(t, cards)
    ensures cards == CardOf(t)
  {
    forall v | v in CatalogIds(t)
      ensures v in cards
    {
      assert v in groups[roots[v]];
      assert v in Elements(groups[roots[v]]);
    }
  }

  ghost predicate CardsSoFar(t: Identity, cards: map<nat, nat>) {
    forall v {:trigger cards[v]} :: v in cards ==> v in CatalogIds(t) && cards[v] == Card(t, v)
  }

  lemma CardsGrow(t: Identity, cards: map<nat, nat>, more: map<nat, nat>, members: set<nat>)
    requires CardsSoFar(t, cards) && more.Keys == cards.Keys + members
    requires forall v :: v in cards && v !in members ==> more[v] == cards[v]
    requires forall v :: v in members ==> v in CatalogIds(t) && more[v] == Card(t, v)
    ensures CardsSoFar(t, more)
  {
  }

  ghost predicate Covered(groups: map<nat, seq<nat>>, pending: set<nat>, cards: map<nat, nat>) {
    forall r :: r in groups && r !in pending ==> Elements(groups[r]) <= cards.Keys
  }

  lemma CoverGrows(groups: map<nat, seq<nat>>, pending: set<nat>, cards: map<nat, nat>, more: map<nat, nat>, r: nat)
    requires Covered(groups, pending, cards) && r in groups && more.Keys == cards.Keys + Elements(groups[r])
    ensures Covered(groups, pending - {r}, more)
  {
  }

  /** Group by group. */
  method CardsOfGroups(t: Identity, groups: map<nat, seq<nat>>, ghost roots: Partition) returns (cards: map<nat, nat>)
    requires Represents(roots, Links(t)) && roots.Keys == CatalogIds(t) && ListsRoots(groups, roots, CatalogIds(t))
    ensures cards == CardOf(t)
  {
    cards := map[];
    var pending := groups.Keys;
    while pending != {}
      invariant pending <= groups.Keys
      invariant Covered(groups, pending, cards) && CardsSoFar(t, cards)
      decreases pending
    {
      var r :| r in pending;
      CandidateIsComponent(t, groups, roots, r);
      ghost var before := cards;
      cards := AssignGroup(t, groups[r], cards);
      CardsGrow(t, before, cards, Elements(groups[r]));
      CoverGrows(groups, pending, before, cards, r);
      pending := pending - {r};
    }
    CardsComplete(t, groups, roots, cards);
  }

  /** The whole grouping pass computes the relational specification. */
  method AssignCards(t: Identity, ids: seq<nat>) returns (cards: map<nat, nat>)
    requires WellFormed(t) && Distinct(ids) && Elements(ids) == CatalogIds(t)
    ensures cards == CardOf(t)
  {
    var sets := JoinCatalog(t, ids);
    var groups := CandidateGroups(sets, ids);
    cards := CardsOfGroups(t, groups, sets.roots);
  }
}
