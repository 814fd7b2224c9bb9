/**
 Who shares a card, told from titles, years, parents and external ids: two items without a stable id,
 two with one, and one of each.
 */
module SharedCards {
  import opened Catalog
  import opened UnionFind
  import opened Grouping

  /** Items share a card exactly if they are in one group. */
  lemma OneCardIsOneGroup(t: Identity, a: nat, b: nat)
    requires a in CatalogIds(t) && b in CatalogIds(t)
    ensures CardOf(t)[a] == CardOf(t)[b] <==> b in GroupOf(t, a)
  {
    CanonicalStandsForItself(t, a);
    CanonicalStandsForItself(t, b);
    GroupsAreSafeClasses(t, a, a) by {
      ConnectedReflexive(Links(t), a);
    }
    GroupsAreSafeClasses(t, b, b) by {
      ConnectedReflexive(Links(t), b);
    }
    if b in GroupOf(t, a) {
      GroupsAreSafeClasses(t, a, b);
    }
  }

  /** Links that all keep to a set keep whoever is connected to one of its members in it. */
  lemma ConnectedStaysInside(t: Identity, inside: set<nat>, a: nat, b: nat)
    requires a in CatalogIds(t) && a in inside && Connected(Links(t), a, b)
    requires forall p, q :: p in CatalogIds(t) && q in CatalogIds(t) && Linked(t, p, q) ==> (p in inside <==> q in inside)
    ensures b in inside
  {
    var marks := map x | x in CatalogIds(t) :: x in inside;
    var path :| IsPath(Links(t), path, a, b);
    ConnectedKeepsLabel(Links(t), marks, path, a, b);
  }

  /** No two confirmed ids, no files apart, no server that has both live, and each is known to some server. */
  lemma CompatibleIff(t: Identity, a: nat, b: nat)
    requires a in t.items && b in t.items
    ensures Compatible(t, a, b) <==>
      && !(t.items[a].manual != "" && t.items[b].manual != "" && t.items[a].manual != t.items[b].manual)
      && !FilesApart(t, a, b) && (forall s :: !(HasRef(t, a, s, true) && HasRef(t, b, s, true)))
      && (exists s :: HasRef(t, a, s, false)) && exists s :: HasRef(t, b, s, false)
  {
    FilesApartIff(t, a, b);
    SourcesTold(t, a);
    SourcesTold(t, b);
    assert LiveSources(t, a) !! LiveSources(t, b) <==> forall s: nat :: !(s in LiveSources(t, a) && s in LiveSources(t, b));
  }

  // ----- Items without a stable id -----

  /** One kind, one title, one year, and for episodes, albums and tracks one parent; a missing parent reads as 0. */
  predicate SameTitle(x: Item, y: Item) {
    && x.kind == y.kind && x.title == y.title && x.year == y.year
    && (x.kind in {Episode, Album, Track} ==> x.parent.GetOr(0) == y.parent.GetOr(0))
  }

  /** The catalog items without a stable id that agree with `a`. */
  ghost function Namesakes(t: Identity, a: nat): set<nat>
    requires a in t.items
  {
    set x | x in CatalogIds(t) && !HasStableId(t, x) && SameTitle(t.items[a], t.items[x])
  }

  lemma NamesakesAreBucket(t: Identity, a: nat)
    requires a in CatalogIds(t) && !HasStableId(t, a)
    ensures Bucket(t, TitleKey(t.items[a])) == Namesakes(t, a) && a in Namesakes(t, a)
  {
  }

  /** Only namesakes are linked to an item without a stable id, and only if they are safe together. */
  lemma LinkedIsNamesake(t: Identity, a: nat, b: nat)
    requires a in CatalogIds(t) && !HasStableId(t, a) && b in CatalogIds(t) && (Linked(t, a, b) || Linked(t, b, a))
    ensures b in Namesakes(t, a) && SafeSet(t, Namesakes(t, a))
  {
    var key :| a in Bucket(t, key) && b in Bucket(t, key) && SafeSet(t, Bucket(t, key));
    assert key == TitleKey(t.items[a]);
    NamesakesAreBucket(t, a);
  }

  lemma NamesakesAgree(t: Identity, a: nat, b: nat)
    requires a in CatalogIds(t) && !HasStableId(t, a) && b in Namesakes(t, a)
    ensures Namesakes(t, b) == Namesakes(t, a)
  {
  }

  lemma NamesakeGroup(t: Identity, a: nat)
    requires a in CatalogIds(t) && !HasStableId(t, a)
    ensures GroupOf(t, a) == if SafeSet(t, Namesakes(t, a)) then Namesakes(t, a) else {a}
  {
    var safe := SafeSet(t, Namesakes(t, a));
    var inside := if safe then Namesakes(t, a) else {a};
    NamesakesAreBucket(t, a);
    forall p, q | p in CatalogIds(t) && q in CatalogIds(t) && Linked(t, p, q)
      ensures p in inside <==> q in inside
    {
      if p in inside {
        LinkedIsNamesake(t, p, q);
        NamesakesAgree(t, a, p);
      }
      if q in inside {
        LinkedIsNamesake(t, q, p);
        NamesakesAgree(t, a, q);
      }
    }
    forall b
      ensures b in Component(t, a) <==> b in inside
    {
      if b in Component(t, a) {
        ConnectedStaysInside(t, inside, a, b);
      } else if b in inside {
        ConnectedReflexive(Links(t), a);
        assert Linked(t, a, b);
        ConnectedByEdge(Links(t), a, b);
      }
    }
    assert Component(t, a) == inside;
  }

  /**
   Two items without a stable id share a card exactly if they agree in kind, title, year and, for
   episodes, albums and tracks, parent, and all that agree with them are pairwise compatible.
   */
  lemma NamesakesShareIff(t: Identity, a: nat, b: nat)
    requires a in CatalogIds(t) && b in CatalogIds(t) && a != b && !HasStableId(t, a) && !HasStableId(t, b)
    ensures CardOf(t)[a] == CardOf(t)[b] <==>
      SameTitle(t.items[a], t.items[b])
      && forall x, y :: x in Namesakes(t, a) && y in Namesakes(t, a) && x != y ==> Compatible(t, x, y)
  {
    OneCardIsOneGroup(t, a, b);
    NamesakeGroup(t, a);
  }

  // ----- Items with a stable id -----

  ghost predicate ShareStableId(t: Identity, a: nat, b: nat) {
    && a in CatalogIds(t) && b in CatalogIds(t) && t.items[a].kind == t.items[b].kind
    && exists i, j :: i in t.identifiers && j in t.identifiers && i.item == a && j.item == b
         && Stable(i.provider) && i.provider == j.provider && i.externalId == j.externalId
  }

  ghost function SharedIds(t: Identity): Edges {
    set a, b | a in CatalogIds(t) && b in CatalogIds(t) && ShareStableId(t, a, b) :: (a, b)
  }

  /** The items that a chain of shared ids leads to. */
  ghost function Relatives(t: Identity, a: nat): set<nat> {
    set x | x in CatalogIds(t) && Connected(SharedIds(t), a, x)
  }

  /** Items in one bucket share an id if one of them has a stable one, and both have one. */
  lemma LinkedSharesId(t: Identity, a: nat, b: nat)
    requires a in CatalogIds(t) && b in CatalogIds(t) && HasStableId(t, a) && (Linked(t, a, b) || Linked(t, b, a))
    ensures ShareStableId(t, a, b) && HasStableId(t, b)
  {
    var key :| a in Bucket(t, key) && b in Bucket(t, key) && SafeSet(t, Bucket(t, key));
    assert key.ById?;
    var (i, j) := (Identifier(a, key.provider, key.externalId), Identifier(b, key.provider, key.externalId));
    assert i in t.identifiers && j in t.identifiers;
  }

  lemma {:induction false} RelativesAreStable(t: Identity, path: seq<nat>, a: nat, b: nat)
    requires IsPath(SharedIds(t), path, a, b) && a in CatalogIds(t) && HasStableId(t, a)
    ensures HasStableId(t, b)
    decreases |path|
  {
    if |path| > 1 {
      var n := |path| - 1;
      assert Adjacent(SharedIds(t), path[n - 1], path[n]);
      assert ShareStableId(t, path[n - 1], b) || ShareStableId(t, b, path[n - 1]);
    }
  }

  /** Who shares a card with an item is a relative, so a chain of equal ids leads to it. */
  lemma SharingIsRelated(t: Identity, a: nat, b: nat)
    requires a in CatalogIds(t) && HasStableId(t, a) && Connected(Links(t), a, b)
    ensures b in Relatives(t, a) && HasStableId(t, b)
  {
    ConnectedReflexive(SharedIds(t), a);
    forall p, q | p in CatalogIds(t) && q in CatalogIds(t) && Linked(t, p, q)
      ensures p in Relatives(t, a) <==> q in Relatives(t, a)
    {
      if p in Relatives(t, a) {
        RelativeByLink(t, a, p, q);
      }
      if q in Relatives(t, a) {
        RelativeByLink(t, a, q, p);
      }
    }
    ConnectedStaysInside(t, Relatives(t, a), a, b);
    var path :| IsPath(SharedIds(t), path, a, b);
    RelativesAreStable(t, path, a, b);
  }

  lemma RelativeByLink(t: Identity, a: nat, p: nat, q: nat)
    requires a in CatalogIds(t) && HasStableId(t, a) && p in Relatives(t, a) && q in CatalogIds(t) && (Linked(t, p, q) || Linked(t, q, p))
    ensures q in Relatives(t, a)
  {
    var path :| IsPath(SharedIds(t), path, a, p);
    RelativesAreStable(t, path, a, p);
    LinkedSharesId(t, p, q);
    ConnectedByEdge(SharedIds(t), p, q);
    ConnectedTransitive(SharedIds(t), a, p, q);
  }

  /** If all relatives are compatible, every shared id links. */
  lemma SharedIdLinks(t: Identity, a: nat, p: nat, q: nat)
    requires a in CatalogIds(t) && p in Relatives(t, a) && ShareStableId(t, p, q) && SafeSet(t, Relatives(t, a))
    ensures Linked(t, p, q)
  {
    var i, j :| i in t.identifiers && j in t.identifiers && i.item == p && j.item == q
      && Stable(i.provider) && i.provider == j.provider && i.externalId == j.externalId;
    var key := ById(t.items[p].kind, i.provider, i.externalId);
    assert i == Identifier(p, key.provider, key.externalId) && j == Identifier(q, key.provider, key.externalId);
    forall x | x in Bucket(t, key)
      ensures x in Relatives(t, a)
    {
      assert HasStableId(t, x);
      assert Identifier(x, key.provider, key.externalId) in t.identifiers;
      assert ShareStableId(t, p, x);
      ConnectedByEdge(SharedIds(t), p, x);
      ConnectedTransitive(SharedIds(t), a, p, x);
    }
    assert HasStableId(t, p) && HasStableId(t, q);
    assert p in Bucket(t, key) && q in Bucket(t, key);
  }

  lemma {:induction false} RelativesAreConnected(t: Identity, path: seq<nat>, a: nat, b: nat)
    requires a in CatalogIds(t) && IsPath(SharedIds(t), path, a, b) && SafeSet(t, Relatives(t, a))
    ensures Connected(Links(t), a, b) && (|path| > 1 ==> b in CatalogIds(t))
    decreases |path|
  {
    if |path| == 1 {
      ConnectedReflexive(Links(t), a);
    } else {
      var n := |path| - 1;
      var (front, p) := (path[..n], path[n - 1]);
      assert Adjacent(SharedIds(t), path[n - 1], path[n]);
      forall i | 0 < i < |front|
        ensures Adjacent(SharedIds(t), front[i - 1], front[i])
      {
        assert Adjacent(SharedIds(t), path[i - 1], path[i]);
      }
      assert IsPath(SharedIds(t), front, a, p);
      RelativesAreConnected(t, front, a, p);
      assert p in Relatives(t, a);
      StableIdEitherWay(t, p, b);
      SharedIdLinks(t, a, p, b);
      ConnectedByEdge(Links(t), p, b);
      ConnectedTransitive(Links(t), a, p, b);
    }
  }

  lemma StableIdEitherWay(t: Identity, a: nat, b: nat)
    ensures ShareStableId(t, a, b) <==> ShareStableId(t, b, a)
  {
  }

  /**
   An item with a stable id shares a card only with items that a chain of equal ids leads to, all of
   its kind and with a stable id; and with all of these if they are pairwise compatible.
   */
  lemma RelativesShare(t: Identity, a: nat, b: nat)
    requires a in CatalogIds(t) && b in CatalogIds(t) && HasStableId(t, a)
    ensures CardOf(t)[a] == CardOf(t)[b] ==> Connected(SharedIds(t), a, b) && HasStableId(t, b)
    ensures (forall x, y :: x in Relatives(t, a) && y in Relatives(t, a) && x != y ==> Compatible(t, x, y)) ==>
      (CardOf(t)[a] == CardOf(t)[b] <==> Connected(SharedIds(t), a, b))
  {
    OneCardIsOneGroup(t, a, b);
    ConnectedReflexive(Links(t), a);
    if b in GroupOf(t, a) {
      SharingIsRelated(t, a, b);
    }
    if SafeSet(t, Relatives(t, a)) {
      forall x | x in Component(t, a)
        ensures x in Relatives(t, a)
      {
        SharingIsRelated(t, a, x);
      }
      if Connected(SharedIds(t), a, b) {
        var path :| IsPath(SharedIds(t), path, a, b);
        RelativesAreConnected(t, path, a, b);
      }
    }
  }

  // ----- Which of them the card is -----

  /** Confirmed if any of them is; among those known to Plex if any is; and the smallest id among those. */
  lemma CardIsPreferred(t: Identity, v: nat, m: nat)
    requires v in CatalogIds(t) && m in CatalogIds(t) && CardOf(t)[m] == CardOf(t)[v]
    ensures var c := CardOf(t)[v];
      && c in CatalogIds(t) && CardOf(t)[c] == c
      && (Confirmed(t, m) ==> Confirmed(t, c))
      && ((Confirmed(t, m) <==> Confirmed(t, c)) && OnPlex(t, m, false) ==> OnPlex(t, c, false))
      && ((Confirmed(t, m) <==> Confirmed(t, c)) && (OnPlex(t, m, false) <==> OnPlex(t, c, false)) ==> c <= m)
  {
    CanonicalStandsForItself(t, v);
    OneCardIsOneGroup(t, v, m);
    var c := CardOf(t)[v];
    GroupsAreSafeClasses(t, v, c);
    assert m != c ==> Before(t, c, m);
  }
}
