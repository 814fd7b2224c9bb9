/**
 File paths are evidence for the grouping that no trigger watches: which writes of paths leave a
 fresh projection fresh, and a run in which one does not.
 */
module Evidence {
  import opened Catalog
  import opened Playback
  import opened Projection
  import opened Refresh
  import opened Grouping
  import opened Store
  import opened Staleness

  /** New paths for the same references. */
  ghost predicate PathWrite(t: Identity, next: Identity) {
    SameRows(t, next) && next.sources == t.sources
  }

  lemma SameRowsSameRefs(t: Identity, next: Identity, r: Ref)
    requires SameRows(t, next) && r in t.refs
    ensures exists q :: q in next.refs && q.(paths := {}) == r.(paths := {})
  {
    assert r.(paths := {}) in WithoutPaths(t.refs) && r.(paths := {}) in WithoutPaths(next.refs);
  }

  lemma SameRowsSameLive(t: Identity, next: Identity, x: nat)
    requires SameRows(t, next)
    ensures LiveSources(next, x) <= LiveSources(t, x)
  {
    forall s | s in LiveSources(next, x)
      ensures s in LiveSources(t, x)
    {
      var r :| r in next.refs && r.item == x && r.available && r.source == s;
      SameRowsSameRefs(next, t, r);
      var q :| q in t.refs && q.(paths := {}) == r.(paths := {});
      assert q.item == q.(paths := {}).item && q.available == q.(paths := {}).available && q.source == q.(paths := {}).source;
    }
  }

  lemma SameRowsSameOffers(t: Identity, next: Identity, cards: Cards, e: nat, r: Ref)
    requires PathWrite(t, next) && Offered(t, cards, e, r)
    ensures Available(next, cards, e)
    ensures forall c :: r.source in t.sources && t.sources[r.source] == c ==> AvailableOn(next, cards, e, c)
  {
    SameRowsSameRefs(t, next, r);
    var q :| q in next.refs && q.(paths := {}) == r.(paths := {});
    assert q.item == q.(paths := {}).item && q.available == q.(paths := {}).available && q.source == q.(paths := {}).source;
    assert Offered(next, cards, e, q);
  }

  /** With the same cards, paths decide nothing that is stored. */
  lemma SameRowsSameEntry(t: Identity, next: Identity, a: Activity, cards: Cards, e: nat)
    requires PathWrite(t, next) && e in t.items
    ensures RebuiltEntry(next, a, cards, e) == RebuiltEntry(t, a, cards, e)
  {
    forall x: nat
      ensures LiveSources(next, x) == LiveSources(t, x)
    {
      SameRowsSameLive(t, next, x);
      SameRowsSameLive(next, t, x);
    }
    assert ChildCards(next, cards, next.items.Keys, e) == ChildCards(t, cards, t.items.Keys, e);
    forall r | Offered(t, cards, e, r)
      ensures Available(next, cards, e)
      ensures forall c :: r.source in t.sources && t.sources[r.source] == c ==> AvailableOn(next, cards, e, c)
    {
      SameRowsSameOffers(t, next, cards, e, r);
    }
    forall r | Offered(next, cards, e, r)
      ensures Available(t, cards, e)
      ensures forall c :: r.source in next.sources && next.sources[r.source] == c ==> AvailableOn(t, cards, e, c)
    {
      SameRowsSameOffers(next, t, cards, e, r);
    }
  }

  /** The stored facts depend on paths through the cards only. */
  lemma SameCardsKeepFresh(s: Snapshot, next: Identity)
    requires Fresh(s) && PathWrite(s.tables, next)
    ensures Fresh(s.(tables := next)) <==> CardOf(next) == CardOf(s.tables)
  {
    if CardOf(next) == CardOf(s.tables) {
      forall e | e in s.entries
        ensures Right(next, s.activity, s.members, e, s.entries[e])
      {
        assert Right(s.tables, s.activity, s.members, e, s.entries[e]);
        SameRowsSameEntry(s.tables, next, s.activity, s.members, e);
      }
    }
  }

  // ----- Conflicts of files -----

  /** Everything but their files lets the two share a card. */
  ghost predicate CompatibleButFiles(t: Identity, a: nat, b: nat)
    requires a in t.items && b in t.items
  {
    && (t.items[a].manual == "" || t.items[b].manual == "" || t.items[a].manual == t.items[b].manual)
    && LiveSources(t, a) !! LiveSources(t, b) && AllSources(t, a) != {} && AllSources(t, b) != {}
  }

  ghost predicate ConflictKept(t: Identity, next: Identity, a: nat, b: nat) {
    a in CatalogIds(t) && b in CatalogIds(t) && a != b && t.items[a].kind == t.items[b].kind && CompatibleButFiles(t, a, b) ==>
      (FilesApart(t, a, b) <==> FilesApart(next, a, b))
  }

  /** No two items of a kind that might share a card gain or lose a conflict of files. */
  ghost predicate ConflictsKept(t: Identity, next: Identity) {
    forall a: nat, b: nat :: ConflictKept(t, next, a, b)
  }

  lemma SameRowsSameOwners(t: Identity, next: Identity, x: nat)
    requires SameRows(t, next)
    ensures AllSources(next, x) <= AllSources(t, x)
  {
    forall s | s in AllSources(next, x)
      ensures s in AllSources(t, x)
    {
      var r :| r in next.refs && r.item == x && r.source == s;
      SameRowsSameRefs(next, t, r);
      var q :| q in t.refs && q.(paths := {}) == r.(paths := {});
      assert q.item == q.(paths := {}).item && q.source == q.(paths := {}).source;
    }
  }

  lemma SameRowsSamePlex(t: Identity, next: Identity, x: nat)
    requires PathWrite(t, next) && HasPlexRef(t, x)
    ensures HasPlexRef(next, x)
  {
    var r :| r in t.refs && r.item == x && r.source in t.sources && t.sources[r.source] == Plex;
    SameRowsSameRefs(t, next, r);
    var q :| q in next.refs && q.(paths := {}) == r.(paths := {});
    assert q.item == q.(paths := {}).item && q.source == q.(paths := {}).source;
  }

  lemma CompatibleIff(t: Identity, next: Identity, a: nat, b: nat)
    requires PathWrite(t, next) && a in t.items && b in t.items
    ensures CompatibleButFiles(next, a, b) <==> CompatibleButFiles(t, a, b)
    ensures Compatible(t, a, b) <==> CompatibleButFiles(t, a, b) && !FilesApart(t, a, b)
    ensures Compatible(next, a, b) <==> CompatibleButFiles(t, a, b) && !FilesApart(next, a, b)
  {
    FilesApartIff(t, a, b);
    FilesApartIff(next, a, b);
    SameRowsSameLive(t, next, a);
    SameRowsSameLive(next, t, a);
    SameRowsSameLive(t, next, b);
    SameRowsSameLive(next, t, b);
    SameRowsSameOwners(t, next, a);
    SameRowsSameOwners(next, t, a);
    SameRowsSameOwners(t, next, b);
    SameRowsSameOwners(next, t, b);
  }

  // ----- Kept conflicts keep every card -----

  ghost predicate OneKind(t: Identity, members: set<nat>) {
    members <= CatalogIds(t) && forall v, w :: v in members && w in members ==> t.items[v].kind == t.items[w].kind
  }

  lemma SameSafeSets(t: Identity, next: Identity, members: set<nat>)
    requires PathWrite(t, next) && ConflictsKept(t, next) && OneKind(t, members)
    ensures SafeSet(next, members) <==> SafeSet(t, members)
  {
    forall a, b | a in members && b in members && a != b
      ensures Compatible(next, a, b) <==> Compatible(t, a, b)
    {
      CompatibleIff(t, next, a, b);
      assert ConflictKept(t, next, a, b);
    }
  }

  lemma SameBuckets(t: Identity, next: Identity, key: BucketKey)
    requires SameRows(t, next)
    ensures Bucket(next, key) == Bucket(t, key)
  {
    forall v: nat
      ensures HasStableId(next, v) <==> HasStableId(t, v)
    {
    }
  }

  lemma SameLinks(t: Identity, next: Identity)
    requires PathWrite(t, next) && ConflictsKept(t, next)
    ensures Links(next) == Links(t)
  {
    forall key
      ensures Bucket(next, key) == Bucket(t, key) && (SafeSet(next, Bucket(next, key)) <==> SafeSet(t, Bucket(t, key)))
    {
      SameBuckets(t, next, key);
      forall v, w | v in Bucket(t, key) && w in Bucket(t, key)
        ensures t.items[v].kind == t.items[w].kind
      {
        BucketIsOneKind(t, key, v, w);
      }
      SameSafeSets(t, next, Bucket(t, key));
    }
    assert CatalogIds(next) == CatalogIds(t);
    forall a, b
      ensures Linked(next, a, b) <==> Linked(t, a, b)
    {
      if key :| a in Bucket(t, key) && b in Bucket(t, key) && SafeSet(t, Bucket(t, key)) {
        assert a in Bucket(next, key) && b in Bucket(next, key) && SafeSet(next, Bucket(next, key));
      }
      if key :| a in Bucket(next, key) && b in Bucket(next, key) && SafeSet(next, Bucket(next, key)) {
        assert a in Bucket(t, key) && b in Bucket(t, key) && SafeSet(t, Bucket(t, key));
      }
    }
  }

  lemma SameGroup(t: Identity, next: Identity, v: nat)
    requires PathWrite(t, next) && ConflictsKept(t, next) && v in CatalogIds(t)
    ensures v in CatalogIds(next) && GroupOf(next, v) == GroupOf(t, v)
  {
    SameLinks(t, next);
    assert CatalogIds(next) == CatalogIds(t);
    assert Component(next, v) == Component(t, v);
    forall a | a in Component(t, v)
      ensures t.items[a].kind == t.items[v].kind
    {
      ConnectedStaysInCatalog(t, v, a);
    }
    SameSafeSets(t, next, Component(t, v));
  }

  lemma SameCanonical(t: Identity, next: Identity, members: set<nat>)
    requires PathWrite(t, next) && members <= t.items.Keys && members != {}
    ensures Canonical(next, members) == Canonical(t, members)
  {
    forall x: nat
      ensures HasPlexRef(next, x) <==> HasPlexRef(t, x)
    {
      if HasPlexRef(t, x) {
        SameRowsSamePlex(t, next, x);
      }
      if HasPlexRef(next, x) {
        SameRowsSamePlex(next, t, x);
      }
    }
    var c := Canonical(next, members);
    forall v | v in members && v != c
      ensures Before(t, c, v)
    {
      assert Before(next, c, v);
    }
    CanonicalUnique(t, members, c, Canonical(t, members));
  }

  lemma KeptConflictsKeepCards(t: Identity, next: Identity)
    requires PathWrite(t, next) && ConflictsKept(t, next)
    ensures CardOf(next) == CardOf(t)
  {
    assert CatalogIds(next) == CatalogIds(t);
    forall v | v in CatalogIds(t)
      ensures CardOf(next)[v] == CardOf(t)[v]
    {
      SameGroup(t, next, v);
      CanonicalStandsForItself(t, v);
      SameCanonical(t, next, GroupOf(t, v));
    }
  }

  // ----- And nothing less does -----

  /** For a pair with an id of its own: together before and after, or apart before and after, exactly if its conflict is kept. */
  lemma PairKeepsCardsIff(t: Identity, next: Identity, a: nat, b: nat, provider: Provider, id: string)
    requires PathWrite(t, next) && PairApart(t, a, b, provider, id)
    ensures PairApart(next, a, b, provider, id)
    ensures (CardOf(next)[a] == CardOf(next)[b] <==> CardOf(t)[a] == CardOf(t)[b]) <==> ConflictKept(t, next, a, b)
  {
    assert CatalogIds(next) == CatalogIds(t);
    forall key
      ensures Bucket(next, key) == Bucket(t, key)
    {
      SameBuckets(t, next, key);
    }
    PairSharesCardIff(t, a, b, provider, id);
    PairSharesCardIff(next, a, b, provider, id);
    CompatibleIff(t, next, a, b);
    CompatibleIff(t, next, b, a);
    assert FilesApart(t, a, b) <==> FilesApart(t, b, a);
    assert FilesApart(next, a, b) <==> FilesApart(next, b, a);
  }

  function WithIds(t: Identity, ids: set<Identifier>): Identity {
    t.(identifiers := ids)
  }

  function OneId(a: nat, b: nat): set<Identifier> {
    {Identifier(a, Imdb, "i"), Identifier(b, Imdb, "i")}
  }

  /** Any two items of a kind are a pair under some identifiers. */
  lemma OneIdMakesPair(t: Identity, a: nat, b: nat)
    requires a in CatalogIds(t) && b in CatalogIds(t) && a != b && t.items[a].kind == t.items[b].kind
    ensures PairApart(WithIds(t, OneId(a, b)), a, b, Imdb, "i")
  {
    var u := WithIds(t, OneId(a, b));
    assert Identifier(a, Imdb, "i") in u.identifiers && Identifier(b, Imdb, "i") in u.identifiers;
    assert HasStableId(u, a) && HasStableId(u, b);
    forall key | a in Bucket(u, key) || b in Bucket(u, key)
      ensures Bucket(u, key) <= {a, b}
    {
      assert key.ById?;
    }
  }

  /** Whatever the identifiers are: exactly the path writes that keep the conflicts keep every card. */
  lemma PathsKeepCardsIff(t: Identity, next: Identity)
    requires PathWrite(t, next)
    ensures ConflictsKept(t, next) <==> forall ids :: CardOf(WithIds(next, ids)) == CardOf(WithIds(t, ids))
  {
    if ConflictsKept(t, next) {
      forall ids
        ensures CardOf(WithIds(next, ids)) == CardOf(WithIds(t, ids))
      {
        WithIdsSame(t, next, ids);
        KeptConflictsKeepCards(WithIds(t, ids), WithIds(next, ids));
      }
    } else {
      var a: nat, b: nat :| !ConflictKept(t, next, a, b);
      LostConflictMovesCard(t, next, a, b);
    }
  }

  /** Identifiers have no part in conflicts. */
  lemma WithIdsSame(t: Identity, next: Identity, ids: set<Identifier>)
    requires PathWrite(t, next)
    ensures PathWrite(WithIds(t, ids), WithIds(next, ids))
    ensures forall a: nat, b: nat :: ConflictKept(WithIds(t, ids), WithIds(next, ids), a, b) <==> ConflictKept(t, next, a, b)
    ensures ConflictsKept(WithIds(t, ids), WithIds(next, ids)) <==> ConflictsKept(t, next)
  {
    assert CatalogIds(WithIds(t, ids)) == CatalogIds(t);
    forall x: nat
      ensures LivePaths(WithIds(t, ids), x) == LivePaths(t, x) && LivePaths(WithIds(next, ids), x) == LivePaths(next, x)
      ensures LiveSources(WithIds(t, ids), x) == LiveSources(t, x) && AllSources(WithIds(t, ids), x) == AllSources(t, x)
    {
    }
    forall a: nat, b: nat
      ensures ConflictKept(WithIds(t, ids), WithIds(next, ids), a, b) <==> ConflictKept(t, next, a, b)
    {
      FilesApartIff(t, a, b);
      FilesApartIff(next, a, b);
      FilesApartIff(WithIds(t, ids), a, b);
      FilesApartIff(WithIds(next, ids), a, b);
    }
    if ConflictsKept(WithIds(t, ids), WithIds(next, ids)) {
      forall a: nat, b: nat
        ensures ConflictKept(t, next, a, b)
      {
        assert ConflictKept(WithIds(t, ids), WithIds(next, ids), a, b);
      }
    }
  }

  lemma LostConflictMovesCard(t: Identity, next: Identity, a: nat, b: nat)
    requires PathWrite(t, next) && !ConflictKept(t, next, a, b)
    ensures CardOf(WithIds(next, OneId(a, b))) != CardOf(WithIds(t, OneId(a, b)))
  {
    var ids := OneId(a, b);
    OneIdMakesPair(t, a, b);
    WithIdsSame(t, next, ids);
    assert !ConflictKept(WithIds(t, ids), WithIds(next, ids), a, b);
    PairKeepsCardsIff(WithIds(t, ids), WithIds(next, ids), a, b, Imdb, "i");
  }

  /** A fresh projection of these rows, whatever the identifiers, stays fresh under the new paths. */
  ghost predicate StaysFresh(t: Identity, next: Identity, ids: set<Identifier>, s: Snapshot) {
    s.tables == WithIds(t, ids) && Fresh(s) ==> Fresh(s.(tables := WithIds(next, ids)))
  }

  /** Exactly the path writes that keep the conflicts leave every fresh projection fresh. */
  lemma PathsKeepFreshIff(t: Identity, next: Identity)
    requires PathWrite(t, next)
    ensures ConflictsKept(t, next) <==> forall ids, s :: StaysFresh(t, next, ids, s)
  {
    PathsKeepCardsIff(t, next);
    if ConflictsKept(t, next) {
      forall ids, s
        ensures StaysFresh(t, next, ids, s)
      {
        WithIdsSame(t, next, ids);
        if s.tables == WithIds(t, ids) && Fresh(s) {
          SameCardsKeepFresh(s, WithIds(next, ids));
        }
      }
    } else {
      var ids :| CardOf(WithIds(next, ids)) != CardOf(WithIds(t, ids));
      WithIdsSame(t, next, ids);
      var empty, built := FirstBuild(WithIds(t, ids), Activity([], []));
      SameCardsKeepFresh(built, WithIds(next, ids));
      assert !StaysFresh(t, next, ids, built);
    }
  }

  // ----- Paths that come late -----

  function Copies(x: set<string>, y: set<string>): Identity {
    Identity(map[1 := Plain(Movie, "a", None), 2 := Plain(Movie, "a", None)],
             {Ref(1, 1, 1, true, x), Ref(2, 2, 2, true, y)},
             {Identifier(1, Imdb, "i"), Identifier(2, Imdb, "i")},
             map[1 := Jellyfin, 2 := Jellyfin])
  }

  lemma CopiesShareCardIff(x: set<string>, y: set<string>)
    ensures CardOf(Copies(x, y)).Keys == {1, 2}
    ensures CardOf(Copies(x, y))[1] == CardOf(Copies(x, y))[2] <==> x == {} || y == {} || x * y != {}
  {
    CopiesCompatibleIff(x, y);
    CopiesArePair(x, y);
    PairSharesCardIff(Copies(x, y), 1, 2, Imdb, "i");
  }

  lemma CopiesCompatibleIff(x: set<string>, y: set<string>)
    ensures CatalogIds(Copies(x, y)) == {1, 2}
    ensures Compatible(Copies(x, y), 1, 2) && Compatible(Copies(x, y), 2, 1) <==> x == {} || y == {} || x * y != {}
  {
    var t := Copies(x, y);
    assert LiveSources(t, 1) == {1} && LiveSources(t, 2) == {2} && AllSources(t, 1) == {1} && AllSources(t, 2) == {2};
    assert LivePaths(t, 1) == x && LivePaths(t, 2) == y;
  }

  lemma CopiesArePair(x: set<string>, y: set<string>)
    ensures PairApart(Copies(x, y), 1, 2, Imdb, "i")
  {
    assert CatalogIds(Copies(x, y)) == {1, 2};
    OnlyTwoOfKind(Copies(x, y), 1, 2, Imdb, "i");
  }

  /** Two copies of a film share a card; then their files turn out to differ, and no trigger tells the projection. */
  lemma LatePathsAreMissed() returns (empty: Snapshot, built: Snapshot, end: Snapshot)
    ensures Migrated(empty) && Step(empty, Ensure, built) && Fresh(built)
    ensures Step(built, WriteEvidence(Copies({"x"}, {"y"})), end) && Step(end, Ensure, end)
    ensures end.marker == Some(UpToDate) && !Fresh(end) && !ConflictsKept(built.tables, end.tables)
  {
    var (t, next) := (Copies({}, {}), Copies({"x"}, {"y"}));
    CopiesShareCardIff({}, {});
    CopiesShareCardIff({"x"}, {"y"});
    CopiesHaveSameRows();
    empty, built := FirstBuild(t, Activity([], []));
    end := built.(tables := next);
    SameCardsKeepFresh(built, next);
    assert CardOf(t)[1] in built.entries;
    if ConflictsKept(t, next) {
      KeptConflictsKeepCards(t, next);
      assert false;
    }
  }

  lemma CopiesHaveSameRows()
    ensures SameRows(Copies({}, {}), Copies({"x"}, {"y"})) && !KeepsEvidence(Copies({}, {}), Copies({"x"}, {"y"}))
  {
    var (t, next) := (Copies({}, {}), Copies({"x"}, {"y"}));
    var rows := {Ref(1, 1, 1, true, {}), Ref(2, 2, 2, true, {})};
    assert WithoutPaths(t.refs) == rows;
    assert Ref(1, 1, 1, true, {"x"}) in next.refs && Ref(2, 2, 2, true, {"y"}) in next.refs;
    assert WithoutPaths(next.refs) == rows;
    assert Ref(1, 1, 1, true, {}) in t.refs;
  }
}
