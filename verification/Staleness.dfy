/** Where a projection that calls itself clean is not a rebuild: shows a refresh never reaches. */
module Staleness {
  import opened Catalog
  import opened Playback
  import opened Hierarchy
  import UnionFind
  import opened Grouping
  import opened Projection
  import opened Refresh
  import opened Store

  // ----- Cards of small catalogs -----

  ghost predicate SameId(t: Identity, a: nat, b: nat, provider: Provider, id: string) {
    Stable(provider) && Identifier(a, provider, id) in t.identifiers && Identifier(b, provider, id) in t.identifiers
  }

  /** Two items of a kind with a stable id in common, and no bucket in common with a third. */
  ghost predicate PairApart(t: Identity, a: nat, b: nat, provider: Provider, id: string) {
    && a != b && a in CatalogIds(t) && b in CatalogIds(t) && t.items[a].kind == t.items[b].kind
    && SameId(t, a, b, provider, id)
    && forall key :: a in Bucket(t, key) || b in Bucket(t, key) ==> Bucket(t, key) <= {a, b}
  }

  lemma PairComponent(t: Identity, a: nat, b: nat, provider: Provider, id: string)
    requires PairApart(t, a, b, provider, id)
    ensures a in Component(t, a) && Component(t, a) <= {a, b}
    ensures Compatible(t, a, b) && Compatible(t, b, a) ==> Component(t, a) == {a, b}
  {
    UnionFind.ConnectedReflexive(Links(t), a);
    var marks := map x | x in CatalogIds(t) :: x == a || x == b;
    forall x | x in Component(t, a)
      ensures x in {a, b}
    {
      var path :| UnionFind.IsPath(Links(t), path, a, x);
      UnionFind.ConnectedKeepsLabel(Links(t), marks, path, a, x);
    }
    if Compatible(t, a, b) && Compatible(t, b, a) {
      var key := ById(t.items[a].kind, provider, id);
      assert a in Bucket(t, key) && Bucket(t, key) <= {a, b};
      assert Linked(t, a, b);
      UnionFind.ConnectedByEdge(Links(t), a, b);
    }
  }

  lemma BucketIsOneKind(t: Identity, key: BucketKey, v: nat, w: nat)
    requires v in Bucket(t, key) && w in Bucket(t, key)
    ensures t.items[v].kind == t.items[w].kind
  {
  }

  /** The only two of their kind are such a pair when they share an id. */
  lemma OnlyTwoOfKind(t: Identity, a: nat, b: nat, provider: Provider, id: string)
    requires a != b && a in CatalogIds(t) && b in CatalogIds(t) && t.items[a].kind == t.items[b].kind && SameId(t, a, b, provider, id)
    requires forall x :: x in CatalogIds(t) && t.items[x].kind == t.items[a].kind ==> x == a || x == b
    ensures PairApart(t, a, b, provider, id)
  {
    forall key | a in Bucket(t, key) || b in Bucket(t, key)
      ensures Bucket(t, key) <= {a, b}
    {
      forall x | x in Bucket(t, key)
        ensures x in {a, b}
      {
        BucketIsOneKind(t, key, x, if a in Bucket(t, key) then a else b);
      }
    }
  }

  /** Such a pair shares a card if it is compatible, and has two otherwise. */
  lemma PairSharesCardIff(t: Identity, a: nat, b: nat, provider: Provider, id: string)
    requires PairApart(t, a, b, provider, id)
    ensures CardOf(t)[a] == CardOf(t)[b] <==> Compatible(t, a, b) && Compatible(t, b, a)
  {
    PairComponent(t, a, b, provider, id);
    PairComponent(t, b, a, provider, id);
    if Compatible(t, a, b) && Compatible(t, b, a) {
      assert GroupOf(t, a) == GroupOf(t, b) == {a, b};
    } else {
      assert GroupOf(t, a) == {a} && GroupOf(t, b) == {b};
    }
  }

  lemma LonelyItem(t: Identity, v: nat)
    requires v in CatalogIds(t)
    requires forall x :: x in CatalogIds(t) && x != v ==> !Linked(t, v, x) && !Linked(t, x, v)
    ensures CardOf(t)[v] == v
  {
    var marks := map x | x in CatalogIds(t) :: x == v;
    UnionFind.ConnectedReflexive(Links(t), v);
    forall x | x in Component(t, v)
      ensures x == v
    {
      var path :| UnionFind.IsPath(Links(t), path, v, x);
      UnionFind.ConnectedKeepsLabel(Links(t), marks, path, v, x);
    }
    assert Component(t, v) == {v};
  }

  // ----- A show that no refresh reaches -----

  /** Two shows that stay apart, each with one season and one episode; the episodes have the same id. */
  const TWINS := Identity(
    map[1 := Plain(Show, "a", None), 2 := Plain(Show, "b", None), 3 := Plain(Season, "", Some(1)),
        4 := Plain(Season, "", Some(2)), 5 := Plain(Episode, "p", Some(3)), 6 := Plain(Episode, "p", Some(4))],
    {Ref(1, 5, 1, true, {}), Ref(2, 6, 2, true, {})},
    {Identifier(5, Imdb, "i"), Identifier(6, Imdb, "i")},
    map[1 := Jellyfin, 2 := Jellyfin])

  function Depth(x: nat): nat {
    if x <= 2 then 0 else if x <= 4 then 1 else 2
  }

  lemma TwinsAreBounded()
    ensures WellFormed(TWINS) && Shallow(TWINS.items, map x | x in TWINS.items :: Depth(x)) && Bounded(TWINS)
  {
    var level := map x | x in TWINS.items :: Depth(x);
    forall x | x in TWINS.items
      ensures Below(TWINS.items, level, x)
    {
    }
    assert Shallow(TWINS.items, level);
  }

  lemma ShowsStayApart(v: nat, x: nat)
    requires v in {1, 2} && x in CatalogIds(TWINS) && x != v
    ensures !Linked(TWINS, v, x) && !Linked(TWINS, x, v)
  {
    assert !HasStableId(TWINS, v);
    forall key
      ensures v !in Bucket(TWINS, key) || x !in Bucket(TWINS, key)
    {
      assert v in Bucket(TWINS, key) ==> key == TitleKey(TWINS.items[v]);
      assert x in Bucket(TWINS, key) ==> HasStableId(TWINS, x) || key == TitleKey(TWINS.items[x]);
    }
  }

  lemma TwinIds()
    ensures CatalogIds(TWINS) == {1, 2, 5, 6}
  {
  }

  lemma ShowCardsAreTheirOwn(v: nat)
    requires v in {1, 2}
    ensures v in CardOf(TWINS) && CardOf(TWINS)[v] == v
  {
    TwinIds();
    forall x | x in CatalogIds(TWINS) && x != v
      ensures !Linked(TWINS, v, x) && !Linked(TWINS, x, v)
    {
      ShowsStayApart(v, x);
    }
    LonelyItem(TWINS, v);
  }

  lemma EpisodeCardIsShared()
    ensures 5 in CardOf(TWINS) && 6 in CardOf(TWINS) && CardOf(TWINS)[5] == CardOf(TWINS)[6]
    ensures CardOf(TWINS)[5] !in {1, 2}
  {
    TwinIds();
    EpisodesGoTogether();
    EpisodesArePair();
    PairSharesCardIff(TWINS, 5, 6, Imdb, "i");
    CanonicalStandsForItself(TWINS, 5);
  }

  lemma EpisodesArePair()
    ensures PairApart(TWINS, 5, 6, Imdb, "i")
  {
    TwinIds();
    OnlyTwoOfKind(TWINS, 5, 6, Imdb, "i");
  }

  lemma EpisodesGoTogether()
    ensures Compatible(TWINS, 5, 6) && Compatible(TWINS, 6, 5) && LiveSources(TWINS, 5) != {}
  {
    assert LiveSources(TWINS, 5) == {1} && LiveSources(TWINS, 6) == {2};
    assert AllSources(TWINS, 5) == {1} && AllSources(TWINS, 6) == {2};
    assert LivePaths(TWINS, 5) == {};
  }

  lemma PathOfSix()
    ensures Line(TWINS.items, TWINS.items.Keys, 6, MAX_DEPTH) == {6, 4, 2}
  {
    var all := TWINS.items.Keys;
    assert Line(TWINS.items, all, 2, 2) == {2};
    assert Line(TWINS.items, all, 4, 3) == {4, 2};
  }

  lemma ShowOfFive()
    ensures NearestShow(TWINS.items, TWINS.items.Keys, Some(5), {}) == Some(1)
  {
    var all := TWINS.items.Keys;
    TwinsAreBounded();
    ChainIsFullLine(TWINS.items, all, map x | x in TWINS.items :: Depth(x), 5);
    assert Nearest(TWINS.items, all, 1, 2) == Some(1);
    assert Nearest(TWINS.items, all, 3, 3) == Some(1);
  }

  lemma FirstShowIsUntouched()
    ensures 1 !in Impacted(TWINS, CardOf(TWINS), {6})
  {
    PathOfSix();
    ShowCardsAreTheirOwn(2);
    EpisodeCardIsShared();
    TwinIds();
  }

  /** Playing the second episode marks its own show only; the first show has the same episode card. */
  lemma TwinIsStray()
    ensures Stray(TWINS, CardOf(TWINS), {6}, 1, CardOf(TWINS)[6]) && 6 in Direct(CardOf(TWINS), TWINS.items.Keys, CardOf(TWINS)[6])
  {
    var cards := CardOf(TWINS);
    FirstShowIsUntouched();
    ShowCardsAreTheirOwn(1);
    EpisodeCardIsShared();
    EpisodesGoTogether();
    ShowOfFive();
    assert 5 in TWINS.items.Keys && AvailableEpisode(TWINS, 5);
    assert cards[5] in ChildCards(TWINS, cards, TWINS.items.Keys, 1);
    assert cards[1] in cards.Values;
    assert 6 in Direct(cards, TWINS.items.Keys, cards[6]);
  }

  /**
   Wherever there is a stray child: rebuild, one play, refresh. The projection is then clean and
   nothing is dirty, but the show still counts the child as unwatched.
   */
  lemma StrayRun(t: Identity, e: nat, c: nat, d: nat)
      returns (empty: Snapshot, built: Snapshot, played: Snapshot, end: Snapshot)
    requires Stray(t, CardOf(t), {d}, e, c) && d in Direct(CardOf(t), t.items.Keys, c)
    ensures Migrated(empty) && empty.tables == built.tables == played.tables == end.tables == t
    ensures Step(empty, Ensure, built) && Fresh(built)
    ensures Step(built, WritePlayback(Activity([WatchEvent(d, 0, true)], []), {d}), played) && Step(played, Ensure, end)
    ensures end.marker == Some(UpToDate) && end.dirty == {} && !Fresh(end)
  {
    empty, built := FirstBuild(t, Activity([], []));
    played, end := StrayPlay(built, e, c, d);
  }

  lemma FirstBuild(t: Identity, a: Activity) returns (empty: Snapshot, built: Snapshot)
    ensures Migrated(empty) && empty.tables == built.tables == t && built.activity == a
    ensures Step(empty, Ensure, built) && Fresh(built) && built.dirty == {} && built.marker == Some(UpToDate)
  {
    ComputedCardsAreCards(t);
    var entries := RebuildExists(t, a, CardOf(t));
    empty := Snapshot(t, a, map[], map[], {}, Some(IdentityChanged));
    built := Snapshot(t, a, entries, CardOf(t), {}, Some(UpToDate));
  }

  lemma StrayPlay(built: Snapshot, e: nat, c: nat, d: nat) returns (played: Snapshot, end: Snapshot)
    requires Fresh(built) && built.activity == Activity([], []) && built.dirty == {} && built.marker == Some(UpToDate)
    requires Stray(built.tables, built.members, {d}, e, c) && d in Direct(built.members, built.tables.items.Keys, c)
    ensures Step(built, WritePlayback(Activity([WatchEvent(d, 0, true)], []), {d}), played) && Step(played, Ensure, end)
    ensures end.marker == Some(UpToDate) && end.dirty == {} && end.tables == played.tables == built.tables && !Fresh(end)
  {
    played := PlayOnce(built, e, d);
    end := RefreshNow(played);
    assert Right(built.tables, built.activity, built.members, e, built.entries[e]);
    assert Renewed(built.tables, played.activity, built.members, built.entries, {d}, e, end.entries[e]);
    StrayEntryIsStale(built.tables, built.members, e, c, d, built.entries[e]);
  }

  lemma PlayOnce(built: Snapshot, e: nat, d: nat) returns (played: Snapshot)
    requires e in built.entries && built.activity == Activity([], []) && built.dirty == {} && built.marker == Some(UpToDate)
    ensures Step(built, WritePlayback(Activity([WatchEvent(d, 0, true)], []), {d}), played) && RefreshDue(played)
    ensures played == built.(activity := Activity([WatchEvent(d, 0, true)], []), dirty := {d}, marker := Some(PlaybackChanged))
  {
    OnePlayDiffersOnlyThere(d, {d});
    played := PlaybackWritten(built, Activity([WatchEvent(d, 0, true)], []), {d});
    assert {} + {d} == {d};
    assert built.entries[e] == built.entries[e];
  }

  lemma RefreshNow(s: Snapshot) returns (end: Snapshot)
    requires RefreshDue(s)
    ensures Step(s, Ensure, end) && end == s.(entries := end.entries, dirty := {}, marker := Some(UpToDate))
    ensures IsRefresh(s.tables, s.activity, s.members, s.entries, s.dirty, end.entries)
  {
    var renewed := RefreshExists(s.tables, s.activity, s.members, s.entries, s.dirty);
    end := s.(entries := renewed, dirty := {}, marker := Some(UpToDate));
  }

  lemma StrayEntryIsStale(t: Identity, cards: Cards, e: nat, c: nat, d: nat, entry: Entry)
    requires c in ChildCards(t, cards, t.items.Keys, e) && d in Direct(cards, t.items.Keys, c)
    requires Right(t, Activity([], []), cards, e, entry)
    ensures !Right(t, Activity([WatchEvent(d, 0, true)], []), cards, e, entry)
  {
    StrayPlayCounts(t, cards, e, c, d);
    UntouchedEntryIsStale(t, Activity([], []), Activity([WatchEvent(d, 0, true)], []), cards, e, entry);
  }

  /** The grouping makes stray children: a well-formed, shallow catalog on which a clean projection is wrong. */
  lemma StrayShowGoesStale()
      returns (empty: Snapshot, built: Snapshot, played: Snapshot, end: Snapshot)
    ensures WellFormed(TWINS) && Bounded(TWINS) && !Aligned(TWINS, CardOf(TWINS))
    ensures !RefreshAlwaysRight(TWINS, CardOf(TWINS), {6})
    ensures Migrated(empty) && empty.tables == built.tables == played.tables == end.tables == TWINS
    ensures Step(empty, Ensure, built) && Fresh(built)
    ensures Step(built, WritePlayback(Activity([WatchEvent(6, 0, true)], []), {6}), played) && Step(played, Ensure, end)
    ensures end.marker == Some(UpToDate) && end.dirty == {} && !Fresh(end)
  {
    TwinsAreBounded();
    TwinIsStray();
    NotAligned();
    ComputedCardsAreCards(TWINS);
    StrayRefreshesWrong(TWINS, CardOf(TWINS), {6}, 1, CardOf(TWINS)[6]);
    empty, built, played, end := StrayRun(TWINS, 1, CardOf(TWINS)[6], 6);
  }

  lemma NotAligned()
    ensures !Aligned(TWINS, CardOf(TWINS))
  {
    if Aligned(TWINS, CardOf(TWINS)) {
      TwinsAreBounded();
      TwinIsStray();
      ComputedCardsAreCards(TWINS);
      AlignedHasNoStrayChildren(TWINS, map x | x in TWINS.items :: Depth(x), CardOf(TWINS), {6});
      assert false;
    }
  }
}
