/**
 Incremental view maintenance: the refresh recomputes only the cards above changed items, and
 the theorem says when that is the same as rebuilding every card.
 */
module Refresh {
  import opened Catalog
  import opened Playback
  import opened Hierarchy
  import opened Projection

  datatype Entry = Entry(kind: Kind, stats: Stats, available: bool, onPlex: bool, onJellyfin: bool)

  type Entries = map<nat, Entry>

  // ----- The full rebuild -----

  ghost predicate Offered(t: Identity, cards: Cards, e: nat, r: Ref) {
    r in t.refs && r.available && r.item in cards && cards[r.item] == e
  }

  ghost predicate Available(t: Identity, cards: Cards, e: nat) {
    exists r :: Offered(t, cards, e, r)
  }

  ghost predicate AvailableOn(t: Identity, cards: Cards, e: nat, c: Connector) {
    exists r :: Offered(t, cards, e, r) && r.source in t.sources && t.sources[r.source] == c
  }

  /** Cards are existing items, and a card shows items of its own kind only. */
  ghost predicate CardsOf(t: Identity, cards: Cards) {
    forall x {:trigger cards[x]} :: x in cards ==>
      x in t.items && cards[x] in t.items && t.items[cards[x]].kind == t.items[x].kind
  }

  ghost function FullStats(t: Identity, a: Activity, cards: Cards, e: nat): Stats {
    StatsOf(t, a, cards, t.items.Keys, cards.Values, map[], e)
  }

  ghost function RebuiltEntry(t: Identity, a: Activity, cards: Cards, e: nat): Entry
    requires e in t.items
  {
    Entry(t.items[e].kind, FullStats(t, a, cards, e), Available(t, cards, e),
          AvailableOn(t, cards, e, Plex), AvailableOn(t, cards, e, Jellyfin))
  }

  ghost predicate Right(t: Identity, a: Activity, cards: Cards, e: nat, entry: Entry) {
    e in t.items && entry == RebuiltEntry(t, a, cards, e)
  }

  /** `entries` is what a rebuild of these tables stores: one entry per card, every field right. */
  ghost predicate IsRebuild(t: Identity, a: Activity, cards: Cards, entries: Entries) {
    && entries.Keys == cards.Values
    && forall e {:trigger entries[e]} :: e in entries ==> Right(t, a, cards, e, entries[e])
  }

  ghost predicate SameButCompletedChildren(x: Entry, y: Entry) {
    x.(stats := x.stats.(completedChildren := 0)) == y.(stats := y.stats.(completedChildren := 0))
  }

  /** Every field is right, except possibly the completed children of a show. */
  ghost predicate NearlyRight(t: Identity, a: Activity, cards: Cards, e: nat, entry: Entry) {
    && e in t.items && SameButCompletedChildren(entry, RebuiltEntry(t, a, cards, e))
    && (t.items[e].kind != Show ==> Right(t, a, cards, e, entry))
  }

  /** One entry per card, every field right, except possibly the completed children of the shows in `stale`. */
  ghost predicate IsRebuildBut(t: Identity, a: Activity, cards: Cards, entries: Entries, stale: set<nat>) {
    && entries.Keys == cards.Values
    && forall e {:trigger entries[e]} :: e in entries ==>
         NearlyRight(t, a, cards, e, entries[e]) && (e !in stale ==> Right(t, a, cards, e, entries[e]))
  }

  lemma NothingStaleIsRebuild(t: Identity, a: Activity, cards: Cards, entries: Entries)
    ensures IsRebuildBut(t, a, cards, entries, {}) <==> IsRebuild(t, a, cards, entries)
  {
    forall e | e in entries
      ensures Right(t, a, cards, e, entries[e]) ==> NearlyRight(t, a, cards, e, entries[e])
    {
      RightIsNearlyRight(t, a, cards, e, entries[e]);
    }
  }

  lemma RightIsNearlyRight(t: Identity, a: Activity, cards: Cards, e: nat, entry: Entry)
    ensures Right(t, a, cards, e, entry) ==> NearlyRight(t, a, cards, e, entry)
  {
  }

  // ----- The refresh -----

  /** Cards of a changed item or of one of its ancestors. */
  function Impacted(t: Identity, cards: Cards, dirty: set<nat>): set<nat> {
    set d, x | d in dirty && d in t.items && x in Line(t.items, t.items.Keys, d, MAX_DEPTH) && x in cards :: cards[x]
  }

  function Shown(t: Identity, cards: Cards, impacted: set<nat>): set<nat> {
    set x | x in t.items && x in cards && cards[x] in impacted
  }

  /** The rows the refresh loads: items of impacted cards and everything within four steps below. */
  function Tree(t: Identity, cards: Cards, impacted: set<nat>): set<nat> {
    set x | x in t.items && Line(t.items, t.items.Keys, x, MAX_DEPTH) * Shown(t, cards, impacted) != {}
  }

  function StoredCounts(entries: Entries): map<nat, nat> {
    map e | e in entries :: entries[e].stats.completion
  }

  /** Child counts are written back for shows only. */
  function Updated(entry: Entry, s: Stats): Entry {
    entry.(stats := if entry.kind == Show then s
                    else s.(children := entry.stats.children, completedChildren := entry.stats.completedChildren))
  }

  ghost function TreeStats(t: Identity, a: Activity, cards: Cards, entries: Entries, dirty: set<nat>, e: nat): Stats {
    var impacted := Impacted(t, cards, dirty);
    StatsOf(t, a, cards, Tree(t, cards, impacted), impacted, StoredCounts(entries), e)
  }

  ghost predicate Renewed(t: Identity, a: Activity, cards: Cards, entries: Entries, dirty: set<nat>, e: nat, entry: Entry)
    requires e in entries
  {
    entry == if e in Impacted(t, cards, dirty) then Updated(entries[e], TreeStats(t, a, cards, entries, dirty, e))
             else entries[e]
  }

  /** `renewed` is what the refresh stores. */
  ghost predicate IsRefresh(t: Identity, a: Activity, cards: Cards, entries: Entries, dirty: set<nat>, renewed: Entries) {
    && renewed.Keys == entries.Keys
    && forall e {:trigger renewed[e]} :: e in renewed ==> Renewed(t, a, cards, entries, dirty, e, renewed[e])
  }

  // ----- When the refresh is the rebuild -----

  ghost predicate Unchanged(before: Activity, after: Activity, x: nat) {
    ActivityTally(before, {x}) == ActivityTally(after, {x})
  }

  /** Only the playback facts of dirty items differ. */
  ghost predicate DiffersAt(before: Activity, after: Activity, dirty: set<nat>) {
    forall x {:trigger Unchanged(before, after, x)} :: x !in dirty ==> Unchanged(before, after, x)
  }

  /** Show card `e` is left alone although its child card `c` has a changed member. */
  ghost predicate Stray(t: Identity, cards: Cards, dirty: set<nat>, e: nat, c: nat) {
    && e in cards.Values && e !in Impacted(t, cards, dirty)
    && c in ChildCards(t, cards, t.items.Keys, e)
    && !(Direct(cards, t.items.Keys, c) !! dirty)
  }

  ghost predicate HasStray(t: Identity, cards: Cards, dirty: set<nat>, e: nat) {
    exists c: nat :: Stray(t, cards, dirty, e, c)
  }

  ghost function StrayCards(t: Identity, cards: Cards, dirty: set<nat>): set<nat> {
    set e | e in cards.Values && HasStray(t, cards, dirty, e)
  }

  /** The shows whose completed children may be wrong after the refresh: not recomputed and wrong already, or missed now. */
  ghost function StaleAfter(t: Identity, cards: Cards, dirty: set<nat>, stale: set<nat>): set<nat> {
    (stale - Impacted(t, cards, dirty)) + StrayCards(t, cards, dirty)
  }

  /** No untouched show has a child card with a changed member. */
  ghost predicate NoStrayChildren(t: Identity, cards: Cards, dirty: set<nat>) {
    forall e: nat, c: nat :: !Stray(t, cards, dirty, e, c)
  }

  /** Episodes that share a card have nearest shows that share a card. */
  ghost predicate Aligned(t: Identity, cards: Cards) {
    forall x, y {:trigger cards[x], cards[y]} ::
      x in cards && y in cards && cards[x] == cards[y] && x in t.items && t.items[x].kind == Episode ==>
        ShowCard(t, cards, t.items.Keys, x) == ShowCard(t, cards, t.items.Keys, y)
  }

  lemma UntouchedFacts(before: Activity, after: Activity, dirty: set<nat>, items: set<nat>)
    requires DiffersAt(before, after, dirty) && items !! dirty
    ensures ActivityTally(before, items) == ActivityTally(after, items)
  {
    forall x | x in items
      ensures ActivityTally(before, {x}) == ActivityTally(after, {x})
    {
      assert Unchanged(before, after, x);
    }
    TallyIsItemwise(before, after, items);
  }

  lemma ChainIsFullLine(items: Items, scope: set<nat>, level: map<nat, nat>, x: nat)
    requires Shallow(items, level) && x in items
    ensures Chain(items, scope, Some(x), {}) == Line(items, scope, x, MAX_DEPTH)
    ensures NearestShow(items, scope, Some(x), {}) == Nearest(items, scope, x, MAX_DEPTH)
  {
    assert Below(items, level, x) && Deeper(level, {}, x);
    ChainIsLine(items, scope, level, x, {}, MAX_DEPTH);
    NearestShowIsNearest(items, scope, level, x, {}, MAX_DEPTH);
  }

  lemma ReachedCardIsImpacted(t: Identity, cards: Cards, dirty: set<nat>, d: nat, m: nat)
    requires d in dirty && d in t.items && m in Line(t.items, t.items.Keys, d, MAX_DEPTH) && m in cards
    ensures cards[m] in Impacted(t, cards, dirty)
  {
  }

  lemma SelfOnLine(items: Items, scope: set<nat>, x: nat, depth: nat)
    ensures x in Line(items, scope, x, depth)
  {
  }

  /** Neither the members of an untouched card nor anything below them changed. */
  lemma UntouchedCard(t: Identity, cards: Cards, level: map<nat, nat>, dirty: set<nat>, e: nat)
    requires Shallow(t.items, level) && e !in Impacted(t, cards, dirty)
    ensures Direct(cards, t.items.Keys, e) !! dirty
    ensures Reaching(t.items, cards, t.items.Keys, e) !! dirty
  {
    forall d | d in dirty
      ensures d !in Direct(cards, t.items.Keys, e) && d !in Reaching(t.items, cards, t.items.Keys, e)
    {
      if d in t.items {
        SelfOnLine(t.items, t.items.Keys, d, MAX_DEPTH);
        ChainIsFullLine(t.items, t.items.Keys, level, d);
        if m :| m in Chain(t.items, t.items.Keys, Some(d), {}) * Direct(cards, t.items.Keys, e) {
          ReachedCardIsImpacted(t, cards, dirty, d, m);
        }
      }
    }
  }

  // ----- Impacted cards: the tree holds every row that matters -----

  lemma ShownInTree(t: Identity, cards: Cards, impacted: set<nat>)
    ensures Shown(t, cards, impacted) <= Tree(t, cards, impacted)
  {
    forall x | x in Shown(t, cards, impacted)
      ensures x in Tree(t, cards, impacted)
    {
      SelfOnLine(t.items, t.items.Keys, x, MAX_DEPTH);
      assert x in Line(t.items, t.items.Keys, x, MAX_DEPTH) * Shown(t, cards, impacted);
    }
  }

  lemma TreeHoldsMembers(t: Identity, cards: Cards, impacted: set<nat>, e: nat)
    requires e in impacted
    ensures Direct(cards, Tree(t, cards, impacted), e) == Direct(cards, t.items.Keys, e) <= Shown(t, cards, impacted)
  {
    ShownInTree(t, cards, impacted);
  }

  lemma TreeHoldsPlayback(t: Identity, cards: Cards, level: map<nat, nat>, impacted: set<nat>, e: nat)
    requires Shallow(t.items, level) && e in impacted
    ensures Reaching(t.items, cards, Tree(t, cards, impacted), e) == Reaching(t.items, cards, t.items.Keys, e)
  {
    var tree := Tree(t, cards, impacted);
    var shown := Shown(t, cards, impacted);
    TreeHoldsMembers(t, cards, impacted, e);
    var direct := Direct(cards, t.items.Keys, e);
    forall x | x in t.items
      ensures Chain(t.items, tree, Some(x), {}) * direct == Chain(t.items, t.items.Keys, Some(x), {}) * direct
      ensures Chain(t.items, t.items.Keys, Some(x), {}) * direct != {} ==> x in tree
    {
      ChainIsFullLine(t.items, tree, level, x);
      ChainIsFullLine(t.items, t.items.Keys, level, x);
      assert Below(t.items, level, x);
      TargetsStayReachable(t.items, tree, shown, level, x, MAX_DEPTH);
      var (a, b) := (Line(t.items, tree, x, MAX_DEPTH), Line(t.items, t.items.Keys, x, MAX_DEPTH));
      assert a * direct == (a * shown) * direct && b * direct == (b * shown) * direct;
    }
  }

  lemma TreeHoldsShow(t: Identity, cards: Cards, level: map<nat, nat>, impacted: set<nat>, x: nat, e: nat)
    requires Shallow(t.items, level) && e in impacted && x in t.items
    ensures ShowCard(t, cards, t.items.Keys, x) == Some(e) ==> x in Tree(t, cards, impacted)
    ensures ShowCard(t, cards, t.items.Keys, x) == Some(e) <==> ShowCard(t, cards, Tree(t, cards, impacted), x) == Some(e)
  {
    var tree := Tree(t, cards, impacted);
    ChainIsFullLine(t.items, tree, level, x);
    ChainIsFullLine(t.items, t.items.Keys, level, x);
    if ShowCard(t, cards, t.items.Keys, x) == Some(e) {
      NearestIsItem(t.items, t.items.Keys, x, MAX_DEPTH);
      TargetShowStaysNearest(t.items, tree, Shown(t, cards, impacted), x, MAX_DEPTH);
    }
    if ShowCard(t, cards, tree, x) == Some(e) {
      NearestInTreeIsNearest(t.items, tree, x, MAX_DEPTH);
    }
  }

  lemma {:induction false} NearestIsItem(items: Items, scope: set<nat>, x: nat, depth: nat)
    ensures var s := Nearest(items, scope, x, depth);
      s.Some? ==> s.value in items && s.value in scope && items[s.value].kind == Show
    decreases depth
  {
    if !(x in items && x in scope && items[x].kind == Show) && depth > 0 && Up(items, scope, x).Some? {
      NearestIsItem(items, scope, Up(items, scope, x).value, depth - 1);
    }
  }

  lemma TreeHoldsChildren(t: Identity, cards: Cards, level: map<nat, nat>, impacted: set<nat>, e: nat)
    requires Shallow(t.items, level) && e in impacted
    ensures ChildCards(t, cards, Tree(t, cards, impacted), e) == ChildCards(t, cards, t.items.Keys, e)
  {
    forall x | x in t.items
      ensures ShowCard(t, cards, t.items.Keys, x) == Some(e) ==> x in Tree(t, cards, impacted)
      ensures ShowCard(t, cards, t.items.Keys, x) == Some(e) <==> ShowCard(t, cards, Tree(t, cards, impacted), x) == Some(e)
    {
      TreeHoldsShow(t, cards, level, impacted, x, e);
    }
  }

  // ----- The theorem -----

  lemma StoredCount(t: Identity, a: Activity, cards: Cards, entry: Entry, c: nat)
    requires NearlyRight(t, a, cards, c, entry)
    ensures entry.stats.completion == Completion(a, cards, t.items.Keys, c)
  {
  }

  lemma ChildIsCard(t: Identity, cards: Cards, scope: set<nat>, e: nat, c: nat)
    requires c in ChildCards(t, cards, scope, e)
    ensures c in cards.Values
  {
  }

  /** The refresh judges every child card as the rebuild does. */
  lemma ChildrenJudgedAlike(t: Identity, level: map<nat, nat>, before: Activity, after: Activity, cards: Cards,
                            entries: Entries, stale: set<nat>, dirty: set<nat>, children: set<nat>)
    requires Shallow(t.items, level) && IsRebuildBut(t, before, cards, entries, stale) && DiffersAt(before, after, dirty)
    requires children <= cards.Values
    ensures
      var impacted := Impacted(t, cards, dirty);
      CompletedCards(after, cards, Tree(t, cards, impacted), impacted, StoredCounts(entries), children)
        == CompletedCards(after, cards, t.items.Keys, cards.Values, map[], children)
  {
    var impacted := Impacted(t, cards, dirty);
    forall c | c in children
      ensures Completed(after, cards, Tree(t, cards, impacted), impacted, StoredCounts(entries), c)
        <==> Completed(after, cards, t.items.Keys, cards.Values, map[], c)
    {
      if c in impacted {
        TreeHoldsMembers(t, cards, impacted, c);
      } else {
        StoredCount(t, before, cards, entries[c], c);
        UntouchedCard(t, cards, level, dirty, c);
        UntouchedFacts(before, after, dirty, Direct(cards, t.items.Keys, c));
      }
    }
  }

  lemma OnlyShowsHaveChildren(t: Identity, cards: Cards, e: nat)
    requires CardsOf(t, cards) && e in t.items && t.items[e].kind != Show
    ensures ChildCards(t, cards, t.items.Keys, e) == {}
  {
    forall x | x in t.items && ShowCard(t, cards, t.items.Keys, x) == Some(e)
      ensures false
    {
      NearestIsShow(t.items, t.items.Keys, Some(x), {});
    }
  }

  lemma {:induction false} NearestIsShow(items: Items, scope: set<nat>, current: Option<nat>, visited: set<nat>)
    ensures var s := NearestShow(items, scope, current, visited);
      s.Some? ==> s.value in items && items[s.value].kind == Show
    decreases scope - visited, current.Some?
  {
    if current.Some? && current.value !in visited {
      var x := current.value;
      assert x !in scope ==> scope - (visited + {x}) == scope - visited;
      if !(x in items && x in scope && items[x].kind == Show) {
        NearestIsShow(items, scope, Up(items, scope, x), visited + {x});
      }
    }
  }

  lemma ImpactedCardIsRebuilt(t: Identity, level: map<nat, nat>, before: Activity, after: Activity, cards: Cards,
                              entries: Entries, stale: set<nat>, dirty: set<nat>, e: nat, entry: Entry)
    requires Shallow(t.items, level) && CardsOf(t, cards) && DiffersAt(before, after, dirty)
    requires IsRebuildBut(t, before, cards, entries, stale) && e in entries && e in Impacted(t, cards, dirty)
    requires Renewed(t, after, cards, entries, dirty, e, entry)
    ensures Right(t, after, cards, e, entry)
  {
    var impacted := Impacted(t, cards, dirty);
    assert NearlyRight(t, before, cards, e, entries[e]);
    TreeHoldsMembers(t, cards, impacted, e);
    TreeHoldsPlayback(t, cards, level, impacted, e);
    TreeHoldsChildren(t, cards, level, impacted, e);
    var children := ChildCards(t, cards, t.items.Keys, e);
    forall c | c in children
      ensures c in cards.Values
    {
      ChildIsCard(t, cards, t.items.Keys, e, c);
    }
    ChildrenJudgedAlike(t, level, before, after, cards, entries, stale, dirty, children);
    assert TreeStats(t, after, cards, entries, dirty, e) == FullStats(t, after, cards, e);
    if t.items[e].kind != Show {
      OnlyShowsHaveChildren(t, cards, e);
    }
  }

  /** The children of an untouched card have not changed, unless one is stray. */
  lemma UntouchedChildren(t: Identity, before: Activity, after: Activity, cards: Cards, dirty: set<nat>, e: nat)
    requires DiffersAt(before, after, dirty) && !HasStray(t, cards, dirty, e)
    requires e in cards.Values && e !in Impacted(t, cards, dirty)
    ensures FullStats(t, before, cards, e).completedChildren == FullStats(t, after, cards, e).completedChildren
  {
    var children := ChildCards(t, cards, t.items.Keys, e);
    forall c | c in children
      ensures Completed(before, cards, t.items.Keys, cards.Values, map[], c)
        <==> Completed(after, cards, t.items.Keys, cards.Values, map[], c)
    {
      assert !Stray(t, cards, dirty, e, c);
      UntouchedFacts(before, after, dirty, Direct(cards, t.items.Keys, c));
    }
    assert CompletedCards(before, cards, t.items.Keys, cards.Values, map[], children)
        == CompletedCards(after, cards, t.items.Keys, cards.Values, map[], children);
  }

  /** A card that is not impacted keeps every field right that was, except possibly its completed children. */
  lemma UntouchedCardIsRebuilt(t: Identity, level: map<nat, nat>, before: Activity, after: Activity, cards: Cards,
                               entries: Entries, stale: set<nat>, dirty: set<nat>, e: nat)
    requires Shallow(t.items, level) && CardsOf(t, cards) && DiffersAt(before, after, dirty)
    requires IsRebuildBut(t, before, cards, entries, stale) && e in entries && e !in Impacted(t, cards, dirty)
    ensures NearlyRight(t, after, cards, e, entries[e])
    ensures e !in stale && !HasStray(t, cards, dirty, e) ==> Right(t, after, cards, e, entries[e])
  {
    assert NearlyRight(t, before, cards, e, entries[e]);
    UntouchedCard(t, cards, level, dirty, e);
    UntouchedFacts(before, after, dirty, Direct(cards, t.items.Keys, e));
    UntouchedFacts(before, after, dirty, Reaching(t.items, cards, t.items.Keys, e));
    if t.items[e].kind != Show {
      OnlyShowsHaveChildren(t, cards, e);
    }
    if !HasStray(t, cards, dirty, e) {
      UntouchedChildren(t, before, after, cards, dirty, e);
    }
  }

  /**
   Without any alignment hypothesis, and refresh after refresh: all that can be wrong are completed
   children, of shows that were wrong and not recomputed or that have a stray child now.
   */
  lemma RefreshAgreesWithRebuild(t: Identity, level: map<nat, nat>, before: Activity, after: Activity, cards: Cards,
                                 entries: Entries, stale: set<nat>, dirty: set<nat>, renewed: Entries)
    requires Shallow(t.items, level) && CardsOf(t, cards) && DiffersAt(before, after, dirty)
    requires IsRebuildBut(t, before, cards, entries, stale) && IsRefresh(t, after, cards, entries, dirty, renewed)
    ensures IsRebuildBut(t, after, cards, renewed, StaleAfter(t, cards, dirty, stale))
  {
    forall e | e in renewed
      ensures NearlyRight(t, after, cards, e, renewed[e])
      ensures e !in StaleAfter(t, cards, dirty, stale) ==> Right(t, after, cards, e, renewed[e])
    {
      assert Renewed(t, after, cards, entries, dirty, e, renewed[e]);
      if e in Impacted(t, cards, dirty) {
        ImpactedCardIsRebuilt(t, level, before, after, cards, entries, stale, dirty, e, renewed[e]);
      } else {
        UntouchedCardIsRebuilt(t, level, before, after, cards, entries, stale, dirty, e);
      }
    }
  }

  lemma NoStraysNoneStale(t: Identity, cards: Cards, dirty: set<nat>)
    requires NoStrayChildren(t, cards, dirty)
    ensures StaleAfter(t, cards, dirty, {}) == {}
  {
    forall e: nat
      ensures !HasStray(t, cards, dirty, e)
    {
      assert forall c: nat :: !Stray(t, cards, dirty, e, c);
    }
  }

  /** Incremental equals full, for every card and every field. */
  lemma RefreshIsRebuild(t: Identity, level: map<nat, nat>, before: Activity, after: Activity, cards: Cards,
                         entries: Entries, dirty: set<nat>, renewed: Entries)
    requires Shallow(t.items, level) && CardsOf(t, cards) && DiffersAt(before, after, dirty)
    requires NoStrayChildren(t, cards, dirty)
    requires IsRebuild(t, before, cards, entries) && IsRefresh(t, after, cards, entries, dirty, renewed)
    ensures IsRebuild(t, after, cards, renewed)
  {
    NothingStaleIsRebuild(t, before, cards, entries);
    RefreshAgreesWithRebuild(t, level, before, after, cards, entries, {}, dirty, renewed);
    NoStraysNoneStale(t, cards, dirty);
    NothingStaleIsRebuild(t, after, cards, renewed);
  }

  /** A rebuild stores exactly one thing. */
  lemma RebuildIsUnique(t: Identity, a: Activity, cards: Cards, x: Entries, y: Entries)
    requires IsRebuild(t, a, cards, x) && IsRebuild(t, a, cards, y)
    ensures x == y
  {
    forall e | e in x
      ensures e in y && x[e] == y[e]
    {
      assert Right(t, a, cards, e, x[e]) && Right(t, a, cards, e, y[e]);
      RightEntryIsUnique(t, a, cards, e, x[e], y[e]);
    }
    SameEntries(x, y);
  }

  lemma SameEntries(x: Entries, y: Entries)
    requires x.Keys == y.Keys && forall e :: e in x ==> x[e] == y[e]
    ensures x == y
  {
  }

  lemma RightEntryIsUnique(t: Identity, a: Activity, cards: Cards, e: nat, x: Entry, y: Entry)
    requires Right(t, a, cards, e, x) && Right(t, a, cards, e, y)
    ensures x == y
  {
  }

  ghost predicate StaysRebuilt(t: Identity, cards: Cards, dirty: set<nat>, before: Activity, after: Activity,
                               entries: Entries, renewed: Entries) {
    IsRebuild(t, before, cards, entries) && IsRefresh(t, after, cards, entries, dirty, renewed) ==>
      IsRebuild(t, after, cards, renewed)
  }

  /** One change at `dirty`, refreshed right. */
  ghost predicate RefreshRight(t: Identity, cards: Cards, dirty: set<nat>, before: Activity, after: Activity) {
    forall entries, renewed :: StaysRebuilt(t, cards, dirty, before, after, entries, renewed)
  }

  lemma RefreshRightWithoutStrays(t: Identity, level: map<nat, nat>, cards: Cards, dirty: set<nat>,
                                  before: Activity, after: Activity)
    requires Shallow(t.items, level) && CardsOf(t, cards)
    requires NoStrayChildren(t, cards, dirty) && DiffersAt(before, after, dirty)
    ensures RefreshRight(t, cards, dirty, before, after)
  {
    forall entries, renewed
      ensures StaysRebuilt(t, cards, dirty, before, after, entries, renewed)
    {
      if IsRebuild(t, before, cards, entries) && IsRefresh(t, after, cards, entries, dirty, renewed) {
        RefreshIsRebuild(t, level, before, after, cards, entries, dirty, renewed);
      }
    }
  }

  ghost predicate RefreshAlwaysRight(t: Identity, cards: Cards, dirty: set<nat>) {
    forall before, after :: DiffersAt(before, after, dirty) ==> RefreshRight(t, cards, dirty, before, after)
  }

  lemma StrayRefreshesWrong(t: Identity, cards: Cards, dirty: set<nat>, e: nat, c: nat)
    requires CardsOf(t, cards) && Stray(t, cards, dirty, e, c)
    ensures !RefreshAlwaysRight(t, cards, dirty)
  {
    var d :| d in Direct(cards, t.items.Keys, c) && d in dirty;
    var before, after := StrayChildGoesStale(t, cards, dirty, e, c, d);
  }

  /** Exactly when no untouched show has a changed child is the refresh right for every change. */
  lemma RefreshRightIffNoStrayChildren(t: Identity, level: map<nat, nat>, cards: Cards, dirty: set<nat>)
    requires Shallow(t.items, level) && CardsOf(t, cards)
    ensures NoStrayChildren(t, cards, dirty) <==> RefreshAlwaysRight(t, cards, dirty)
  {
    if NoStrayChildren(t, cards, dirty) {
      forall before, after | DiffersAt(before, after, dirty)
        ensures RefreshRight(t, cards, dirty, before, after)
      {
        RefreshRightWithoutStrays(t, level, cards, dirty, before, after);
      }
    } else {
      var e: nat, c: nat :| Stray(t, cards, dirty, e, c);
      StrayRefreshesWrong(t, cards, dirty, e, c);
    }
  }

  lemma CardExists(t: Identity, cards: Cards, e: nat)
    requires CardsOf(t, cards) && e in cards.Values
    ensures e in t.items
  {
    var x :| x in cards && cards[x] == e;
  }

  /** Every state of the tables has a rebuild and a refresh. */
  lemma RebuildExists(t: Identity, a: Activity, cards: Cards) returns (entries: Entries)
    requires CardsOf(t, cards)
    ensures IsRebuild(t, a, cards, entries)
  {
    forall e | e in cards.Values
      ensures e in t.items
    {
      CardExists(t, cards, e);
    }
    entries := map e | e in cards.Values :: RebuiltEntry(t, a, cards, e);
  }

  lemma RefreshExists(t: Identity, a: Activity, cards: Cards, entries: Entries, dirty: set<nat>) returns (renewed: Entries)
    ensures IsRefresh(t, a, cards, entries, dirty, renewed)
  {
    renewed := map e | e in entries ::
      if e in Impacted(t, cards, dirty) then Updated(entries[e], TreeStats(t, a, cards, entries, dirty, e))
      else entries[e];
  }

  /** The completed children the rebuild counts for a card, before and after one play of a stray child. */
  lemma StrayPlayCounts(t: Identity, cards: Cards, e: nat, c: nat, d: nat)
    requires c in ChildCards(t, cards, t.items.Keys, e) && d in Direct(cards, t.items.Keys, c)
    ensures FullStats(t, Activity([], []), cards, e).completedChildren == 0
    ensures FullStats(t, Activity([WatchEvent(d, 0, true)], []), cards, e).completedChildren > 0
  {
    forall child | child in ChildCards(t, cards, t.items.Keys, e)
      ensures child in cards.Values
    {
      ChildIsCard(t, cards, t.items.Keys, e, child);
    }
    NothingPlayedCountsNothing(t, cards, ChildCards(t, cards, t.items.Keys, e));
    OnePlayCompletes(cards, t.items.Keys, c, d);
    ChildIsCard(t, cards, t.items.Keys, e, c);
    OneCompletedChildCounts(Activity([WatchEvent(d, 0, true)], []), cards, t.items.Keys, cards.Values,
                            ChildCards(t, cards, t.items.Keys, e), c);
  }

  lemma NothingPlayedCountsNothing(t: Identity, cards: Cards, children: set<nat>)
    requires children <= cards.Values
    ensures CompletedCards(Activity([], []), cards, t.items.Keys, cards.Values, map[], children) == {}
  {
    forall c | c in children
      ensures !Completed(Activity([], []), cards, t.items.Keys, cards.Values, map[], c)
    {
      assert Tally([], Direct(cards, t.items.Keys, c)) == ZERO;
    }
  }

  lemma OnePlayCompletes(cards: Cards, scope: set<nat>, c: nat, d: nat)
    requires d in Direct(cards, scope, c)
    ensures Completion(Activity([WatchEvent(d, 0, true)], []), cards, scope, c) > 0
  {
    var rows := [EventContribution(WatchEvent(d, 0, true))];
    assert EventRows([WatchEvent(d, 0, true)]) == rows;
    assert rows[1..] == [] && Tally(rows[1..], Direct(cards, scope, c)) == ZERO;
    assert Tally(rows, Direct(cards, scope, c)).events == 1;
  }

  lemma OneCompletedChildCounts(a: Activity, cards: Cards, scope: set<nat>, entries: set<nat>, children: set<nat>, c: nat)
    requires c in children && c in entries && Completion(a, cards, scope, c) > 0
    ensures |CompletedCards(a, cards, scope, entries, map[], children)| > 0
  {
    assert c in CompletedCards(a, cards, scope, entries, map[], children);
  }

  lemma OnePlayDiffersOnlyThere(d: nat, dirty: set<nat>)
    requires d in dirty
    ensures DiffersAt(Activity([], []), Activity([WatchEvent(d, 0, true)], []), dirty)
  {
    var before := Activity([], []);
    var after := Activity([WatchEvent(d, 0, true)], []);
    assert EventRows(after.events) == [EventContribution(WatchEvent(d, 0, true))];
    forall x | x !in dirty
      ensures Unchanged(before, after, x)
    {
      assert x != d;
    }
  }

  /** An entry that was right and was left alone is wrong once the completed children differ. */
  lemma UntouchedEntryIsStale(t: Identity, before: Activity, after: Activity, cards: Cards, e: nat, entry: Entry)
    requires FullStats(t, before, cards, e).completedChildren != FullStats(t, after, cards, e).completedChildren
    requires Right(t, before, cards, e, entry)
    ensures !Right(t, after, cards, e, entry)
  {
  }

  /** One completed play of a stray child leaves the show's stored count one behind. */
  lemma StrayChildGoesStale(t: Identity, cards: Cards, dirty: set<nat>, e: nat, c: nat, d: nat)
      returns (before: Activity, after: Activity)
    requires CardsOf(t, cards) && e in cards.Values && e !in Impacted(t, cards, dirty)
    requires c in ChildCards(t, cards, t.items.Keys, e)
    requires d in Direct(cards, t.items.Keys, c) && d in dirty
    ensures DiffersAt(before, after, dirty) && !RefreshRight(t, cards, dirty, before, after)
  {
    before := Activity([], []);
    after := Activity([WatchEvent(d, 0, true)], []);
    OnePlayDiffersOnlyThere(d, dirty);
    StrayPlayCounts(t, cards, e, c, d);
    var entries := RebuildExists(t, before, cards);
    var renewed := RefreshExists(t, after, cards, entries, dirty);
    assert Right(t, before, cards, e, entries[e]) && Renewed(t, after, cards, entries, dirty, e, renewed[e]);
    UntouchedEntryIsStale(t, before, after, cards, e, entries[e]);
    assert !StaysRebuilt(t, cards, dirty, before, after, entries, renewed);
  }

  /** Aligned episode cards are enough: a changed child always marks its show. */
  lemma AlignedHasNoStrayChildren(t: Identity, level: map<nat, nat>, cards: Cards, dirty: set<nat>)
    requires Shallow(t.items, level) && CardsOf(t, cards) && Aligned(t, cards)
    ensures NoStrayChildren(t, cards, dirty)
  {
    forall e: nat, c: nat
      ensures !Stray(t, cards, dirty, e, c)
    {
      if Stray(t, cards, dirty, e, c) {
        var d :| d in Direct(cards, t.items.Keys, c) && d in dirty;
        AlignedChildMarksItsShow(t, level, cards, dirty, e, c, d);
      }
    }
  }

  lemma AlignedChildMarksItsShow(t: Identity, level: map<nat, nat>, cards: Cards, dirty: set<nat>, e: nat, c: nat, d: nat)
    requires Shallow(t.items, level) && CardsOf(t, cards) && Aligned(t, cards)
    requires c in ChildCards(t, cards, t.items.Keys, e) && d in Direct(cards, t.items.Keys, c) && d in dirty
    ensures e in Impacted(t, cards, dirty)
  {
    var x :| x in t.items && AvailableEpisode(t, x) && x in cards
      && ShowCard(t, cards, t.items.Keys, x) == Some(e) && cards[x] == c;
    assert cards[x] == cards[d];
    ChainIsFullLine(t.items, t.items.Keys, level, d);
    NearestOnLine(t.items, d, MAX_DEPTH);
    ReachedCardIsImpacted(t, cards, dirty, d, NearestShow(t.items, t.items.Keys, Some(d), {}).value);
  }
}
