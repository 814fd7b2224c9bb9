/** What every card shows, told from the rows of the tables alone: a rebuild stores exactly that. */
module CardContents {
  import opened Catalog
  import opened Playback
  import opened Hierarchy
  import opened Projection
  import opened Refresh

  // ----- What the playback tables say about some items -----

  /** The completed events, by their place in the table. */
  function CompletedEvents(events: seq<WatchEvent>, items: set<nat>): set<nat> {
    set i: nat | i < |events| && events[i].completed && events[i].item in items
  }

  function EventDates(events: seq<WatchEvent>, items: set<nat>): set<int> {
    set e | e in events && e.completed && e.item in items :: e.watchedAt
  }

  function WatchedDates(states: seq<WatchState>, items: set<nat>): set<int> {
    set w | w in states && w.item in items && w.state.completed && w.state.lastWatched.Some? :: w.state.lastWatched.value
  }

  function PlayedDates(states: seq<WatchState>, items: set<nat>): set<int> {
    set w | w in states && w.item in items && w.state.lastPlayed.Some? :: w.state.lastPlayed.value
  }

  function ReportedViews(states: seq<WatchState>, items: set<nat>): set<nat> {
    set w | w in states && w.item in items && w.state.completed :: w.state.viewCount
  }

  function ResumePositions(states: seq<WatchState>, items: set<nat>): set<nat> {
    set w | w in states && w.item in items && !w.state.completed && w.state.progress.Some? :: w.state.progress.value
  }

  predicate IsCompletionOf(e: WatchEvent, items: set<nat>) {
    e.completed && e.item in items
  }

  lemma OneMoreEvent(front: seq<WatchEvent>, e: WatchEvent, items: set<nat>)
    ensures CompletedEvents(front + [e], items) == CompletedEvents(front, items) + if IsCompletionOf(e, items) then {|front|} else {}
  {
    var events := front + [e];
    forall i: nat
      ensures i in CompletedEvents(events, items) <==>
        i in CompletedEvents(front, items) || (i == |front| && IsCompletionOf(e, items))
    {
      assert i < |front| ==> events[i] == front[i];
    }
  }

  lemma OneMoreCounted(front: seq<WatchEvent>, e: WatchEvent, items: set<nat>)
    ensures |CompletedEvents(front + [e], items)| == |CompletedEvents(front, items)| + if IsCompletionOf(e, items) then 1 else 0
  {
    OneMoreEvent(front, e, items);
    assert |front| !in CompletedEvents(front, items);
  }

  lemma OneMoreDate(front: seq<WatchEvent>, e: WatchEvent, items: set<nat>)
    ensures EventDates(front + [e], items) == EventDates(front, items) + if IsCompletionOf(e, items) then {e.watchedAt} else {}
  {
    assert forall v :: v in front + [e] <==> v in front || v == e;
  }

  ghost predicate EventsTold(events: seq<WatchEvent>, items: set<nat>, f: Facts) {
    && f.events == |CompletedEvents(events, items)|
    && IsEarliest(EventDates(events, items), f.first) && IsLatest(EventDates(events, items), f.lastCompleted)
  }

  lemma TallyOfOne(row: Contribution, items: set<nat>)
    ensures Tally([row], items) == Head(row, items)
  {
    var rest := [row][1..];
    assert rest == [];
    assert Tally([row], items) == Combine(Head(row, items), Tally(rest, items));
    CombineNothing(Head(row, items));
  }

  lemma {:induction false} EventFacts(events: seq<WatchEvent>, items: set<nat>)
    ensures EventsTold(events, items, Tally(EventRows(events), items))
  {
    if events == [] {
      assert CompletedEvents(events, items) == {};
    } else {
      var n := |events| - 1;
      var (front, e) := (events[..n], events[n]);
      EventFacts(front, items);
      assert events == front + [e];
      EventRowsConcat(front, [e]);
      TallyConcat(EventRows(front), EventRows([e]), items);
      OneEventTally(e, items);
      EventTold(front, e, items, Tally(EventRows(front), items));
    }
  }

  lemma EventTold(front: seq<WatchEvent>, e: WatchEvent, items: set<nat>, f: Facts)
    requires EventsTold(front, items, f)
    ensures EventsTold(front + [e], items, Combine(f, if IsCompletionOf(e, items) then EventContribution(e).facts else ZERO))
  {
    OneMoreCounted(front, e, items);
    OneMoreDate(front, e, items);
  }

  lemma OneEventTally(e: WatchEvent, items: set<nat>)
    ensures Tally(EventRows([e]), items) == if IsCompletionOf(e, items) then EventContribution(e).facts else ZERO
  {
    assert EventRows([e][1..]) == [];
    if e.completed {
      assert EventRows([e]) == [EventContribution(e)];
      TallyOfOne(EventContribution(e), items);
    }
  }

  lemma MoreStates(front: seq<WatchState>, back: seq<WatchState>, items: set<nat>)
    ensures ReportedViews(front + back, items) == ReportedViews(front, items) + ReportedViews(back, items)
    ensures ResumePositions(front + back, items) == ResumePositions(front, items) + ResumePositions(back, items)
    ensures WatchedDates(front + back, items) == WatchedDates(front, items) + WatchedDates(back, items)
    ensures PlayedDates(front + back, items) == PlayedDates(front, items) + PlayedDates(back, items)
  {
    assert forall w :: w in front + back <==> w in front || w in back;
  }

  lemma OneState(w: WatchState, items: set<nat>)
    ensures var (s, one) := (w.state, w.item in items);
      && ReportedViews([w], items) == (if one && s.completed then {s.viewCount} else {})
      && ResumePositions([w], items) == (if one && !s.completed && s.progress.Some? then {s.progress.value} else {})
      && WatchedDates([w], items) == (if one && s.completed && s.lastWatched.Some? then {s.lastWatched.value} else {})
      && PlayedDates([w], items) == (if one && s.lastPlayed.Some? then {s.lastPlayed.value} else {})
  {
    assert w in [w];
  }

  ghost predicate StatesTold(states: seq<WatchState>, items: set<nat>, f: Facts) {
    && IsGreatest(ReportedViews(states, items), f.views) && IsGreatest(ResumePositions(states, items), f.progress)
    && IsLatest(WatchedDates(states, items), f.lastCompleted)
    && IsLatest(PlayedDates(states, items) + WatchedDates(states, items), f.activity)
  }

  lemma StatesToldTogether(x: seq<WatchState>, y: seq<WatchState>, items: set<nat>, f: Facts, g: Facts)
    requires StatesTold(x, items, f) && StatesTold(y, items, g)
    ensures StatesTold(x + y, items, Combine(f, g))
  {
    MoreStates(x, y, items);
    LatestOfUnion(WatchedDates(x, items), WatchedDates(y, items), f.lastCompleted, g.lastCompleted);
    var (p, q) := (PlayedDates(x, items) + WatchedDates(x, items), PlayedDates(y, items) + WatchedDates(y, items));
    LatestOfUnion(p, q, f.activity, g.activity);
    assert PlayedDates(x + y, items) + WatchedDates(x + y, items) == p + q;
  }

  lemma {:induction false} StateFacts(states: seq<WatchState>, items: set<nat>)
    ensures StatesTold(states, items, Tally(StateRows(states), items))
  {
    if states != [] {
      var n := |states| - 1;
      var (front, w) := (states[..n], states[n]);
      StateFacts(front, items);
      assert states == front + [w];
      StateRowsConcat(front, [w]);
      TallyConcat(StateRows(front), StateRows([w]), items);
      OneStateTold(w, items);
      OneStateTally(w, items);
      StatesToldTogether(front, [w], items, Tally(StateRows(front), items), Tally(StateRows([w]), items));
    }
  }

  lemma OneStateTold(w: WatchState, items: set<nat>)
    ensures StatesTold([w], items, Head(StateContribution(w), items))
  {
    OneState(w, items);
    assert PlayedDates([w], items) + {} == PlayedDates([w], items);
  }

  lemma OneStateTally(w: WatchState, items: set<nat>)
    ensures Tally(StateRows([w]), items) == Head(StateContribution(w), items)
  {
    var rest := [w][1..];
    assert rest == [] && StateRows(rest) == [];
    assert StateRows([w]) == [StateContribution(w)] + StateRows(rest);
    TallyOfOne(StateContribution(w), items);
  }

  /** The larger of the number of completed events and the greatest count a server reports for a completed item. */
  ghost predicate CountsCompletions(a: Activity, items: set<nat>, n: nat) {
    IsGreatest(ReportedViews(a.states, items) + {|CompletedEvents(a.events, items)|}, n)
  }

  function CompletionDates(a: Activity, items: set<nat>): set<int> {
    EventDates(a.events, items) + WatchedDates(a.states, items)
  }

  /** What the facts of some items say, from the rows. */
  ghost predicate FactsTold(a: Activity, items: set<nat>, f: Facts) {
    && CountsCompletions(a, items, Max(f.events, f.views)) && IsGreatest(ResumePositions(a.states, items), f.progress)
    && IsEarliest(EventDates(a.events, items), f.first) && IsLatest(CompletionDates(a, items), f.lastCompleted)
    && IsLatest(CompletionDates(a, items) + PlayedDates(a.states, items), f.activity)
  }

  lemma ActivityFacts(a: Activity, items: set<nat>)
    ensures FactsTold(a, items, ActivityTally(a, items))
  {
    EventFacts(a.events, items);
    EventTallyShape(a.events, items);
    StateFacts(a.states, items);
    StateTallyShape(a.states, items);
    FactsToldTogether(a, items, Tally(EventRows(a.events), items), Tally(StateRows(a.states), items));
  }

  lemma FactsToldTogether(a: Activity, items: set<nat>, e: Facts, s: Facts)
    requires EventsTold(a.events, items, e) && e.views == 0 && e.progress == 0 && e.activity == e.lastCompleted
    requires StatesTold(a.states, items, s) && s.events == 0 && s.first == None
    ensures FactsTold(a, items, Combine(e, s))
  {
    var (seen, watched, played) := (EventDates(a.events, items), WatchedDates(a.states, items), PlayedDates(a.states, items));
    LatestOfUnion(seen, watched, e.lastCompleted, s.lastCompleted);
    LatestOfUnion(seen, played + watched, e.activity, s.activity);
    assert seen + (played + watched) == CompletionDates(a, items) + played;
    LargerCounts(a, items, s.views);
    assert Combine(e, s) == Facts(e.events, e.first, Latest(e.lastCompleted, s.lastCompleted), s.views, s.progress,
                                  Latest(e.activity, s.activity));
  }

  lemma LargerCounts(a: Activity, items: set<nat>, views: nat)
    requires IsGreatest(ReportedViews(a.states, items), views)
    ensures CountsCompletions(a, items, Max(|CompletedEvents(a.events, items)|, views))
  {
  }

  // ----- Parents -----

  /** From `x` to `y` by parents. */
  ghost predicate Climbs(items: Items, path: seq<nat>, x: nat, y: nat) {
    && path != [] && path[0] == x && path[|path| - 1] == y
    && forall i :: 0 <= i < |path| - 1 ==> ParentAt(items, path, i)
  }

  ghost predicate ParentAt(items: Items, path: seq<nat>, i: int)
    requires 0 <= i < |path| - 1
  {
    path[i] in items && items[path[i]].parent == Some(path[i + 1])
  }

  ghost predicate Above(items: Items, x: nat, y: nat) {
    exists path :: Climbs(items, path, x, y)
  }

  ghost predicate IsShow(items: Items, x: nat) {
    x in items && items[x].kind == Show
  }

  /** `s` is the first show on the way up from `x`. */
  ghost predicate FirstShow(items: Items, x: nat, s: nat) {
    IsShow(items, s) && exists path :: Climbs(items, path, x, s) && NoneBefore(items, path)
  }

  ghost predicate NoneBefore(items: Items, path: seq<nat>) {
    forall i :: 0 <= i < |path| - 1 ==> !IsShow(items, path[i])
  }

  lemma ClimbTail(items: Items, path: seq<nat>, x: nat, y: nat, k: nat)
    requires Climbs(items, path, x, y) && k < |path|
    ensures Climbs(items, path[k..], path[k], y)
    ensures NoneBefore(items, path) ==> NoneBefore(items, path[k..])
  {
    forall i | 0 <= i < |path| - k - 1
      ensures ParentAt(items, path[k..], i)
    {
      assert ParentAt(items, path, i + k);
    }
  }

  lemma {:induction false} ClimbIsVisited(items: Items, visited: set<nat>, path: seq<nat>, x: nat, y: nat)
    requires Climbs(items, path, x, y) && forall i :: 0 <= i < |path| ==> path[i] !in visited
    ensures y in Chain(items, items.Keys, Some(x), visited)
    ensures IsShow(items, y) && NoneBefore(items, path) ==> NearestShow(items, items.Keys, Some(x), visited) == Some(y)
    decreases |path|
  {
    if k: nat :| 0 < k < |path| && path[k] == x {
      ClimbTail(items, path, x, y, k);
      ClimbIsVisited(items, visited, path[k..], x, y);
    } else if |path| > 1 {
      ClimbTail(items, path, x, y, 1);
      assert ParentAt(items, path, 0);
      forall i | 0 <= i < |path| - 1
        ensures path[1..][i] !in visited + {x}
      {
        assert path[1..][i] == path[i + 1];
      }
      ClimbIsVisited(items, visited + {x}, path[1..], path[1], y);
    }
  }

  lemma ClimbFurther(items: Items, x: nat, up: nat, path: seq<nat>, y: nat)
    requires x in items && items[x].parent == Some(up) && Climbs(items, path, up, y)
    ensures Climbs(items, [x] + path, x, y)
    ensures !IsShow(items, x) && NoneBefore(items, path) ==> NoneBefore(items, [x] + path)
  {
    var more := [x] + path;
    forall i | 0 <= i < |more| - 1
      ensures ParentAt(items, more, i)
    {
      assert i > 0 ==> ParentAt(items, path, i - 1);
    }
  }

  lemma {:induction false} VisitedIsAbove(items: Items, visited: set<nat>, x: nat, y: nat)
    requires y in Chain(items, items.Keys, Some(x), visited)
    ensures Above(items, x, y)
    decreases items.Keys - visited, x !in items
  {
    if y == x {
      assert Climbs(items, [x], x, x);
    } else {
      var up := Up(items, items.Keys, x);
      assert up.Some?;
      VisitedIsAbove(items, visited + {x}, up.value, y);
      var path :| Climbs(items, path, up.value, y);
      ClimbFurther(items, x, up.value, path, y);
    }
  }

  lemma {:induction false} NearestIsFirst(items: Items, visited: set<nat>, x: nat)
    requires NearestShow(items, items.Keys, Some(x), visited).Some?
    ensures FirstShow(items, x, NearestShow(items, items.Keys, Some(x), visited).value)
    decreases items.Keys - visited, x !in items
  {
    var s := NearestShow(items, items.Keys, Some(x), visited).value;
    if IsShow(items, x) {
      assert Climbs(items, [x], x, x) && NoneBefore(items, [x]);
    } else {
      var up := Up(items, items.Keys, x);
      assert up.Some?;
      NearestIsFirst(items, visited + {x}, up.value);
      var path :| Climbs(items, path, up.value, s) && NoneBefore(items, path);
      ClimbFurther(items, x, up.value, path, s);
    }
  }

  /** The guarded walk visits exactly what is above, cycles or not. */
  lemma WalkVisitsAbove(items: Items, x: nat, y: nat)
    ensures y in Chain(items, items.Keys, Some(x), {}) <==> Above(items, x, y)
  {
    if path :| Climbs(items, path, x, y) {
      ClimbIsVisited(items, {}, path, x, y);
    }
    if y in Chain(items, items.Keys, Some(x), {}) {
      VisitedIsAbove(items, {}, x, y);
    }
  }

  lemma NearestShowIsFirst(items: Items, x: nat, s: nat)
    ensures NearestShow(items, items.Keys, Some(x), {}) == Some(s) <==> FirstShow(items, x, s)
  {
    if FirstShow(items, x, s) {
      var path :| Climbs(items, path, x, s) && NoneBefore(items, path);
      ClimbIsVisited(items, {}, path, x, s);
    }
    if NearestShow(items, items.Keys, Some(x), {}) == Some(s) {
      NearestIsFirst(items, {}, x);
    }
  }

  // ----- The card -----

  /** The items a card stands for. */
  function Members(t: Identity, cards: Cards, e: nat): set<nat> {
    set x | x in t.items && x in cards && cards[x] == e
  }

  /** These, and everything below one of them. */
  ghost function MembersAndBelow(t: Identity, cards: Cards, e: nat): set<nat> {
    set x | x in t.items && exists y :: y in Members(t, cards, e) && Above(t.items, x, y)
  }

  /** Live somewhere, and the first show above has card `e`. */
  ghost predicate ChildOf(t: Identity, cards: Cards, x: nat, e: nat) {
    && x in t.items && t.items[x].kind == Episode && x in cards && (exists r :: r in t.refs && r.item == x && r.available)
    && exists s :: FirstShow(t.items, x, s) && s in cards && cards[s] == e
  }

  ghost function Children(t: Identity, cards: Cards, e: nat): set<nat> {
    set x | x in t.items && ChildOf(t, cards, x, e) :: cards[x]
  }

  /** Some member has a completed event, or a server counts it as watched. */
  ghost predicate WasCompleted(t: Identity, a: Activity, cards: Cards, e: nat) {
    || (exists v :: v in a.events && v.completed && v.item in Members(t, cards, e))
    || (exists w :: w in a.states && w.item in Members(t, cards, e) && w.state.completed && w.state.viewCount > 0)
  }

  ghost function CompletedChildren(t: Identity, a: Activity, cards: Cards, e: nat): set<nat> {
    set c | c in Children(t, cards, e) && WasCompleted(t, a, cards, c)
  }

  ghost predicate StatsTold(t: Identity, a: Activity, cards: Cards, e: nat, s: Stats) {
    var (own, below) := (Members(t, cards, e), MembersAndBelow(t, cards, e));
    && CountsCompletions(a, own, s.completion) && IsGreatest(ResumePositions(a.states, own), s.progress)
    && IsEarliest(EventDates(a.events, own), s.first) && IsLatest(CompletionDates(a, own), s.lastCompleted)
    && IsLatest(CompletionDates(a, below) + PlayedDates(a.states, below), s.lastPlayed)
    && s.children == |Children(t, cards, e)| && s.completedChildren == |CompletedChildren(t, a, cards, e)|
  }

  ghost predicate LiveMember(t: Identity, cards: Cards, e: nat, r: Ref) {
    r in t.refs && r.available && r.item in cards && cards[r.item] == e
  }

  /** The whole entry of card `e`, from the rows. */
  ghost predicate Told(t: Identity, a: Activity, cards: Cards, e: nat, entry: Entry) {
    && e in t.items && entry.kind == t.items[e].kind && StatsTold(t, a, cards, e, entry.stats)
    && (entry.available <==> exists r :: LiveMember(t, cards, e, r))
    && (entry.onPlex <==> exists r :: LiveMember(t, cards, e, r) && r.source in t.sources && t.sources[r.source].Plex?)
    && (entry.onJellyfin <==> exists r :: LiveMember(t, cards, e, r) && r.source in t.sources && t.sources[r.source].Jellyfin?)
  }

  lemma ReachingIsBelow(t: Identity, cards: Cards, e: nat)
    ensures Reaching(t.items, cards, t.items.Keys, e) == MembersAndBelow(t, cards, e)
  {
    var own := Members(t, cards, e);
    assert Direct(cards, t.items.Keys, e) == own;
    forall x | x in t.items
      ensures Chain(t.items, t.items.Keys, Some(x), {}) * own != {} <==> exists y :: y in own && Above(t.items, x, y)
    {
      forall y
        ensures y in Chain(t.items, t.items.Keys, Some(x), {}) <==> Above(t.items, x, y)
      {
        WalkVisitsAbove(t.items, x, y);
      }
      if y :| y in own && Above(t.items, x, y) {
        assert y in Chain(t.items, t.items.Keys, Some(x), {}) * own;
      }
      if y :| y in Chain(t.items, t.items.Keys, Some(x), {}) * own {
        assert y in own && Above(t.items, x, y);
      }
    }
  }

  lemma ChildCardsAreChildren(t: Identity, cards: Cards, e: nat)
    ensures ChildCards(t, cards, t.items.Keys, e) == Children(t, cards, e)
  {
    forall x | x in t.items && x in cards
      ensures AvailableEpisode(t, x) && ShowCard(t, cards, t.items.Keys, x) == Some(e) <==> ChildOf(t, cards, x, e)
    {
      LiveSomewhere(t, x);
      forall s: nat
        ensures NearestShow(t.items, t.items.Keys, Some(x), {}) == Some(s) <==> FirstShow(t.items, x, s)
      {
        NearestShowIsFirst(t.items, x, s);
      }
    }
  }

  lemma LiveSomewhere(t: Identity, x: nat)
    ensures LiveSources(t, x) != {} <==> exists r :: r in t.refs && r.item == x && r.available
  {
    if r :| r in t.refs && r.item == x && r.available {
      assert r.source in LiveSources(t, x);
    }
    if s :| s in LiveSources(t, x) {
      var r :| r in t.refs && r.item == x && r.available && r.source == s;
    }
  }

  lemma CompletionMeansCompleted(t: Identity, a: Activity, cards: Cards, e: nat)
    ensures Completion(a, cards, t.items.Keys, e) > 0 <==> WasCompleted(t, a, cards, e)
  {
    var own := Members(t, cards, e);
    assert Direct(cards, t.items.Keys, e) == own;
    CompletionCounts(a, own);
    SomeEvent(a.events, own);
    SomeViews(a.states, own);
  }

  lemma CompletionCounts(a: Activity, items: set<nat>)
    ensures Played(ActivityTally(a, items)).completion > 0 <==>
      |CompletedEvents(a.events, items)| > 0 || exists n :: n in ReportedViews(a.states, items) && n > 0
  {
    ActivityFacts(a, items);
    var n := Played(ActivityTally(a, items)).completion;
    assert CountsCompletions(a, items, n);
  }

  lemma SomeEvent(events: seq<WatchEvent>, items: set<nat>)
    ensures |CompletedEvents(events, items)| > 0 <==> exists v :: v in events && v.completed && v.item in items
  {
    if v :| v in events && v.completed && v.item in items {
      var i :| 0 <= i < |events| && events[i] == v;
      assert i in CompletedEvents(events, items);
    }
    if i :| i in CompletedEvents(events, items) {
      assert events[i] in events;
    }
  }

  lemma SomeViews(states: seq<WatchState>, items: set<nat>)
    ensures (exists n :: n in ReportedViews(states, items) && n > 0) <==>
      exists w :: w in states && w.item in items && w.state.completed && w.state.viewCount > 0
  {
    if w :| w in states && w.item in items && w.state.completed && w.state.viewCount > 0 {
      assert w.state.viewCount in ReportedViews(states, items);
    }
    if n :| n in ReportedViews(states, items) && n > 0 {
      var w :| w in states && w.item in items && w.state.completed && w.state.viewCount == n;
    }
  }

  lemma NoChildWithoutCard(t: Identity, cards: Cards, e: nat)
    ensures Children(t, cards, e) <= cards.Values
  {
  }

  lemma RebuiltIsTold(t: Identity, a: Activity, cards: Cards, e: nat)
    requires e in t.items
    ensures Told(t, a, cards, e, RebuiltEntry(t, a, cards, e))
  {
    FullStatsAreTold(t, a, cards, e);
    forall r
      ensures Offered(t, cards, e, r) <==> LiveMember(t, cards, e, r)
    {
    }
  }

  lemma FullStatsAreTold(t: Identity, a: Activity, cards: Cards, e: nat)
    ensures StatsTold(t, a, cards, e, FullStats(t, a, cards, e))
  {
    assert Direct(cards, t.items.Keys, e) == Members(t, cards, e);
    ActivityFacts(a, Members(t, cards, e));
    ReachingIsBelow(t, cards, e);
    ActivityFacts(a, MembersAndBelow(t, cards, e));
    ChildCardsAreChildren(t, cards, e);
    CompletedCardsAreChildren(t, a, cards, e);
  }

  lemma CompletedCardsAreChildren(t: Identity, a: Activity, cards: Cards, e: nat)
    ensures CompletedCards(a, cards, t.items.Keys, cards.Values, map[], Children(t, cards, e)) == CompletedChildren(t, a, cards, e)
  {
    NoChildWithoutCard(t, cards, e);
    forall c | c in Children(t, cards, e)
      ensures Completed(a, cards, t.items.Keys, cards.Values, map[], c) <==> WasCompleted(t, a, cards, c)
    {
      CompletionMeansCompleted(t, a, cards, c);
    }
  }

  lemma ToldOnce(t: Identity, a: Activity, cards: Cards, e: nat, x: Entry, y: Entry)
    requires Told(t, a, cards, e, x) && Told(t, a, cards, e, y)
    ensures x == y
  {
    StatsToldOnce(t, a, cards, e, x.stats, y.stats);
  }

  lemma StatsToldOnce(t: Identity, a: Activity, cards: Cards, e: nat, x: Stats, y: Stats)
    requires StatsTold(t, a, cards, e, x) && StatsTold(t, a, cards, e, y)
    ensures x == y
  {
    var (own, below) := (Members(t, cards, e), MembersAndBelow(t, cards, e));
    GreatestOnce(ReportedViews(a.states, own) + {|CompletedEvents(a.events, own)|}, x.completion, y.completion);
    GreatestOnce(ResumePositions(a.states, own), x.progress, y.progress);
    EarliestOnce(EventDates(a.events, own), x.first, y.first);
    LatestOnce(CompletionDates(a, own), x.lastCompleted, y.lastCompleted);
    LatestOnce(CompletionDates(a, below) + PlayedDates(a.states, below), x.lastPlayed, y.lastPlayed);
  }

  /** An entry is right exactly if it says what the rows say, field by field. */
  lemma RightIffTold(t: Identity, a: Activity, cards: Cards, e: nat, entry: Entry)
    ensures Right(t, a, cards, e, entry) <==> Told(t, a, cards, e, entry)
  {
    if e in t.items {
      RebuiltIsTold(t, a, cards, e);
      if Told(t, a, cards, e, entry) {
        ToldOnce(t, a, cards, e, entry, RebuiltEntry(t, a, cards, e));
      }
    }
  }

  /** A rebuild is one entry per card, each told from the rows. */
  lemma RebuildIffTold(t: Identity, a: Activity, cards: Cards, entries: Entries)
    ensures IsRebuild(t, a, cards, entries) <==>
      entries.Keys == cards.Values && forall e {:trigger entries[e]} :: e in entries ==> Told(t, a, cards, e, entries[e])
  {
    forall e | e in entries
      ensures Right(t, a, cards, e, entries[e]) <==> Told(t, a, cards, e, entries[e])
    {
      RightIffTold(t, a, cards, e, entries[e]);
    }
  }
}
