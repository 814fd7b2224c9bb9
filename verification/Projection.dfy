/** The facts shown on every card, and the loops that compute them from the playback tables. */
module Projection {
  import opened Catalog
  import opened Playback
  import opened Hierarchy

  datatype Stats = Stats(
    completion: nat, first: Option<int>, lastCompleted: Option<int>, lastPlayed: Option<int>,
    progress: nat, children: nat, completedChildren: nat)

  const EMPTY := Stats(0, None, None, None, 0, 0, 0)

  type Cards = map<nat, nat>

  // ----- Specification -----

  /** The loaded items shown by card `e`. */
  function Direct(cards: Cards, scope: set<nat>, e: nat): set<nat> {
    set x | x in scope && x in cards && cards[x] == e
  }

  /** The loaded items whose walk to the root meets an item of card `e`. */
  function Reaching(items: Items, cards: Cards, scope: set<nat>, e: nat): set<nat> {
    set x | x in scope && Chain(items, scope, Some(x), {}) * Direct(cards, scope, e) != {}
  }

  /** Completions are events or the count a server reports, whichever is more. */
  function Played(f: Facts): Stats {
    Stats(Max(f.events, f.views), f.first, f.lastCompleted, None, f.progress, 0, 0)
  }

  predicate AvailableEpisode(t: Identity, x: nat) {
    x in t.items && t.items[x].kind == Episode && LiveSources(t, x) != {}
  }

  /** The card of the nearest show above `x`. */
  function ShowCard(t: Identity, cards: Cards, scope: set<nat>, x: nat): Option<nat> {
    var show := NearestShow(t.items, scope, Some(x), {});
    if show.Some? && show.value in cards then Some(cards[show.value]) else None
  }

  /** The distinct cards of the available episodes of show card `e`. */
  function ChildCards(t: Identity, cards: Cards, scope: set<nat>, e: nat): set<nat> {
    set x | x in scope && AvailableEpisode(t, x) && x in cards && ShowCard(t, cards, scope, x) == Some(e) :: cards[x]
  }

  function Completion(a: Activity, cards: Cards, scope: set<nat>, e: nat): nat {
    Played(ActivityTally(a, Direct(cards, scope, e))).completion
  }

  /** Cards outside `entries` are judged by the count already stored for them. */
  predicate Completed(a: Activity, cards: Cards, scope: set<nat>, entries: set<nat>, stored: map<nat, nat>, e: nat) {
    if e in entries then Completion(a, cards, scope, e) > 0 else e in stored && stored[e] > 0
  }

  function CompletedCards(a: Activity, cards: Cards, scope: set<nat>, entries: set<nat>, stored: map<nat, nat>,
                          candidates: set<nat>): set<nat> {
    set e | e in candidates && Completed(a, cards, scope, entries, stored, e)
  }

  function StatsOf(t: Identity, a: Activity, cards: Cards, scope: set<nat>, entries: set<nat>,
                   stored: map<nat, nat>, e: nat): Stats {
    Played(ActivityTally(a, Direct(cards, scope, e))).(
      lastPlayed := ActivityTally(a, Reaching(t.items, cards, scope, e)).activity,
      children := |ChildCards(t, cards, scope, e)|,
      completedChildren := |CompletedCards(a, cards, scope, entries, stored, ChildCards(t, cards, scope, e))|)
  }

  // ----- The loops -----

  type Summary = map<nat, Stats>

  function Lookup(played: map<nat, int>, x: nat): Option<int> {
    if x in played then Some(played[x]) else None
  }

  /** Records the latest activity of an item, if it has any. */
  function Note(played: map<nat, int>, x: nat, at: Option<int>): (r: map<nat, int>)
    ensures played.Keys <= r.Keys <= played.Keys + {x}
    ensures forall y {:trigger Lookup(r, y)} :: Lookup(r, y) == Latest(Lookup(played, y), if y == x then at else None)
  {
    var latest := Latest(Lookup(played, x), at);
    if latest.Some? then played[x := latest.value] else played
  }

  /** `completion_count += count` and the earliest and latest event. */
  function AddGroup(s: Stats, group: Facts): Stats {
    s.(completion := s.completion + group.events,
       first := Earliest(s.first, group.first),
       lastCompleted := Latest(s.lastCompleted, group.lastCompleted))
  }

  /** The reported count never lowers the count of events. */
  function MaxGroup(s: Stats, group: Facts): Stats {
    s.(completion := Max(s.completion, group.views),
       lastCompleted := Latest(s.lastCompleted, group.lastCompleted),
       progress := Max(s.progress, group.progress))
  }

  ghost predicate Counted(events: seq<WatchEvent>, cards: Cards, scope: set<nat>, done: set<nat>, s: Stats, e: nat) {
    s == Played(Tally(EventRows(events), Direct(cards, scope, e) * done))
  }

  lemma TallyGrows(rows: seq<Contribution>, direct: set<nat>, done: set<nat>, x: nat)
    requires x !in done
    ensures Tally(rows, direct * (done + {x})) ==
      if x in direct then Combine(Tally(rows, direct * done), Tally(rows, {x})) else Tally(rows, direct * done)
  {
    if x in direct {
      assert direct * (done + {x}) == direct * done + {x};
      TallyUnion(rows, direct * done, {x});
    } else {
      assert direct * (done + {x}) == direct * done;
    }
  }

  lemma CountedGrows(events: seq<WatchEvent>, cards: Cards, scope: set<nat>, done: set<nat>, s: Stats, e: nat, x: nat)
    requires Counted(events, cards, scope, done, s, e) && x !in done && x in scope
    ensures
      var group := Tally(EventRows(events), {x});
      Counted(events, cards, scope, done + {x}, if x in cards && cards[x] == e then AddGroup(s, group) else s, e)
  {
    var direct := Direct(cards, scope, e);
    TallyGrows(EventRows(events), direct, done, x);
    EventTallyShape(events, direct * done);
    EventTallyShape(events, {x});
    if x in direct {
      AddedGroupIsCombined(Tally(EventRows(events), direct * done), Tally(EventRows(events), {x}));
    }
  }

  lemma AddedGroupIsCombined(f: Facts, group: Facts)
    requires f.views == 0 && f.progress == 0 && group.views == 0 && group.progress == 0
    ensures AddGroup(Played(f), group) == Played(Combine(f, group))
  {
  }

  lemma TallyOverSelected(rows: seq<Contribution>, direct: set<nat>, scope: set<nat>)
    requires direct <= scope
    ensures Tally(rows, direct * (RowItems(rows) * scope)) == Tally(rows, direct)
  {
    TallyRelevant(rows, direct * (RowItems(rows) * scope), direct);
  }

  /** The invariant of the first query's loop. */
  ghost predicate EventsRead(events: seq<WatchEvent>, cards: Cards, scope: set<nat>, done: set<nat>,
                             stats: Summary, played: map<nat, int>) {
    && (forall e {:trigger stats[e]} :: e in stats ==> Counted(events, cards, scope, done, stats[e], e))
    && (forall x {:trigger Lookup(played, x)} :: x in done ==> Lookup(played, x) == Tally(EventRows(events), {x}).activity)
    && played.Keys <= done
  }

  function AddInto(stats: Summary, cards: Cards, x: nat, group: Facts): Summary {
    if x in cards && cards[x] in stats then stats[cards[x] := AddGroup(stats[cards[x]], group)] else stats
  }

  lemma NoEventsRead(events: seq<WatchEvent>, cards: Cards, scope: set<nat>, stats: Summary)
    requires forall e :: e in stats ==> stats[e] == EMPTY
    ensures EventsRead(events, cards, scope, {}, stats, map[])
  {
    forall e | e in stats
      ensures Counted(events, cards, scope, {}, stats[e], e)
    {
      TallyOfNobody(EventRows(events));
      assert Direct(cards, scope, e) * {} == {};
    }
  }

  lemma EventsReadGrows(events: seq<WatchEvent>, cards: Cards, scope: set<nat>, done: set<nat>,
                        stats: Summary, played: map<nat, int>, x: nat)
    requires EventsRead(events, cards, scope, done, stats, played) && x !in done && x in scope
    ensures var group := Tally(EventRows(events), {x});
      EventsRead(events, cards, scope, done + {x}, AddInto(stats, cards, x, group), Note(played, x, group.activity))
  {
    var group := Tally(EventRows(events), {x});
    var more := AddInto(stats, cards, x, group);
    forall e | e in more
      ensures Counted(events, cards, scope, done + {x}, more[e], e)
    {
      CountedGrows(events, cards, scope, done, stats[e], e, x);
    }
  }

  lemma EventsReadComplete(events: seq<WatchEvent>, cards: Cards, scope: set<nat>, stats: Summary, played: map<nat, int>)
    requires EventsRead(events, cards, scope, RowItems(EventRows(events)) * scope, stats, played)
    ensures forall e :: e in stats ==> stats[e] == Played(Tally(EventRows(events), Direct(cards, scope, e)))
    ensures forall x :: x in scope ==> Lookup(played, x) == Tally(EventRows(events), {x}).activity
  {
    var done := RowItems(EventRows(events)) * scope;
    forall e | e in stats
      ensures stats[e] == Played(Tally(EventRows(events), Direct(cards, scope, e)))
    {
      assert Counted(events, cards, scope, done, stats[e], e);
      TallyOverSelected(EventRows(events), Direct(cards, scope, e), scope);
    }
    forall x | x in scope
      ensures Lookup(played, x) == Tally(EventRows(events), {x}).activity
    {
      if x !in done {
        UnselectedIsUnplayed(EventRows(events), x);
      }
    }
  }

  /** The first grouped query: completed events per item. */
  method AddEvents(events: seq<WatchEvent>, cards: Cards, scope: set<nat>, entries: set<nat>)
      returns (stats: Summary, played: map<nat, int>)
    ensures stats.Keys == entries
    ensures forall e :: e in entries ==> stats[e] == Played(Tally(EventRows(events), Direct(cards, scope, e)))
    ensures played.Keys <= scope
    ensures forall x :: x in scope ==> Lookup(played, x) == Tally(EventRows(events), {x}).activity
  {
    stats := map e | e in entries :: EMPTY;
    played := map[];
    ghost var groups := RowItems(EventRows(events)) * scope;
    var pending := RowItems(EventRows(events)) * scope;
    ghost var done: set<nat> := {};
    NoEventsRead(events, cards, scope, stats);
    while pending != {}
      invariant done !! pending && done + pending == groups && stats.Keys == entries
      invariant EventsRead(events, cards, scope, done, stats, played)
      decreases pending
    {
      var x :| x in pending;
      EventsReadGrows(events, cards, scope, done, stats, played, x);
      var group := Tally(EventRows(events), {x});
      stats := AddInto(stats, cards, x, group);
      played := Note(played, x, group.activity);
      pending := pending - {x};
      done := done + {x};
    }
    EventsReadComplete(events, cards, scope, stats, played);
  }

  /** All events of the items, and the states of those that are done. */
  ghost function MaxedStats(a: Activity, direct: set<nat>, done: set<nat>): Stats {
    Played(Combine(Tally(EventRows(a.events), direct), Tally(StateRows(a.states), direct * done)))
  }

  lemma MaxedGrows(a: Activity, direct: set<nat>, done: set<nat>, x: nat)
    requires x !in done
    ensures MaxedStats(a, direct, done + {x}) ==
      if x in direct then MaxGroup(MaxedStats(a, direct, done), Tally(StateRows(a.states), {x}))
      else MaxedStats(a, direct, done)
  {
    TallyGrows(StateRows(a.states), direct, done, x);
    StateTallyShape(a.states, direct * done);
    StateTallyShape(a.states, {x});
    MaxedGroupIsCombined(Tally(EventRows(a.events), direct), Tally(StateRows(a.states), direct * done),
                         Tally(StateRows(a.states), {x}));
  }

  lemma CardMaxedGrows(a: Activity, cards: Cards, scope: set<nat>, done: set<nat>, e: nat, x: nat)
    requires x !in done && x in scope
    ensures var before := MaxedStats(a, Direct(cards, scope, e), done);
      MaxedStats(a, Direct(cards, scope, e), done + {x}) ==
        if x in cards && cards[x] == e then MaxGroup(before, Tally(StateRows(a.states), {x})) else before
  {
    MaxedGrows(a, Direct(cards, scope, e), done, x);
  }

  lemma MaxedGroupIsCombined(events: Facts, f: Facts, group: Facts)
    requires f.events == 0 && f.first == None && group.events == 0 && group.first == None
    ensures Played(Combine(events, Combine(f, group))) == MaxGroup(Played(Combine(events, f)), group)
  {
  }

  /** What is noted for `x` while the state groups `done` have been read. */
  ghost predicate NotedSoFar(a: Activity, done: set<nat>, noted: map<nat, int>, played: map<nat, int>, x: nat) {
    Lookup(played, x) == if x in done then ActivityTally(a, {x}).activity else Lookup(noted, x)
  }

  lemma NotedGrows(a: Activity, done: set<nat>, noted: map<nat, int>, played: map<nat, int>, x: nat, y: nat)
    requires NotedSoFar(a, done, noted, played, y) && x !in done
    requires Lookup(noted, y) == Tally(EventRows(a.events), {y}).activity
    ensures NotedSoFar(a, done + {x}, noted, Note(played, x, Tally(StateRows(a.states), {x}).activity), y)
  {
  }

  /** The invariant of the second query's loop. */
  ghost predicate StatesRead(a: Activity, cards: Cards, scope: set<nat>, done: set<nat>, stats: Summary,
                             noted: map<nat, int>, played: map<nat, int>) {
    && (forall e {:trigger stats[e]} :: e in stats ==> stats[e] == MaxedStats(a, Direct(cards, scope, e), done))
    && (forall x {:trigger NotedSoFar(a, done, noted, played, x)} :: x in scope ==>
          NotedSoFar(a, done, noted, played, x))
  }

  function MaxInto(stats: Summary, cards: Cards, x: nat, group: Facts): Summary {
    if x in cards && cards[x] in stats then stats[cards[x] := MaxGroup(stats[cards[x]], group)] else stats
  }

  lemma AllMaxedGrow(a: Activity, cards: Cards, scope: set<nat>, done: set<nat>, stats: Summary, x: nat)
    requires forall e :: e in stats ==> stats[e] == MaxedStats(a, Direct(cards, scope, e), done)
    requires x !in done && x in scope
    ensures var more := MaxInto(stats, cards, x, Tally(StateRows(a.states), {x}));
      forall e :: e in more ==> more[e] == MaxedStats(a, Direct(cards, scope, e), done + {x})
  {
    forall e | e in stats
      ensures MaxedStats(a, Direct(cards, scope, e), done + {x}) ==
        if x in cards && cards[x] == e then MaxGroup(stats[e], Tally(StateRows(a.states), {x})) else stats[e]
    {
      CardMaxedGrows(a, cards, scope, done, e, x);
    }
  }

  lemma StatesReadGrows(a: Activity, cards: Cards, scope: set<nat>, done: set<nat>, stats: Summary,
                        noted: map<nat, int>, played: map<nat, int>, x: nat)
    requires StatesRead(a, cards, scope, done, stats, noted, played) && x !in done && x in scope
    requires forall y :: y in scope ==> Lookup(noted, y) == Tally(EventRows(a.events), {y}).activity
    ensures
      var group := Tally(StateRows(a.states), {x});
      StatesRead(a, cards, scope, done + {x}, MaxInto(stats, cards, x, group), noted, Note(played, x, group.activity))
  {
    var group := Tally(StateRows(a.states), {x});
    AllMaxedGrow(a, cards, scope, done, stats, x);
    forall y | y in scope
      ensures NotedSoFar(a, done + {x}, noted, Note(played, x, group.activity), y)
    {
      NotedGrows(a, done, noted, played, x, y);
    }
  }

  lemma NoStatesRead(a: Activity, cards: Cards, scope: set<nat>, counted: Summary, noted: map<nat, int>)
    requires forall e :: e in counted ==> counted[e] == Played(Tally(EventRows(a.events), Direct(cards, scope, e)))
    ensures StatesRead(a, cards, scope, {}, counted, noted, noted)
  {
    forall e | e in counted
      ensures counted[e] == MaxedStats(a, Direct(cards, scope, e), {})
    {
      TallyOfNobody(StateRows(a.states));
      assert Direct(cards, scope, e) * {} == {};
      CombineNothing(Tally(EventRows(a.events), Direct(cards, scope, e)));
    }
  }

  /** The second grouped query: watch states per item. */
  method AddStates(a: Activity, cards: Cards, scope: set<nat>, entries: set<nat>,
                   counted: Summary, noted: map<nat, int>)
      returns (stats: Summary, played: map<nat, int>)
    requires counted.Keys == entries && noted.Keys <= scope
    requires forall e :: e in entries ==> counted[e] == Played(Tally(EventRows(a.events), Direct(cards, scope, e)))
    requires forall x :: x in scope ==> Lookup(noted, x) == Tally(EventRows(a.events), {x}).activity
    ensures stats.Keys == entries
    ensures forall e :: e in entries ==> stats[e] == Played(ActivityTally(a, Direct(cards, scope, e)))
    ensures played.Keys <= scope
    ensures forall x :: x in scope ==> Lookup(played, x) == ActivityTally(a, {x}).activity
  {
    stats := counted;
    played := noted;
    ghost var groups := RowItems(StateRows(a.states)) * scope;
    var pending := RowItems(StateRows(a.states)) * scope;
    ghost var done: set<nat> := {};
    NoStatesRead(a, cards, scope, counted, noted);
    while pending != {}
      invariant done !! pending && done + pending == groups
      invariant stats.Keys == entries && played.Keys <= scope
      invariant StatesRead(a, cards, scope, done, stats, noted, played)
      decreases pending
    {
      var x :| x in pending;
      StatesReadGrows(a, cards, scope, done, stats, noted, played, x);
      var group := Tally(StateRows(a.states), {x});
      stats := MaxInto(stats, cards, x, group);
      played := Note(played, x, group.activity);
      pending := pending - {x};
      done := done + {x};
    }
    StatesReadComplete(a, cards, scope, stats, noted, played);
  }

  lemma StatesReadComplete(a: Activity, cards: Cards, scope: set<nat>, stats: Summary,
                           noted: map<nat, int>, played: map<nat, int>)
    requires StatesRead(a, cards, scope, RowItems(StateRows(a.states)) * scope, stats, noted, played)
    requires forall x :: x in scope ==> Lookup(noted, x) == Tally(EventRows(a.events), {x}).activity
    ensures forall e :: e in stats ==> stats[e] == Played(ActivityTally(a, Direct(cards, scope, e)))
    ensures forall x :: x in scope ==> Lookup(played, x) == ActivityTally(a, {x}).activity
  {
    var done := RowItems(StateRows(a.states)) * scope;
    forall e | e in stats
      ensures stats[e] == Played(ActivityTally(a, Direct(cards, scope, e)))
    {
      assert stats[e] == MaxedStats(a, Direct(cards, scope, e), done);
      TallyOverSelected(StateRows(a.states), Direct(cards, scope, e), scope);
    }
    forall x | x in scope
      ensures Lookup(played, x) == ActivityTally(a, {x}).activity
    {
      assert NotedSoFar(a, done, noted, played, x);
      if x !in done {
        UnselectedIsUnplayed(StateRows(a.states), x);
      }
    }
  }

  // ----- Last playback, spread to every card above -----

  function PlayedAt(s: Stats, at: int): Stats {
    s.(lastPlayed := Latest(s.lastPlayed, Some(at)))
  }

  /** One walk to the root dates every card it meets, each as often as it meets it. */
  method SpreadOne(items: Items, cards: Cards, scope: set<nat>, start: nat, at: int, before: Summary)
      returns (stats: Summary)
    ensures stats.Keys == before.Keys
    ensures forall e :: e in before ==>
      stats[e] == if Chain(items, scope, Some(start), {}) * Direct(cards, scope, e) != {} then PlayedAt(before[e], at)
                  else before[e]
  {
    stats := before;
    var current: Option<nat> := Some(start);
    var visited: set<nat> := {};
    while current.Some? && current.value !in visited
      invariant stats.Keys == before.Keys
      invariant Chain(items, scope, Some(start), {}) == visited + Chain(items, scope, current, visited)
      invariant forall e {:trigger stats[e]} :: e in before ==>
        stats[e] == if visited * Direct(cards, scope, e) != {} then PlayedAt(before[e], at) else before[e]
      decreases scope - visited, current.Some?
    {
      var x := current.value;
      assert x !in scope ==> scope - (visited + {x}) == scope - visited;
      forall e
        ensures (visited + {x}) * Direct(cards, scope, e) ==
                visited * Direct(cards, scope, e) + if x in Direct(cards, scope, e) then {x} else {}
      {
      }
      if x in scope && x in cards && cards[x] in stats {
        stats := stats[cards[x] := PlayedAt(stats[cards[x]], at)];
      }
      visited := visited + {x};
      current := Up(items, scope, x);
    }
  }

  ghost predicate Dated(a: Activity, reaching: set<nat>, done: set<nat>, base: Stats, s: Stats) {
    s == base.(lastPlayed := ActivityTally(a, reaching * done).activity)
  }

  lemma DatedGrows(a: Activity, reaching: set<nat>, done: set<nat>, base: Stats, s: Stats, x: nat, at: int)
    requires Dated(a, reaching, done, base, s) && x !in done && ActivityTally(a, {x}).activity == Some(at)
    ensures Dated(a, reaching, done + {x}, base, if x in reaching then PlayedAt(s, at) else s)
  {
    if x in reaching {
      assert reaching * (done + {x}) == reaching * done + {x};
      ActivityTallyUnion(a, reaching * done, {x});
    } else {
      assert reaching * (done + {x}) == reaching * done;
    }
  }

  lemma DatedComplete(a: Activity, reaching: set<nat>, scope: set<nat>, done: set<nat>, base: Stats, s: Stats)
    requires Dated(a, reaching, done, base, s) && reaching <= scope
    requires forall x :: x in scope && x !in done ==> Unplayed(a, x)
    ensures s == base.(lastPlayed := ActivityTally(a, reaching).activity)
  {
    UnplayedAddsNothing(a, reaching * done, reaching);
  }

  /** The invariant of the loop over played items. */
  ghost predicate Spread(items: Items, a: Activity, cards: Cards, scope: set<nat>, done: set<nat>,
                         before: Summary, stats: Summary) {
    && stats.Keys == before.Keys
    && forall e {:trigger stats[e]} :: e in before ==>
         Dated(a, Reaching(items, cards, scope, e), done, before[e], stats[e])
  }

  lemma NothingSpread(items: Items, a: Activity, cards: Cards, scope: set<nat>, before: Summary)
    requires forall e :: e in before ==> before[e].lastPlayed == None
    ensures Spread(items, a, cards, scope, {}, before, before)
  {
    forall e | e in before
      ensures Dated(a, Reaching(items, cards, scope, e), {}, before[e], before[e])
    {
      assert Reaching(items, cards, scope, e) * {} == {};
      TallyOfNobody(EventRows(a.events));
      TallyOfNobody(StateRows(a.states));
    }
  }

  lemma SpreadGrows(items: Items, a: Activity, cards: Cards, scope: set<nat>, done: set<nat>, before: Summary,
                    stats: Summary, x: nat, at: int, next: Summary)
    requires Spread(items, a, cards, scope, done, before, stats)
    requires x !in done && x in scope && ActivityTally(a, {x}).activity == Some(at) && next.Keys == stats.Keys
    requires forall e :: e in stats ==>
      next[e] == if Chain(items, scope, Some(x), {}) * Direct(cards, scope, e) != {} then PlayedAt(stats[e], at)
                 else stats[e]
    ensures Spread(items, a, cards, scope, done + {x}, before, next)
  {
    forall e | e in before
      ensures Dated(a, Reaching(items, cards, scope, e), done + {x}, before[e], next[e])
    {
      DatedGrows(a, Reaching(items, cards, scope, e), done, before[e], stats[e], x, at);
    }
  }

  lemma SpreadComplete(items: Items, a: Activity, cards: Cards, scope: set<nat>, done: set<nat>, before: Summary, stats: Summary)
    requires Spread(items, a, cards, scope, done, before, stats)
    requires forall x :: x in scope && x !in done ==> Unplayed(a, x)
    ensures forall e :: e in before ==>
      stats[e] == before[e].(lastPlayed := ActivityTally(a, Reaching(items, cards, scope, e)).activity)
  {
    forall e | e in before
      ensures stats[e] == before[e].(lastPlayed := ActivityTally(a, Reaching(items, cards, scope, e)).activity)
    {
      DatedComplete(a, Reaching(items, cards, scope, e), scope, done, before[e], stats[e]);
    }
  }

  /** Every played item dates every card above it. */
  method SpreadActivity(items: Items, a: Activity, cards: Cards, scope: set<nat>, before: Summary, played: map<nat, int>)
      returns (stats: Summary)
    requires played.Keys <= scope
    requires forall x :: x in scope ==> Lookup(played, x) == ActivityTally(a, {x}).activity
    requires forall e :: e in before ==> before[e].lastPlayed == None
    ensures stats.Keys == before.Keys
    ensures forall e :: e in before ==>
      stats[e] == before[e].(lastPlayed := ActivityTally(a, Reaching(items, cards, scope, e)).activity)
  {
    stats := before;
    var pending := played.Keys;
    ghost var done: set<nat> := {};
    NothingSpread(items, a, cards, scope, before);
    while pending != {}
      invariant done !! pending && done + pending == played.Keys
      invariant Spread(items, a, cards, scope, done, before, stats)
      decreases pending
    {
      var x :| x in pending;
      assert Lookup(played, x) == Some(played[x]);
      ghost var earlier := stats;
      stats := SpreadOne(items, cards, scope, x, played[x], stats);
      SpreadGrows(items, a, cards, scope, done, before, earlier, x, played[x], stats);
      pending := pending - {x};
      done := done + {x};
    }
    forall x | x in scope && x !in done
      ensures Unplayed(a, x)
    {
      assert Lookup(played, x) == None;
    }
    SpreadComplete(items, a, cards, scope, done, before, stats);
  }

  // ----- Episodes of a show -----

  /** The walk that looks for the show of an episode. */
  method FindShow(items: Items, scope: set<nat>, start: nat) returns (show: Option<nat>)
    ensures show == NearestShow(items, scope, Some(start), {})
  {
    var current: Option<nat> := Some(start);
    var visited: set<nat> := {};
    while current.Some? && current.value !in visited
      invariant NearestShow(items, scope, Some(start), {}) == NearestShow(items, scope, current, visited)
      decreases scope - visited, current.Some?
    {
      var x := current.value;
      assert x !in scope ==> scope - (visited + {x}) == scope - visited;
      if x in items && x in scope && items[x].kind == Show {
        return Some(x);
      }
      visited := visited + {x};
      current := Up(items, scope, x);
    }
    return None;
  }

  function Grouped(groups: map<nat, set<nat>>, e: nat): set<nat> {
    if e in groups then groups[e] else {}
  }

  ghost function ChildCardsAmong(t: Identity, cards: Cards, scope: set<nat>, done: set<nat>, e: nat): set<nat> {
    set x | x in done && x in cards && ShowCard(t, cards, scope, x) == Some(e) :: cards[x]
  }

  method GroupEpisodes(t: Identity, cards: Cards, scope: set<nat>) returns (groups: map<nat, set<nat>>)
    ensures forall e: nat :: Grouped(groups, e) == ChildCards(t, cards, scope, e)
  {
    groups := map[];
    ghost var episodes := set x | x in scope && AvailableEpisode(t, x);
    var pending := set x | x in scope && AvailableEpisode(t, x);
    ghost var done: set<nat> := {};
    while pending != {}
      invariant done !! pending && done + pending == episodes
      invariant forall e: nat {:trigger Grouped(groups, e)} :: Grouped(groups, e) == ChildCardsAmong(t, cards, scope, done, e)
      decreases pending
    {
      var x :| x in pending;
      var show := FindShow(t.items, scope, x);
      ghost var before := groups;
      if show.Some? && show.value in cards && x in cards {
        var e := cards[show.value];
        groups := groups[e := Grouped(groups, e) + {cards[x]}];
      }
      forall e: nat
        ensures Grouped(groups, e) == ChildCardsAmong(t, cards, scope, done + {x}, e)
      {
        assert Grouped(before, e) == ChildCardsAmong(t, cards, scope, done, e);
        assert ChildCardsAmong(t, cards, scope, done + {x}, e) == ChildCardsAmong(t, cards, scope, done, e)
          + if x in cards && ShowCard(t, cards, scope, x) == Some(e) then {cards[x]} else {};
      }
      pending := pending - {x};
      done := done + {x};
    }
    forall e: nat
      ensures Grouped(groups, e) == ChildCards(t, cards, scope, e)
    {
      assert ChildCardsAmong(t, cards, scope, done, e) == ChildCards(t, cards, scope, e);
    }
  }

  predicate HasCompletion(stats: Summary, stored: map<nat, nat>, e: nat) {
    if e in stats then stats[e].completion > 0 else e in stored && stored[e] > 0
  }

  method CountCompleted(stats: Summary, stored: map<nat, nat>, children: set<nat>) returns (count: nat)
    ensures count == |set e | e in children && HasCompletion(stats, stored, e)|
  {
    count := 0;
    var pending := children;
    ghost var counted: set<nat> := {};
    while pending != {}
      invariant pending <= children && counted <= children - pending && count == |counted|
      invariant forall e {:trigger e in counted} :: e in children && e !in pending ==>
        (e in counted <==> HasCompletion(stats, stored, e))
      decreases pending
    {
      var e :| e in pending;
      pending := pending - {e};
      if HasCompletion(stats, stored, e) {
        count := count + 1;
        counted := counted + {e};
      }
    }
    assert counted == set e | e in children && HasCompletion(stats, stored, e);
  }

  method CountChildren(before: Summary, stored: map<nat, nat>, groups: map<nat, set<nat>>) returns (stats: Summary)
    requires forall e :: e in before ==> before[e].children == 0 && before[e].completedChildren == 0
    ensures stats.Keys == before.Keys
    ensures forall e :: e in before ==>
      stats[e] == before[e].(
        children := |Grouped(groups, e)|,
        completedChildren := |set c | c in Grouped(groups, e) && HasCompletion(before, stored, c)|)
  {
    stats := before;
    var pending := groups.Keys * before.Keys;
    while pending != {}
      invariant pending <= groups.Keys * before.Keys && stats.Keys == before.Keys
      invariant forall e :: e in before ==>
        stats[e] == if e in pending || e !in groups then before[e]
                    else before[e].(
                      children := |groups[e]|,
                      completedChildren := |set c | c in groups[e] && HasCompletion(before, stored, c)|)
      decreases pending
    {
      var e :| e in pending;
      var completed := CountCompleted(stats, stored, groups[e]);
      assert (set c | c in groups[e] && HasCompletion(stats, stored, c))
          == (set c | c in groups[e] && HasCompletion(before, stored, c));
      stats := stats[e := stats[e].(children := |groups[e]|, completedChildren := completed)];
      pending := pending - {e};
    }
    forall e | e in before && e !in groups
      ensures |set c | c in Grouped(groups, e) && HasCompletion(before, stored, c)| == 0
    {
      assert (set c | c in Grouped(groups, e) && HasCompletion(before, stored, c)) == {};
    }
  }

  ghost function WithoutChildren(t: Identity, a: Activity, cards: Cards, scope: set<nat>, e: nat): Stats {
    Played(ActivityTally(a, Direct(cards, scope, e))).(
      lastPlayed := ActivityTally(a, Reaching(t.items, cards, scope, e)).activity)
  }

  lemma JudgedAlike(t: Identity, a: Activity, cards: Cards, scope: set<nat>, stored: map<nat, nat>,
                    dated: Summary, children: set<nat>)
    requires forall e :: e in dated ==> dated[e] == WithoutChildren(t, a, cards, scope, e)
    ensures (set c | c in children && HasCompletion(dated, stored, c))
         == CompletedCards(a, cards, scope, dated.Keys, stored, children)
  {
    forall c: nat
      ensures HasCompletion(dated, stored, c) <==> Completed(a, cards, scope, dated.Keys, stored, c)
    {
      if c in dated {
        assert dated[c] == WithoutChildren(t, a, cards, scope, c);
      }
    }
  }

  /** The shared computation: `scope` holds the loaded items, `entries` the cards to recompute. */
  method Summarise(t: Identity, a: Activity, cards: Cards, scope: set<nat>, entries: set<nat>, stored: map<nat, nat>)
      returns (stats: Summary)
    ensures stats.Keys == entries
    ensures forall e :: e in entries ==> stats[e] == StatsOf(t, a, cards, scope, entries, stored, e)
  {
    var counted, noted := AddEvents(a.events, cards, scope, entries);
    var merged, played := AddStates(a, cards, scope, entries, counted, noted);
    var dated := SpreadActivity(t.items, a, cards, scope, merged, played);
    assert forall e :: e in dated ==> dated[e] == WithoutChildren(t, a, cards, scope, e);
    var groups := GroupEpisodes(t, cards, scope);
    stats := CountChildren(dated, stored, groups);
    forall e | e in entries
      ensures stats[e] == StatsOf(t, a, cards, scope, entries, stored, e)
    {
      assert Grouped(groups, e) == ChildCards(t, cards, scope, e);
      JudgedAlike(t, a, cards, scope, stored, dated, ChildCards(t, cards, scope, e));
    }
  }
}
