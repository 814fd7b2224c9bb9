/** Playback rows and the aggregates SQL computes over them, as one algebra of facts. */
module Playback {
  import opened Catalog

  datatype WatchEvent = WatchEvent(item: nat, watchedAt: int, completed: bool)

  /** What one server is known to say about one item. */
  datatype State = State(
    viewCount: nat, completed: bool, lastWatched: Option<int>, lastPlayed: Option<int>,
    progress: Option<nat>, observed: int)

  datatype WatchState = WatchState(item: nat, source: nat, state: State)

  datatype Activity = Activity(events: seq<WatchEvent>, states: seq<WatchState>)

  function Max(a: nat, b: nat): nat {
    if a < b then b else a
  }

  function Latest(a: Option<int>, b: Option<int>): Option<int> {
    if a.None? then b else if b.None? then a else if a.value >= b.value then a else b
  }

  function Earliest(a: Option<int>, b: Option<int>): Option<int> {
    if a.None? then b else if b.None? then a else if a.value <= b.value then a else b
  }

  datatype Facts = Facts(
    events: nat, first: Option<int>, lastCompleted: Option<int>,
    views: nat, progress: nat, activity: Option<int>)

  const ZERO := Facts(0, None, None, 0, 0, None)

  function Combine(a: Facts, b: Facts): Facts {
    Facts(a.events + b.events, Earliest(a.first, b.first), Latest(a.lastCompleted, b.lastCompleted),
          Max(a.views, b.views), Max(a.progress, b.progress), Latest(a.activity, b.activity))
  }

  /** What one row contributes to the facts of its item. */
  datatype Contribution = Contribution(item: nat, facts: Facts)

  /** A completed event is one completion, and its date is both a completion and a playback. */
  function EventContribution(e: WatchEvent): Contribution {
    Contribution(e.item, Facts(1, Some(e.watchedAt), Some(e.watchedAt), 0, 0, Some(e.watchedAt)))
  }

  /** A completion date counts as playback; the resume position counts only while unfinished. */
  function StateContribution(w: WatchState): Contribution {
    var s := w.state;
    var completedAt := if s.completed then s.lastWatched else None;
    Contribution(w.item,
      Facts(0, None, completedAt,
            if s.completed then s.viewCount else 0,
            if s.completed then 0 else s.progress.GetOr(0),
            Latest(s.lastPlayed, completedAt)))
  }

  /** Only completed events are selected. */
  function EventRows(events: seq<WatchEvent>): seq<Contribution> {
    if events == [] then []
    else (if events[0].completed then [EventContribution(events[0])] else []) + EventRows(events[1..])
  }

  function StateRows(states: seq<WatchState>): seq<Contribution> {
    if states == [] then [] else [StateContribution(states[0])] + StateRows(states[1..])
  }

  /** The aggregate over the rows of the given items. */
  function Tally(rows: seq<Contribution>, items: set<nat>): Facts {
    if rows == [] then ZERO
    else Combine(Head(rows[0], items), Tally(rows[1..], items))
  }

  function Head(row: Contribution, items: set<nat>): Facts {
    if row.item in items then row.facts else ZERO
  }

  function ActivityTally(a: Activity, items: set<nat>): Facts {
    Combine(Tally(EventRows(a.events), items), Tally(StateRows(a.states), items))
  }

  function RowItems(rows: seq<Contribution>): set<nat> {
    set r | r in rows :: r.item
  }

  // ----- Laws -----

  lemma LatestRegroups(a: Option<int>, b: Option<int>, c: Option<int>, d: Option<int>)
    ensures Latest(Latest(a, b), Latest(c, d)) == Latest(Latest(a, c), Latest(b, d))
    ensures Earliest(Earliest(a, b), Earliest(c, d)) == Earliest(Earliest(a, c), Earliest(b, d))
  {
  }

  lemma CombineRegroups(a: Facts, b: Facts, c: Facts, d: Facts)
    ensures Combine(Combine(a, b), Combine(c, d)) == Combine(Combine(a, c), Combine(b, d))
  {
    LatestRegroups(a.first, b.first, c.first, d.first);
    LatestRegroups(a.lastCompleted, b.lastCompleted, c.lastCompleted, d.lastCompleted);
    LatestRegroups(a.activity, b.activity, c.activity, d.activity);
  }

  lemma CombineNothing(f: Facts)
    ensures Combine(f, ZERO) == f == Combine(ZERO, f)
  {
  }

  lemma CombineAssociates(a: Facts, b: Facts, c: Facts)
    ensures Combine(Combine(a, b), c) == Combine(a, Combine(b, c))
  {
    CombineRegroups(a, b, ZERO, c);
    CombineNothing(a);
    CombineNothing(c);
  }

  lemma {:induction false} TallyUnion(rows: seq<Contribution>, a: set<nat>, b: set<nat>)
    requires a !! b
    ensures Tally(rows, a + b) == Combine(Tally(rows, a), Tally(rows, b))
  {
    if rows != [] {
      TallyUnion(rows[1..], a, b);
      HeadUnion(rows[0], a, b);
      CombineRegroups(Head(rows[0], a), Head(rows[0], b), Tally(rows[1..], a), Tally(rows[1..], b));
    }
  }

  lemma HeadUnion(row: Contribution, a: set<nat>, b: set<nat>)
    requires a !! b
    ensures Head(row, a + b) == Combine(Head(row, a), Head(row, b))
  {
    CombineNothing(row.facts);
  }

  lemma {:induction false} TallyConcat(front: seq<Contribution>, back: seq<Contribution>, items: set<nat>)
    ensures Tally(front + back, items) == Combine(Tally(front, items), Tally(back, items))
  {
    if front == [] {
      assert front + back == back;
      CombineNothing(Tally(back, items));
    } else {
      assert (front + back)[1..] == front[1..] + back;
      TallyConcat(front[1..], back, items);
      CombineAssociates(Head(front[0], items), Tally(front[1..], items), Tally(back, items));
    }
  }

  lemma {:induction false} EventRowsConcat(x: seq<WatchEvent>, y: seq<WatchEvent>)
    ensures EventRows(x + y) == EventRows(x) + EventRows(y)
  {
    if x == [] {
      assert x + y == y;
    } else {
      var first := if x[0].completed then [EventContribution(x[0])] else [];
      assert (x + y)[1..] == x[1..] + y;
      EventRowsConcat(x[1..], y);
      assert EventRows(x + y) == first + EventRows(x[1..] + y);
      assert EventRows(x) == first + EventRows(x[1..]);
    }
  }

  lemma {:induction false} StateRowsConcat(x: seq<WatchState>, y: seq<WatchState>)
    ensures StateRows(x + y) == StateRows(x) + StateRows(y)
  {
    if x == [] {
      assert x + y == y;
    } else {
      assert (x + y)[1..] == x[1..] + y;
      StateRowsConcat(x[1..], y);
    }
  }

  /** Items without rows do not matter. */
  lemma {:induction false} TallyRelevant(rows: seq<Contribution>, a: set<nat>, b: set<nat>)
    requires a * RowItems(rows) == b * RowItems(rows)
    ensures Tally(rows, a) == Tally(rows, b)
  {
    if rows != [] {
      var x := rows[0].item;
      assert rows[0] in rows && x in RowItems(rows);
      assert x in a <==> x in a * RowItems(rows);
      assert forall r :: r in rows[1..] ==> r in rows;
      assert a * RowItems(rows[1..]) == (a * RowItems(rows)) * RowItems(rows[1..]);
      assert b * RowItems(rows[1..]) == (b * RowItems(rows)) * RowItems(rows[1..]);
      TallyRelevant(rows[1..], a, b);
    }
  }

  lemma UnselectedIsUnplayed(rows: seq<Contribution>, x: nat)
    requires x !in RowItems(rows)
    ensures Tally(rows, {x}) == ZERO
  {
    TallyRelevant(rows, {x}, {});
    TallyOfNobody(rows);
  }

  lemma ActivityTallyUnion(a: Activity, x: set<nat>, y: set<nat>)
    requires x !! y
    ensures ActivityTally(a, x + y) == Combine(ActivityTally(a, x), ActivityTally(a, y))
  {
    TallyUnion(EventRows(a.events), x, y);
    TallyUnion(StateRows(a.states), x, y);
    CombineRegroups(Tally(EventRows(a.events), x), Tally(EventRows(a.events), y),
                    Tally(StateRows(a.states), x), Tally(StateRows(a.states), y));
  }

  lemma {:induction false} TallyOfNobody(rows: seq<Contribution>)
    ensures Tally(rows, {}) == ZERO
  {
    if rows != [] {
      TallyOfNobody(rows[1..]);
    }
  }

  /** Two activity tables that agree item by item agree on every set of items. */
  lemma {:induction false} TallyIsItemwise(a: Activity, b: Activity, items: set<nat>)
    requires forall x :: x in items ==> ActivityTally(a, {x}) == ActivityTally(b, {x})
    ensures ActivityTally(a, items) == ActivityTally(b, items)
    decreases |items|
  {
    if items == {} {
      TallyOfNobody(EventRows(a.events));
      TallyOfNobody(EventRows(b.events));
      TallyOfNobody(StateRows(a.states));
      TallyOfNobody(StateRows(b.states));
    } else {
      var x :| x in items;
      var rest := items - {x};
      assert items == rest + {x};
      ActivityTallyUnion(a, rest, {x});
      ActivityTallyUnion(b, rest, {x});
      TallyIsItemwise(a, b, rest);
    }
  }

  ghost predicate Unplayed(a: Activity, x: nat) {
    ActivityTally(a, {x}).activity == None
  }

  /** Items that were never played add nothing to the last playback of a set. */
  lemma {:induction false} UnplayedAddsNothing(a: Activity, some: set<nat>, all: set<nat>)
    requires some <= all
    requires forall x :: x in all && x !in some ==> Unplayed(a, x)
    ensures ActivityTally(a, all).activity == ActivityTally(a, some).activity
    decreases |all|
  {
    var extra := all - some;
    if extra == {} {
      assert all == some;
    } else {
      var x :| x in extra;
      UnplayedItemAddsNothing(a, all - {x}, x);
      assert all == (all - {x}) + {x};
      UnplayedAddsNothing(a, some, all - {x});
    }
  }

  lemma UnplayedItemAddsNothing(a: Activity, items: set<nat>, x: nat)
    requires x !in items && Unplayed(a, x)
    ensures ActivityTally(a, items + {x}).activity == ActivityTally(a, items).activity
  {
    ActivityTallyUnion(a, items, {x});
  }

  lemma {:induction false} EventTallyShape(events: seq<WatchEvent>, items: set<nat>)
    ensures var f := Tally(EventRows(events), items);
      f.views == 0 && f.progress == 0 && f.activity == f.lastCompleted
  {
    if events != [] {
      assert EventRows(events) ==
        (if events[0].completed then [EventContribution(events[0])] else []) + EventRows(events[1..]);
      if events[0].completed {
        assert EventRows(events)[1..] == EventRows(events[1..]);
      } else {
        assert EventRows(events) == EventRows(events[1..]);
      }
      EventTallyShape(events[1..], items);
    }
  }

  lemma {:induction false} StateTallyShape(states: seq<WatchState>, items: set<nat>)
    ensures var f := Tally(StateRows(states), items);
      f.events == 0 && f.first == None
  {
    if states != [] {
      assert StateRows(states)[1..] == StateRows(states[1..]);
      StateTallyShape(states[1..], items);
    }
  }

  // ----- Row writes -----

  /** Replacing one stretch of rows changes the facts of only the items those rows name. */
  lemma SplicedRows(front: seq<Contribution>, before: seq<Contribution>, after: seq<Contribution>,
                    back: seq<Contribution>, x: nat)
    requires x !in RowItems(before) && x !in RowItems(after)
    ensures Tally(front + before + back, {x}) == Tally(front + after + back, {x})
  {
    SilentRows(front, before, back, x);
    SilentRows(front, after, back, x);
  }

  lemma SilentRows(front: seq<Contribution>, rows: seq<Contribution>, back: seq<Contribution>, x: nat)
    requires x !in RowItems(rows)
    ensures Tally(front + rows + back, {x}) == Combine(Tally(front, {x}), Tally(back, {x}))
  {
    TallyConcat(front + rows, back, {x});
    SilentTail(front, rows, x);
  }

  lemma SilentTail(front: seq<Contribution>, rows: seq<Contribution>, x: nat)
    requires x !in RowItems(rows)
    ensures Tally(front + rows, {x}) == Tally(front, {x})
  {
    TallyConcat(front, rows, {x});
    UnselectedIsUnplayed(rows, x);
    CombineNothing(Tally(front, {x}));
  }

  // ----- Extremes of a set -----

  ghost predicate IsLatest(dates: set<int>, d: Option<int>) {
    match d
    case None => dates == {}
    case Some(at) => at in dates && forall x :: x in dates ==> x <= at
  }

  ghost predicate IsEarliest(dates: set<int>, d: Option<int>) {
    match d
    case None => dates == {}
    case Some(at) => at in dates && forall x :: x in dates ==> at <= x
  }

  /** The greatest, or 0 if there is none. */
  ghost predicate IsGreatest(numbers: set<nat>, n: nat) {
    (n in numbers || n == 0) && forall m :: m in numbers ==> m <= n
  }

  lemma LatestOfUnion(x: set<int>, y: set<int>, a: Option<int>, b: Option<int>)
    requires IsLatest(x, a) && IsLatest(y, b)
    ensures IsLatest(x + y, Latest(a, b))
  {
  }

  lemma GreatestOnce(numbers: set<nat>, m: nat, n: nat)
    requires IsGreatest(numbers, m) && IsGreatest(numbers, n)
    ensures m == n
  {
  }

  lemma EarliestOnce(dates: set<int>, d: Option<int>, e: Option<int>)
    requires IsEarliest(dates, d) && IsEarliest(dates, e)
    ensures d == e
  {
  }

  lemma LatestOnce(dates: set<int>, d: Option<int>, e: Option<int>)
    requires IsLatest(dates, d) && IsLatest(dates, e)
    ensures d == e
  {
  }
}
