/** Seasons, shows, albums and artists take their watch state from the playable items below them. */
module Containers {
  import opened Catalog
  import opened Playback
  import opened WatchStates

  /** What is known about one playable item: its completions and the last of them. */
  datatype Known = Known(count: nat, last: Option<int>)

  type Parents = map<nat, Option<nat>>
  type Facts = map<nat, Known>

  /** The state row decides when there is one; otherwise the stored events do. */
  function KnownOf(t: Table, source: nat, events: Facts, x: nat): Known {
    if (x, source) in t then
      var s := t[(x, source)];
      if s.completed then Known(s.viewCount, s.lastWatched) else Known(0, None)
    else if x in events then events[x]
    else Known(0, None)
  }

  // ----- Aggregation -----

  function LatestOf(list: seq<Known>): Option<int> {
    if list == [] then None else Latest(list[0].last, LatestOf(list[1..]))
  }

  function LeastCount(list: seq<Known>): nat
    requires list != []
  {
    if |list| == 1 then list[0].count
    else
      var rest := LeastCount(list[1..]);
      if list[0].count < rest then list[0].count else rest
  }

  /** Nothing counts until every child does; then the child seen least often decides. */
  function AggregateCompletion(list: seq<Known>): Known {
    if list == [] || exists k :: k in list && k.count == 0 then Known(0, LatestOf(list))
    else Known(LeastCount(list), LatestOf(list))
  }

  ghost predicate IsLatest(dates: set<Option<int>>, m: Option<int>) {
    (forall d :: d in dates ==> NotBefore(d, m)) && (m.Some? ==> m in dates)
  }

  ghost function Dates(facts: set<Known>): set<Option<int>> {
    set k | k in facts :: k.last
  }

  /** The count and date of a container whose children are known by `facts`. */
  ghost predicate Aggregated(facts: set<Known>, r: Known) {
    && (r.count > 0 <==> facts != {} && forall k :: k in facts ==> k.count > 0)
    && (r.count > 0 ==> (forall k :: k in facts ==> r.count <= k.count) && exists k :: k in facts && k.count == r.count)
    && IsLatest(Dates(facts), r.last)
  }

  function Listed(list: seq<Known>): set<Known> {
    set k | k in list
  }

  lemma {:induction false} LatestOfIsLatest(list: seq<Known>)
    ensures IsLatest(Dates(Listed(list)), LatestOf(list))
  {
    if list != [] {
      LatestOfIsLatest(list[1..]);
      assert Listed(list) == {list[0]} + Listed(list[1..]);
      assert Dates(Listed(list)) == {list[0].last} + Dates(Listed(list[1..]));
    }
  }

  lemma {:induction false} LeastCountIsLeast(list: seq<Known>)
    requires list != []
    ensures forall k :: k in list ==> LeastCount(list) <= k.count
    ensures exists k :: k in list && k.count == LeastCount(list)
  {
    if |list| == 1 {
      assert list[0] in list;
    } else {
      LeastCountIsLeast(list[1..]);
      assert list[0] in list && list == [list[0]] + list[1..];
      var k :| k in list[1..] && k.count == LeastCount(list[1..]);
      assert k in list;
    }
  }

  lemma AggregateIsAggregated(list: seq<Known>)
    ensures Aggregated(Listed(list), AggregateCompletion(list))
  {
    LatestOfIsLatest(list);
    if list != [] {
      assert list[0] in Listed(list);
      LeastCountIsLeast(list);
    }
  }

  lemma AggregatedIsUnique(facts: set<Known>, x: Known, y: Known)
    requires Aggregated(facts, x) && Aggregated(facts, y)
    ensures x == y
  {
  }

  lemma LatestOfUnion(xs: set<Option<int>>, m: Option<int>, ys: set<Option<int>>, n: Option<int>)
    requires IsLatest(xs, m) && IsLatest(ys, n)
    ensures IsLatest(xs + ys, Latest(m, n))
  {
  }

  // ----- Who stands below whom -----

  ghost function Children(playable: Parents, p: nat): set<nat> {
    set x | x in playable && playable[x] == Some(p)
  }

  ghost function Grandchildren(playable: Parents, parents: Parents, g: nat): set<nat> {
    set x | x in playable && playable[x].Some? && playable[x].value in parents && parents[playable[x].value] == Some(g)
  }

  ghost function KnownAll(t: Table, source: nat, events: Facts, items: set<nat>): set<Known> {
    set x | x in items :: KnownOf(t, source, events, x)
  }

  // ----- Grouping -----

  type Groups = map<nat, seq<Known>>

  function Group(groups: Groups, p: nat): seq<Known> {
    if p in groups then groups[p] else []
  }

  ghost predicate GroupHolds(groups: Groups, p: nat, facts: set<Known>) {
    Listed(Group(groups, p)) == facts && (p in groups <==> facts != {})
  }

  ghost function ChildrenAmong(playable: Parents, done: set<nat>, p: nat): set<nat> {
    set x | x in done && x in playable && playable[x] == Some(p)
  }

  lemma ListedAppend(x: seq<Known>, y: seq<Known>)
    ensures Listed(x + y) == Listed(x) + Listed(y)
  {
  }

  method GroupByParent(t: Table, source: nat, playable: Parents, events: Facts) returns (groups: Groups)
    ensures forall p: nat :: GroupHolds(groups, p, KnownAll(t, source, events, Children(playable, p)))
  {
    groups := map[];
    var pending := playable.Keys;
    ghost var done: set<nat> := {};
    forall p: nat
      ensures GroupHolds(groups, p, KnownAll(t, source, events, ChildrenAmong(playable, done, p)))
    {
      assert ChildrenAmong(playable, done, p) == {};
    }
    while pending != {}
      invariant done !! pending && done + pending == playable.Keys
      invariant forall p: nat {:trigger Group(groups, p)} ::
        GroupHolds(groups, p, KnownAll(t, source, events, ChildrenAmong(playable, done, p)))
      decreases pending
    {
      var x :| x in pending;
      ghost var before := groups;
      var k := KnownOf(t, source, events, x);
      if playable[x].Some? {
        var p: nat := playable[x].value;
        ListedAppend(Group(groups, p), [k]);
        groups := groups[p := Group(groups, p) + [k]];
      }
      forall p: nat
        ensures GroupHolds(groups, p, KnownAll(t, source, events, ChildrenAmong(playable, done + {x}, p)))
      {
        assert Group(before, p) == Group(before, p);
        if playable[x] == Some(p) {
          assert ChildrenAmong(playable, done + {x}, p) == ChildrenAmong(playable, done, p) + {x};
          assert KnownAll(t, source, events, ChildrenAmong(playable, done + {x}, p))
              == KnownAll(t, source, events, ChildrenAmong(playable, done, p)) + {k};
        } else {
          assert ChildrenAmong(playable, done + {x}, p) == ChildrenAmong(playable, done, p);
        }
      }
      pending := pending - {x};
      done := done + {x};
    }
    forall p: nat
      ensures GroupHolds(groups, p, KnownAll(t, source, events, Children(playable, p)))
    {
      assert Group(groups, p) == Group(groups, p);
      assert ChildrenAmong(playable, done, p) == Children(playable, p);
    }
  }

  ghost function GrandchildrenAmong(playable: Parents, parents: Parents, done: set<nat>, g: nat): set<nat> {
    set x | x in playable && playable[x].Some? && playable[x].value in done
      && playable[x].value in parents && parents[playable[x].value] == Some(g)
  }

  /** The lists of all parents that share a parent, one after the other. */
  method GroupByGrandparent(t: Table, source: nat, playable: Parents, events: Facts, parents: Parents, groups: Groups)
      returns (tops: Groups)
    requires forall p: nat :: GroupHolds(groups, p, KnownAll(t, source, events, Children(playable, p)))
    ensures forall g: nat :: GroupHolds(tops, g, KnownAll(t, source, events, Grandchildren(playable, parents, g)))
  {
    tops := map[];
    var pending := groups.Keys;
    ghost var done: set<nat> := {};
    forall g: nat
      ensures GroupHolds(tops, g, KnownAll(t, source, events, GrandchildrenAmong(playable, parents, done, g)))
    {
      assert GrandchildrenAmong(playable, parents, done, g) == {};
    }
    while pending != {}
      invariant done !! pending && done + pending == groups.Keys
      invariant forall g: nat {:trigger Group(tops, g)} ::
        GroupHolds(tops, g, KnownAll(t, source, events, GrandchildrenAmong(playable, parents, done, g)))
      decreases pending
    {
      var p :| p in pending;
      ghost var before := tops;
      assert GroupHolds(groups, p, KnownAll(t, source, events, Children(playable, p)));
      if p in parents && parents[p].Some? {
        var g: nat := parents[p].value;
        ListedAppend(Group(tops, g), groups[p]);
        tops := tops[g := Group(tops, g) + groups[p]];
      }
      forall g: nat
        ensures GroupHolds(tops, g, KnownAll(t, source, events, GrandchildrenAmong(playable, parents, done + {p}, g)))
      {
        assert Group(before, g) == Group(before, g);
        if p in parents && parents[p] == Some(g) {
          assert GrandchildrenAmong(playable, parents, done + {p}, g)
              == GrandchildrenAmong(playable, parents, done, g) + Children(playable, p);
          assert KnownAll(t, source, events, GrandchildrenAmong(playable, parents, done + {p}, g))
              == KnownAll(t, source, events, GrandchildrenAmong(playable, parents, done, g))
                 + KnownAll(t, source, events, Children(playable, p));
        } else {
          assert GrandchildrenAmong(playable, parents, done + {p}, g) == GrandchildrenAmong(playable, parents, done, g);
        }
      }
      pending := pending - {p};
      done := done + {p};
    }
    forall g: nat
      ensures GroupHolds(tops, g, KnownAll(t, source, events, Grandchildren(playable, parents, g)))
    {
      assert Group(tops, g) == Group(tops, g);
      forall x | x in Grandchildren(playable, parents, g)
        ensures playable[x].value in done
      {
        var p := playable[x].value;
        assert x in Children(playable, p);
        assert KnownOf(t, source, events, x) in KnownAll(t, source, events, Children(playable, p));
        assert GroupHolds(groups, p, KnownAll(t, source, events, Children(playable, p)));
      }
      assert GrandchildrenAmong(playable, parents, done, g) == Grandchildren(playable, parents, g);
    }
  }

  // ----- Writing the derived rows -----

  /** The row of container `p` after deriving it from `facts`. */
  ghost predicate DerivedRow(before: Table, after: Table, k: Key, facts: set<Known>, now: int) {
    && k in after && Aggregated(facts, Known(after[k].viewCount, after[k].lastWatched))
    && (after[k].completed <==> after[k].viewCount > 0) && after[k].progress == None && after[k].observed == now
    && after[k].lastPlayed == Latest(if k in before then before[k].lastPlayed else None, after[k].lastWatched)
  }

  ghost predicate DerivedOrSame(before: Table, after: Table, source: nat, groups: Groups, done: set<nat>, k: Key, now: int) {
    if k.1 == source && k.0 in done && k.0 in groups then DerivedRow(before, after, k, Listed(groups[k.0]), now)
    else RowKept(before, after, k)
  }

  /** Every group derives its own row and no other row changes. */
  ghost predicate DerivedAll(before: Table, after: Table, source: nat, groups: Groups, done: set<nat>, now: int) {
    forall k: Key :: DerivedOrSame(before, after, source, groups, done, k, now)
  }

  method DeriveAll(table: WatchStateTable, source: nat, groups: Groups, now: int)
    modifies table
    ensures DerivedAll(old(table.rows), table.rows, source, groups, groups.Keys, now)
  {
    var pending := groups.Keys;
    ghost var start := table.rows;
    ghost var done: set<nat> := {};
    while pending != {}
      invariant done !! pending && done + pending == groups.Keys
      invariant DerivedAll(start, table.rows, source, groups, done, now)
      decreases pending
    {
      var p :| p in pending;
      var known := AggregateCompletion(groups[p]);
      AggregateIsAggregated(groups[p]);
      ghost var before := table.rows;
      table.SetDerived((p, source), known.count, known.last, now);
      forall k: Key
        ensures DerivedOrSame(start, table.rows, source, groups, done + {p}, k, now)
      {
        assert DerivedOrSame(start, before, source, groups, done, k, now);
      }
      pending := pending - {p};
      done := done + {p};
    }
  }

  /** What the rebuild leaves for one key: grandparents are derived last and from all their grandchildren. */
  ghost predicate Rebuilt(before: Table, after: Table, source: nat, playable: Parents, events: Facts, parents: Parents,
                          k: Key, now: int) {
    var children := KnownAll(before, source, events, Children(playable, k.0));
    var grandchildren := KnownAll(before, source, events, Grandchildren(playable, parents, k.0));
    if k.1 != source || (children == {} && grandchildren == {}) then RowKept(before, after, k)
    else
      && k in after
      && Aggregated(if grandchildren != {} then grandchildren else children,
                    Known(after[k].viewCount, after[k].lastWatched))
      && (after[k].completed <==> after[k].viewCount > 0) && after[k].progress == None && after[k].observed == now
      && IsLatest((if k in before then {before[k].lastPlayed} else {}) + Dates(children + grandchildren),
                  after[k].lastPlayed)
  }

  // ----- Told from the rows -----

  /** The stored row of an item says whether and how often it was seen; without one its events do. */
  function TimesSeen(t: Table, source: nat, events: Facts, x: nat): nat {
    if (x, source) in t then (if t[(x, source)].completed then t[(x, source)].viewCount else 0)
    else if x in events then events[x].count else 0
  }

  function LastSeen(t: Table, source: nat, events: Facts, x: nat): Option<int> {
    if (x, source) in t && t[(x, source)].completed then t[(x, source)].lastWatched
    else if (x, source) !in t && x in events then events[x].last
    else None
  }

  /** Watched when every item below is, as often as the one seen least, and last when any of them was. */
  ghost predicate ContainerTold(before: Table, row: State, source: nat, events: Facts, items: set<nat>) {
    && (row.completed <==> forall x :: x in items ==> TimesSeen(before, source, events, x) > 0)
    && (row.completed ==>
          && (forall x :: x in items ==> row.viewCount <= TimesSeen(before, source, events, x))
          && exists x :: x in items && row.viewCount == TimesSeen(before, source, events, x))
    && (!row.completed ==> row.viewCount == 0)
    && (forall x :: x in items ==> NotBefore(LastSeen(before, source, events, x), row.lastWatched))
    && (row.lastWatched.Some? ==> exists x :: x in items && LastSeen(before, source, events, x) == row.lastWatched)
  }

  /** A season or an album by its episodes or tracks; a show or an artist by all of them that stand below one of its children. */
  ghost predicate RebuildTold(before: Table, after: Table, source: nat, playable: Parents, events: Facts, parents: Parents, p: nat) {
    var (children, grandchildren) := (Children(playable, p), Grandchildren(playable, parents, p));
    var items := if grandchildren != {} then grandchildren else children;
    if items == {} then RowKept(before, after, (p, source))
    else (p, source) in after && ContainerTold(before, after[(p, source)], source, events, items)
  }

  lemma RebuiltIsTold(before: Table, after: Table, source: nat, playable: Parents, events: Facts, parents: Parents, p: nat, now: int)
    requires Rebuilt(before, after, source, playable, events, parents, (p, source), now)
    ensures RebuildTold(before, after, source, playable, events, parents, p)
  {
    var (children, grandchildren) := (Children(playable, p), Grandchildren(playable, parents, p));
    KnownOfSome(before, source, events, children);
    KnownOfSome(before, source, events, grandchildren);
    var items := if grandchildren != {} then grandchildren else children;
    if items != {} {
      AggregatedIsTold(before, after[(p, source)], source, events, items);
    }
  }

  lemma KnownOfSome(t: Table, source: nat, events: Facts, items: set<nat>)
    ensures KnownAll(t, source, events, items) == {} <==> items == {}
  {
    if x :| x in items {
      assert KnownOf(t, source, events, x) in KnownAll(t, source, events, items);
    }
  }

  lemma AggregatedIsTold(before: Table, row: State, source: nat, events: Facts, items: set<nat>)
    requires items != {} && (row.completed <==> row.viewCount > 0)
    requires Aggregated(KnownAll(before, source, events, items), Known(row.viewCount, row.lastWatched))
    ensures ContainerTold(before, row, source, events, items)
  {
    var facts := KnownAll(before, source, events, items);
    KnownOfSome(before, source, events, items);
    forall x | x in items
      ensures KnownOf(before, source, events, x) in facts && KnownOf(before, source, events, x).last in Dates(facts)
      ensures KnownOf(before, source, events, x) ==
        Known(TimesSeen(before, source, events, x), LastSeen(before, source, events, x))
    {
    }
  }

  lemma TwoPassesRebuild(before: Table, middle: Table, after: Table, source: nat, playable: Parents, events: Facts,
                         parents: Parents, groups: Groups, tops: Groups, k: Key, now: int)
    requires GroupHolds(groups, k.0, KnownAll(before, source, events, Children(playable, k.0)))
    requires GroupHolds(tops, k.0, KnownAll(before, source, events, Grandchildren(playable, parents, k.0)))
    requires DerivedAll(before, middle, source, groups, groups.Keys, now)
    requires DerivedAll(middle, after, source, tops, tops.Keys, now)
    ensures Rebuilt(before, after, source, playable, events, parents, k, now)
  {
    var children := KnownAll(before, source, events, Children(playable, k.0));
    var grandchildren := KnownAll(before, source, events, Grandchildren(playable, parents, k.0));
    assert DerivedOrSame(before, middle, source, groups, groups.Keys, k, now);
    assert DerivedOrSame(middle, after, source, tops, tops.Keys, k, now);
    assert Dates(children + grandchildren) == Dates(children) + Dates(grandchildren);
    var old0: set<Option<int>> := if k in before then {before[k].lastPlayed} else {};
    var m0 := if k in before then before[k].lastPlayed else None;
    assert IsLatest(old0, m0);
    if k.1 == source && children != {} {
      LatestOfUnion(old0, m0, Dates(children), middle[k].lastWatched);
    }
    if k.1 == source && grandchildren != {} {
      var m1 := if k in middle then middle[k].lastPlayed else None;
      if children == {} {
        LatestOfUnion(old0, m1, Dates(grandchildren), after[k].lastWatched);
      } else {
        LatestOfUnion(old0 + Dates(children), m1, Dates(grandchildren), after[k].lastWatched);
      }
    }
  }

  /** A container is completed exactly when every available playable item below it is. */
  method RebuildContainers(table: WatchStateTable, source: nat, playable: Parents, events: Facts, parents: Parents, now: int)
    modifies table
    ensures forall k: Key :: Rebuilt(old(table.rows), table.rows, source, playable, events, parents, k, now)
    ensures forall p: nat :: RebuildTold(old(table.rows), table.rows, source, playable, events, parents, p)
  {
    ghost var before := table.rows;
    var groups := GroupByParent(table.rows, source, playable, events);
    var tops := GroupByGrandparent(table.rows, source, playable, events, parents, groups);
    DeriveAll(table, source, groups, now);
    ghost var middle := table.rows;
    DeriveAll(table, source, tops, now);
    forall k: Key
      ensures Rebuilt(before, table.rows, source, playable, events, parents, k, now)
    {
      TwoPassesRebuild(before, middle, table.rows, source, playable, events, parents, groups, tops, k, now);
    }
    forall p: nat
      ensures RebuildTold(before, table.rows, source, playable, events, parents, p)
    {
      RebuiltIsTold(before, table.rows, source, playable, events, parents, p, now);
    }
  }
}
