/**
 What stored events mean for the watch states: which reports are added, what an added one writes, and
 that over every run of reports the state of an item covers all its stored events.
 */
module EventStates {
  import opened Catalog
  import opened Playback
  import opened WatchStates
  import opened EventReplay

  // ----- Which reports are added -----

  /** Reports have one deduplication key exactly if they agree in these fields; user and origin play no part. */
  lemma OneKeyIff(x: Report, y: Report)
    ensures DedupOf(x) == DedupOf(y) <==>
      && x.source == y.source && x.event.id == y.event.id && x.event.media == y.event.media
      && x.event.watchedAt == y.event.watchedAt && x.event.completed == y.event.completed
      && x.event.progress == y.event.progress && x.event.duration == y.event.duration && x.event.viewNumber == y.event.viewNumber
  {
  }

  ghost predicate StoredUnder(row: Row, r: Report) {
    row.source == r.source && r.event.id.Some? && row.id == r.event.id
  }

  /** No event is stored under its id or its key, and none of the item that was completed within two minutes. */
  ghost predicate IsNews(rows: seq<Row>, item: nat, r: Report) {
    forall row :: row in rows ==>
      && !StoredUnder(row, r) && !(row.source == r.source && row.details.dedup == DedupOf(r))
      && !(row.item == item && row.completed
           && row.watchedAt - 120_000_000 <= r.event.watchedAt <= row.watchedAt + 120_000_000)
  }

  function DetailsTold(r: Report): Details {
    var e := r.event;
    Details(Dedup(r.source, e.id, e.media, e.watchedAt, e.completed, e.progress, e.duration, e.viewNumber),
            e.progress, e.duration, e.viewNumber, e.user, r.origin)
  }

  /** A report of a stored event tells it anew; only the date of an undated one stays. */
  ghost predicate RewrittenAs(row: Row, r: Report, next: Row) {
    && next.item == row.item && next.source == row.source && next.id == row.id && next.completed && next.details == DetailsTold(r)
    && next.watchedAt ==
         if exists front :: r.event.id == Some(front + ":played-undated") then row.watchedAt else r.event.watchedAt
  }

  lemma UndatedIff(id: string)
    ensures Undated(id) <==> exists front :: id == front + ":played-undated"
  {
    if Undated(id) {
      assert id == id[..|id| - |UNDATED|] + UNDATED;
    }
    if front :| id == front + ":played-undated" {
      assert id[|front|..] == UNDATED;
    }
  }

  /** What becomes of a report: added at the end as it is, told anew in its place, or nothing. */
  ghost predicate ReportTold(rows: seq<Row>, refs: Refs, r: Report, next: seq<Row>, outcome: Outcome) {
    var known := (r.source, r.event.media) in refs;
    && (outcome == Added <==> r.event.completed && known && IsNews(rows, refs[(r.source, r.event.media)], r))
    && (outcome == UnknownMedia <==> r.event.completed && !known)
    && (outcome == IdentityChanged ==> known && exists row :: row in rows && StoredUnder(row, r) && row.item != refs[(r.source, r.event.media)])
    && (outcome == Repeated ==>
          && known && |next| == |rows|
          && exists i :: 0 <= i < |rows| && StoredUnder(rows[i], r) && rows[i].item == refs[(r.source, r.event.media)]
               && RewrittenAs(rows[i], r, next[i]) && forall j :: 0 <= j < |rows| && j != i ==> next[j] == rows[j])
    && (outcome == Added ==>
          && |next| == |rows| + 1 && next[..|rows|] == rows
          && var row := next[|rows|];
             && row.item == refs[(r.source, r.event.media)] && row.source == r.source && row.id == r.event.id
             && row.watchedAt == r.event.watchedAt && row.completed
             && row.details == DetailsTold(r))
    && (outcome != Added && outcome != Repeated ==> next == rows)
  }

  lemma ReportIsTold(rows: seq<Row>, refs: Refs, r: Report)
    ensures ReportTold(rows, refs, r, Persist(rows, refs, r).0, Persist(rows, refs, r).1)
  {
    if r.event.completed && (r.source, r.event.media) in refs {
      var i := Find(rows, r);
      if i < |rows| {
        assert StoredUnder(rows[i], r) && rows[i] in rows;
        UndatedIff(r.event.id.value);
        assert rows[i].item == refs[(r.source, r.event.media)] ==> RewrittenAs(rows[i], r, Persist(rows, refs, r).0[i]);
      } else {
        NewsIff(rows, refs[(r.source, r.event.media)], r);
      }
    }
  }

  lemma NewsIff(rows: seq<Row>, item: nat, r: Report)
    requires Find(rows, r) == |rows|
    ensures IsNews(rows, item, r) <==> !Taken(rows, r.source, DedupOf(r)) && !Nearby(rows, item, r.event.watchedAt)
  {
    forall row | row in rows
      ensures !StoredUnder(row, r)
    {
      var j :| 0 <= j < |rows| && rows[j] == row;
      assert !Names(rows[j], r);
    }
  }

  // ----- What an added report writes -----

  /** The completed events of an item that came from a source, by their place in the table. */
  function EventsOf(rows: seq<Row>, k: Key): set<nat> {
    set i: nat | i < |rows| && rows[i].item == k.0 && rows[i].source == k.1 && rows[i].completed
  }

  lemma {:induction false} CountAppends(front: seq<Row>, row: Row, k: Key)
    ensures CountCompleted(front + [row], k.0, k.1) ==
      CountCompleted(front, k.0, k.1) + if row.item == k.0 && row.source == k.1 && row.completed then 1 else 0
  {
    if front == [] {
      var rest := [row][1..];
      assert front + [row] == [row] && rest == [] && CountCompleted(rest, k.0, k.1) == 0;
    } else {
      assert (front + [row])[1..] == front[1..] + [row];
      CountAppends(front[1..], row, k);
    }
  }

  lemma EventsAppend(front: seq<Row>, row: Row, k: Key)
    ensures EventsOf(front + [row], k) ==
      EventsOf(front, k) + if row.item == k.0 && row.source == k.1 && row.completed then {|front|} else {}
  {
    var rows := front + [row];
    forall i: nat
      ensures i in EventsOf(rows, k) <==>
        i in EventsOf(front, k) || (i == |front| && row.item == k.0 && row.source == k.1 && row.completed)
    {
      assert i < |front| ==> rows[i] == front[i];
    }
  }

  lemma {:induction false} CountIsCount(rows: seq<Row>, k: Key)
    ensures CountCompleted(rows, k.0, k.1) == |EventsOf(rows, k)|
  {
    if rows == [] {
      assert EventsOf(rows, k) == {};
    } else {
      var n := |rows| - 1;
      var (front, row) := (rows[..n], rows[n]);
      CountIsCount(front, k);
      CountAppends(front, row, k);
      EventsAppend(front, row, k);
      assert rows == front + [row] && n !in EventsOf(front, k);
    }
  }

  /** The row of an item after an event of it was added: counted, dated, and watched. */
  ghost predicate EventWritten(stored: nat, t: Table, r: Report, k: Key, s: State) {
    var own := if k in t then {t[k].viewCount} else {};
    && s.completed && s.progress == r.event.progress && s.observed == r.event.watchedAt
    && IsGreatest(own + {r.event.viewNumber.GetOr(0), stored}, s.viewCount)
    && IsLatest((if k in t && t[k].lastWatched.Some? then {t[k].lastWatched.value} else {}) + {r.event.watchedAt}, s.lastWatched)
    && IsLatest((if k in t && t[k].lastPlayed.Some? then {t[k].lastPlayed.value} else {}) + {r.event.watchedAt}, s.lastPlayed)
  }

  /** An added event is written into the row of its item on its server, and nothing else is written, ever. */
  lemma AddedIsWritten(rows: seq<Row>, t: Table, refs: Refs, r: Report)
    ensures var (next, outcome, u) := (Persist(rows, refs, r).0, Persist(rows, refs, r).1, Observed(rows, t, refs, r));
      if outcome == Added then
        var k := (refs[(r.source, r.event.media)], r.source);
        k in u && EventWritten(|EventsOf(next, k)|, t, r, k, u[k]) && forall h: Key :: h != k ==> RowKept(t, u, h)
      else u == t
  {
    var (next, outcome) := Persist(rows, refs, r);
    if outcome == Added {
      var k := (refs[(r.source, r.event.media)], r.source);
      CountIsCount(next, k);
      PlayedIsWritten(t, k, r, |EventsOf(next, k)|);
    }
  }

  lemma PlayedIsWritten(t: Table, k: Key, r: Report, stored: nat)
    ensures var u := Apply(t, Played(k, Max(r.event.viewNumber.GetOr(0), stored), r.event.watchedAt, r.event.progress));
      k in u && EventWritten(stored, t, r, k, u[k]) && forall h: Key :: h != k ==> RowKept(t, u, h)
  {
  }

  // ----- Over a run of reports -----

  /** The item is watched on that server, at least as often and as late as its stored events say. */
  ghost predicate CoversEvents(rows: seq<Row>, t: Table, k: Key) {
    EventsOf(rows, k) != {} ==>
      && k in t && t[k].completed && t[k].viewCount >= |EventsOf(rows, k)|
      && forall i :: i in EventsOf(rows, k) ==>
           NotBefore(Some(rows[i].watchedAt), t[k].lastWatched) && NotBefore(Some(rows[i].watchedAt), t[k].lastPlayed)
  }

  ghost predicate StatesCover(rows: seq<Row>, t: Table) {
    forall k: Key {:trigger CoversEvents(rows, t, k)} :: CoversEvents(rows, t, k)
  }

  lemma ReportKeepsCover(rows: seq<Row>, t: Table, refs: Refs, r: Report, calendar: Calendar, k: Key)
    requires AllCompleted(rows) && RowsDated(rows, calendar) && DatedBy(r.source, r.event.id, r.event.watchedAt, calendar)
    requires CoversEvents(rows, t, k)
    ensures CoversEvents(Persist(rows, refs, r).0, Observed(rows, t, refs, r), k)
  {
    var (next, u) := (Persist(rows, refs, r).0, Observed(rows, t, refs, r));
    PersistExtends(rows, refs, r, calendar);
    if Persist(rows, refs, r).1 == Added {
      AddedKeepsCover(rows, t, refs, r, k);
    } else {
      SamePlacesSameEvents(rows, next, k);
      SameEventsStayCovered(rows, t, next, u, k);
    }
  }

  lemma AddedKeepsCover(rows: seq<Row>, t: Table, refs: Refs, r: Report, k: Key)
    requires Persist(rows, refs, r).1 == Added && CoversEvents(rows, t, k)
    ensures CoversEvents(Persist(rows, refs, r).0, Observed(rows, t, refs, r), k)
  {
    var next := Persist(rows, refs, r).0;
    AddedIsWritten(rows, t, refs, r);
    ReportIsTold(rows, refs, r);
    assert next == rows + [next[|rows|]];
    OneMoreCovered(rows, t, next[|rows|], Observed(rows, t, refs, r), r, k);
  }

  lemma OneMoreCovered(rows: seq<Row>, t: Table, row: Row, u: Table, r: Report, k: Key)
    requires row.completed && row.watchedAt == r.event.watchedAt && (row.item, row.source) in u
    requires EventWritten(|EventsOf(rows + [row], (row.item, row.source))|, t, r, (row.item, row.source), u[(row.item, row.source)])
    requires k != (row.item, row.source) ==> RowKept(t, u, k)
    requires CoversEvents(rows, t, k)
    ensures CoversEvents(rows + [row], u, k)
  {
    EventsAppend(rows, row, k);
    if k == (row.item, row.source) {
      AddedIsCovered(rows, t, rows + [row], r, k, u[k]);
    } else {
      SameEventsStayCovered(rows, t, rows + [row], u, k);
    }
  }

  lemma SamePlacesSameEvents(rows: seq<Row>, next: seq<Row>, k: Key)
    requires Extends(rows, next) && |next| == |rows|
    ensures EventsOf(next, k) == EventsOf(rows, k)
    ensures forall i :: i in EventsOf(rows, k) ==> next[i].watchedAt == rows[i].watchedAt
  {
    assert forall i: nat :: i < |rows| ==> SamePlace(rows[i], next[i]);
  }

  lemma SameEventsStayCovered(rows: seq<Row>, t: Table, next: seq<Row>, u: Table, k: Key)
    requires CoversEvents(rows, t, k) && RowKept(t, u, k) && EventsOf(next, k) == EventsOf(rows, k)
    requires forall i :: i in EventsOf(rows, k) ==> next[i].watchedAt == rows[i].watchedAt
    ensures CoversEvents(next, u, k)
  {
  }

  lemma AddedIsCovered(rows: seq<Row>, t: Table, next: seq<Row>, r: Report, k: Key, s: State)
    requires CoversEvents(rows, t, k) && EventWritten(|EventsOf(next, k)|, t, r, k, s)
    requires |next| == |rows| + 1 && next[..|rows|] == rows && next[|rows|].watchedAt == r.event.watchedAt
    requires EventsOf(next, k) == EventsOf(rows, k) + {|rows|}
    ensures s.viewCount >= |EventsOf(next, k)|
    ensures forall i :: i in EventsOf(next, k) ==>
      NotBefore(Some(next[i].watchedAt), s.lastWatched) && NotBefore(Some(next[i].watchedAt), s.lastPlayed)
  {
    forall i | i in EventsOf(next, k)
      ensures NotBefore(Some(next[i].watchedAt), s.lastWatched) && NotBefore(Some(next[i].watchedAt), s.lastPlayed)
    {
      if i < |rows| {
        assert next[i] == rows[i] && i in EventsOf(rows, k);
      }
    }
  }

  /** Whatever the servers report, in any order and however often: no stored event is missing from the states. */
  lemma {:induction false} StatesCoverAlways(rows: seq<Row>, t: Table, refs: Refs, reports: seq<Report>, calendar: Calendar)
    requires UniqueKeys(rows) && Spaced(rows) && AllCompleted(rows) && RowsDated(rows, calendar)
    requires ReportsDated(reports, calendar) && StatesCover(rows, t)
    ensures StatesCover(PersistAll(rows, refs, reports), ObservedAll(rows, t, refs, reports))
  {
    if reports != [] {
      var n := |reports| - 1;
      StatesCoverAlways(rows, t, refs, reports[..n], calendar);
      ReportsStaySpaced(rows, refs, reports[..n], calendar);
      var (before, states) := (PersistAll(rows, refs, reports[..n]), ObservedAll(rows, t, refs, reports[..n]));
      forall k: Key
        ensures CoversEvents(PersistAll(rows, refs, reports), ObservedAll(rows, t, refs, reports), k)
      {
        assert CoversEvents(before, states, k);
        ReportKeepsCover(before, states, refs, reports[n], calendar, k);
      }
    }
  }
}
