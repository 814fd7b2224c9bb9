/**
 Storing reported watch events. A report is stored at most once, under two unique keys, and never
 within two minutes of a completed event of the same item, whichever server reported that one.
 */
module EventReplay {
  import opened Catalog
  import opened Playback
  import opened WatchStates

  /** Microseconds. */
  const TWO_MINUTES := 120_000_000

  datatype Event = Event(
    media: string, id: Option<string>, watchedAt: int, completed: bool,
    progress: Option<nat>, duration: Option<nat>, viewNumber: Option<nat>, user: Option<string>)

  /** A server's report, and the flow it came through. */
  datatype Report = Report(source: nat, origin: string, event: Event)

  /** The fields the deduplication key hashes. */
  datatype Dedup = Dedup(
    source: nat, id: Option<string>, media: string, watchedAt: int, completed: bool,
    progress: Option<nat>, duration: Option<nat>, viewNumber: Option<nat>)

  /** The fields a repeated report overwrites. */
  datatype Details = Details(
    dedup: Dedup, progress: Option<nat>, duration: Option<nat>, viewNumber: Option<nat>,
    user: Option<string>, origin: string)

  datatype Row = Row(item: nat, source: nat, id: Option<string>, watchedAt: int, completed: bool, details: Details)

  type Refs = map<(nat, string), nat>

  datatype Outcome = Added | Repeated | Ignored | UnknownMedia | IdentityChanged

  function DedupOf(r: Report): Dedup {
    var e := r.event;
    Dedup(r.source, e.id, e.media, e.watchedAt, e.completed, e.progress, e.duration, e.viewNumber)
  }

  function DetailsOf(r: Report): Details {
    Details(DedupOf(r), r.event.progress, r.event.duration, r.event.viewNumber, r.event.user, r.origin)
  }

  const UNDATED := ":played-undated"

  /** Jellyfin's marker for a played item without a date: its first observed date is kept. */
  predicate Undated(id: string) {
    |id| >= |UNDATED| && id[|id| - |UNDATED|..] == UNDATED
  }

  predicate Names(row: Row, r: Report) {
    row.id.Some? && row.id == r.event.id && row.source == r.source
  }

  /** The row a report names, or the number of rows. */
  function Find(rows: seq<Row>, r: Report): (i: nat)
    ensures i <= |rows| && (i < |rows| ==> Names(rows[i], r))
    ensures forall j :: 0 <= j < i ==> !Names(rows[j], r)
  {
    if rows == [] || Names(rows[0], r) then 0 else 1 + Find(rows[1..], r)
  }

  predicate Taken(rows: seq<Row>, source: nat, dedup: Dedup) {
    exists row :: row in rows && row.source == source && row.details.dedup == dedup
  }

  predicate Close(x: int, y: int) {
    x - TWO_MINUTES <= y <= x + TWO_MINUTES
  }

  predicate Nearby(rows: seq<Row>, item: nat, at: int) {
    exists row :: row in rows && row.item == item && row.completed && Close(at, row.watchedAt)
  }

  function Overwritten(row: Row, r: Report): Row {
    row.(details := DetailsOf(r), completed := r.event.completed,
         watchedAt := if r.event.id.Some? && Undated(r.event.id.value) then row.watchedAt else r.event.watchedAt)
  }

  /** The events after one report. A refused report changes nothing. */
  function Persist(rows: seq<Row>, refs: Refs, r: Report): (seq<Row>, Outcome) {
    var e := r.event;
    if !e.completed then (rows, Ignored)
    else if (r.source, e.media) !in refs then (rows, UnknownMedia)
    else
      var item := refs[(r.source, e.media)];
      var i := Find(rows, r);
      if i < |rows| then
        if rows[i].item != item then (rows, IdentityChanged) else (rows[i := Overwritten(rows[i], r)], Repeated)
      else if Taken(rows, r.source, DedupOf(r)) || Nearby(rows, item, e.watchedAt) then (rows, Ignored)
      else (rows + [Row(item, r.source, e.id, e.watchedAt, true, DetailsOf(r))], Added)
  }

  function PersistAll(rows: seq<Row>, refs: Refs, reports: seq<Report>): seq<Row> {
    if reports == [] then rows
    else
      var n := |reports| - 1;
      Persist(PersistAll(rows, refs, reports[..n]), refs, reports[n]).0
  }

  // ----- The unique keys -----

  /** The stored key was computed from a report of this very event. */
  ghost predicate OwnKey(row: Row) {
    row.details.dedup.source == row.source && row.details.dedup.id == row.id
  }

  ghost predicate KeysDiffer(x: Row, y: Row) {
    x.source == y.source ==> x.details.dedup != y.details.dedup && (x.id.Some? ==> x.id != y.id)
  }

  /** Neither (source, event id) nor (source, deduplication key) occurs twice. */
  ghost predicate UniqueKeys(rows: seq<Row>) {
    && (forall i :: 0 <= i < |rows| ==> OwnKey(rows[i]))
    && (forall i, j :: 0 <= i < j < |rows| ==> KeysDiffer(rows[i], rows[j]))
  }

  lemma PersistKeepsUniqueKeys(rows: seq<Row>, refs: Refs, r: Report)
    requires UniqueKeys(rows)
    ensures UniqueKeys(Persist(rows, refs, r).0)
  {
    var (next, outcome) := Persist(rows, refs, r);
    forall i, j | 0 <= i < j < |next|
      ensures KeysDiffer(next[i], next[j])
    {
      if i < |rows| && j < |rows| {
        assert KeysDiffer(rows[i], rows[j]) && OwnKey(rows[i]) && OwnKey(rows[j]);
      } else {
        assert rows[i] in rows && !Names(rows[i], r);
      }
    }
  }

  // ----- Two minutes apart -----

  /** The one date of every dated event id. */
  type Calendar = map<(nat, string), int>

  predicate DatedBy(source: nat, id: Option<string>, at: int, calendar: Calendar) {
    id.Some? && !Undated(id.value) ==> (source, id.value) in calendar && calendar[(source, id.value)] == at
  }

  ghost predicate RowsDated(rows: seq<Row>, calendar: Calendar) {
    forall i :: 0 <= i < |rows| ==> DatedBy(rows[i].source, rows[i].id, rows[i].watchedAt, calendar)
  }

  ghost predicate ReportsDated(reports: seq<Report>, calendar: Calendar) {
    forall i :: 0 <= i < |reports| ==>
      DatedBy(reports[i].source, reports[i].event.id, reports[i].event.watchedAt, calendar)
  }

  ghost predicate FarApart(x: Row, y: Row) {
    x.item == y.item && x.completed && y.completed ==> !Close(x.watchedAt, y.watchedAt)
  }

  ghost predicate Spaced(rows: seq<Row>) {
    forall i, j :: 0 <= i < j < |rows| ==> FarApart(rows[i], rows[j])
  }

  /** Same rows in the same places, up to the details of rows that have an event id. */
  ghost predicate SamePlace(x: Row, y: Row) {
    x == y.(details := x.details) && (x.id.None? ==> x == y)
  }

  ghost predicate Extends(before: seq<Row>, after: seq<Row>) {
    |before| <= |after| && forall i :: 0 <= i < |before| ==> SamePlace(before[i], after[i])
  }

  ghost predicate AllCompleted(rows: seq<Row>) {
    forall i :: 0 <= i < |rows| ==> rows[i].completed
  }

  /** When every event id keeps its date, rows are only added: nothing moves and nothing is removed. */
  lemma PersistExtends(rows: seq<Row>, refs: Refs, r: Report, calendar: Calendar)
    requires AllCompleted(rows) && RowsDated(rows, calendar)
    requires DatedBy(r.source, r.event.id, r.event.watchedAt, calendar)
    ensures var next := Persist(rows, refs, r).0;
      Extends(rows, next) && AllCompleted(next) && RowsDated(next, calendar)
  {
    var i := Find(rows, r);
    if i < |rows| {
      assert DatedBy(rows[i].source, rows[i].id, rows[i].watchedAt, calendar);
    }
  }

  lemma PersistKeepsSpaced(rows: seq<Row>, refs: Refs, r: Report, calendar: Calendar)
    requires Spaced(rows) && AllCompleted(rows) && RowsDated(rows, calendar)
    requires DatedBy(r.source, r.event.id, r.event.watchedAt, calendar)
    ensures Spaced(Persist(rows, refs, r).0)
  {
    var (next, outcome) := Persist(rows, refs, r);
    PersistExtends(rows, refs, r, calendar);
    forall i, j | 0 <= i < j < |next|
      ensures FarApart(next[i], next[j])
    {
      if j < |rows| {
        assert FarApart(rows[i], rows[j]) && SamePlace(rows[i], next[i]) && SamePlace(rows[j], next[j]);
      } else {
        assert rows[i] in rows;
      }
    }
  }

  /** Over every sequence of reports from any servers, in any order. */
  lemma {:induction false} ReportsStaySpaced(rows: seq<Row>, refs: Refs, reports: seq<Report>, calendar: Calendar)
    requires UniqueKeys(rows) && Spaced(rows) && AllCompleted(rows) && RowsDated(rows, calendar)
    requires ReportsDated(reports, calendar)
    ensures var after := PersistAll(rows, refs, reports);
      && UniqueKeys(after) && Spaced(after) && AllCompleted(after) && RowsDated(after, calendar)
      && Extends(rows, after)
  {
    if reports != [] {
      var n := |reports| - 1;
      ReportsStaySpaced(rows, refs, reports[..n], calendar);
      var before := PersistAll(rows, refs, reports[..n]);
      PersistKeepsUniqueKeys(before, refs, reports[n]);
      PersistKeepsSpaced(before, refs, reports[n], calendar);
      PersistExtends(before, refs, reports[n], calendar);
    }
  }

  /**
   Without one date per event id: a repeated report that moves its event keeps the spacing exactly
   when no other event of the item lies within two minutes of the new date.
   */
  lemma MovedEventStaysSpacedIff(rows: seq<Row>, refs: Refs, r: Report)
    requires Spaced(rows) && AllCompleted(rows) && Persist(rows, refs, r).1 == Repeated
    requires !Undated(r.event.id.value)
    ensures var i := Find(rows, r);
      Spaced(Persist(rows, refs, r).0) <==>
        forall j :: 0 <= j < |rows| && j != i && rows[j].item == rows[i].item ==> !Close(r.event.watchedAt, rows[j].watchedAt)
  {
    var i := Find(rows, r);
    var next := Persist(rows, refs, r).0;
    assert next[i].watchedAt == r.event.watchedAt;
    if Spaced(next) {
      forall j | 0 <= j < |rows| && j != i && rows[j].item == rows[i].item
        ensures !Close(r.event.watchedAt, rows[j].watchedAt)
      {
        assert if i < j then FarApart(next[i], next[j]) else FarApart(next[j], next[i]);
      }
    } else {
      var j, k :| 0 <= j < k < |next| && !FarApart(next[j], next[k]);
      assert FarApart(rows[j], rows[k]);
    }
  }

  function At(id: string, at: int): Report {
    Report(1, "history", Event("m", Some(id), at, true, None, None, None, None))
  }

  /** Three reports: two events ten minutes apart, then the first again with a date next to the second. */
  lemma MovedEventBreaksSpacing()
    ensures var refs: Refs := map[(1, "m") := 7];
      var minute := TWO_MINUTES / 2;
      var two := PersistAll([], refs, [At("a", 0), At("b", 10 * minute)]);
      var three := PersistAll([], refs, [At("a", 0), At("b", 10 * minute), At("a", 11 * minute)]);
      |two| == |three| == 2 && Spaced(two) && !Spaced(three)
  {
    var refs: Refs := map[(1, "m") := 7];
    var minute := TWO_MINUTES / 2;
    var (a, b, c) := (At("a", 0), At("b", 10 * minute), At("a", 11 * minute));
    var (x, y) := (Row(7, 1, Some("a"), 0, true, DetailsOf(a)), Row(7, 1, Some("b"), 10 * minute, true, DetailsOf(b)));
    assert PersistAll([], refs, []) == [];
    assert [a][..0] == [] && PersistAll([], refs, [a]) == [x];
    assert [a, b][..1] == [a];
    assert PersistAll([], refs, [a, b]) == [x, y] by {
      assert Find([x], b) == 1 && !Taken([x], 1, DedupOf(b)) && !Nearby([x], 7, b.event.watchedAt);
    }
    assert [a, b, c][..2] == [a, b];
    var moved := x.(watchedAt := 11 * minute, details := DetailsOf(c));
    assert PersistAll([], refs, [a, b, c]) == [moved, y] by {
      assert Find([x, y], c) == 0 && !Undated("a");
    }
    var three := [moved, y];
    assert !FarApart(three[0], three[1]);
  }

  // ----- Replaying -----

  /** Every further report of this event finds something to settle on. */
  ghost predicate Covered(rows: seq<Row>, refs: Refs, r: Report) {
    || !r.event.completed || (r.source, r.event.media) !in refs
    || (exists i :: 0 <= i < |rows| && Names(rows[i], r))
    || (exists i :: 0 <= i < |rows| && rows[i].id.None? && rows[i].source == r.source && rows[i].details.dedup == DedupOf(r))
    || (exists i :: 0 <= i < |rows| && rows[i].item == refs[(r.source, r.event.media)] && rows[i].completed
          && Close(r.event.watchedAt, rows[i].watchedAt))
  }

  lemma CoveredStays(before: seq<Row>, after: seq<Row>, refs: Refs, r: Report)
    requires Covered(before, refs, r) && Extends(before, after)
    ensures Covered(after, refs, r)
  {
    assert forall i :: 0 <= i < |before| ==> SamePlace(before[i], after[i]);
    if i :| 0 <= i < |before| && Names(before[i], r) {
      assert Names(after[i], r);
    } else if i :| 0 <= i < |before| && before[i].id.None? && before[i].source == r.source
                   && before[i].details.dedup == DedupOf(r) {
      assert after[i] == before[i];
    } else if r.event.completed && (r.source, r.event.media) in refs {
      var i :| 0 <= i < |before| && before[i].item == refs[(r.source, r.event.media)] && before[i].completed
        && Close(r.event.watchedAt, before[i].watchedAt);
      assert after[i].item == before[i].item && after[i].watchedAt == before[i].watchedAt;
    }
  }

  lemma PersistCovers(rows: seq<Row>, refs: Refs, r: Report)
    requires UniqueKeys(rows)
    ensures Covered(Persist(rows, refs, r).0, refs, r)
  {
    var (next, outcome) := Persist(rows, refs, r);
    if r.event.completed && (r.source, r.event.media) in refs {
      var i := Find(rows, r);
      if i < |rows| {
        assert Names(next[i], r);
      } else if outcome == Added {
        assert next[|rows|].watchedAt == r.event.watchedAt;
      } else if Taken(rows, r.source, DedupOf(r)) {
        var row :| row in rows && row.source == r.source && row.details.dedup == DedupOf(r);
        var j :| 0 <= j < |rows| && rows[j] == row;
        assert OwnKey(rows[j]) && !Names(rows[j], r);
      } else {
        var row :| row in rows && row.item == refs[(r.source, r.event.media)] && row.completed
          && Close(r.event.watchedAt, row.watchedAt);
        var j :| 0 <= j < |rows| && rows[j] == row;
      }
    }
  }

  lemma CoveredAddsNothing(rows: seq<Row>, refs: Refs, r: Report)
    requires Covered(rows, refs, r)
    ensures |Persist(rows, refs, r).0| == |rows|
  {
    if i :| 0 <= i < |rows| && Names(rows[i], r) {
      assert Find(rows, r) < |rows|;
    } else if r.event.completed && (r.source, r.event.media) in refs {
      forall i | 0 <= i < |rows|
        ensures rows[i] in rows
      {
      }
    }
  }

  /** The report speaks for this row: it names the row and its media is the row's item. */
  ghost predicate SpeaksFor(refs: Refs, r: Report, row: Row) {
    r.event.completed && Names(row, r) && (r.source, r.event.media) in refs && refs[(r.source, r.event.media)] == row.item
  }

  ghost function LastWord(refs: Refs, reports: seq<Report>, row: Row): Option<Details> {
    if reports == [] then None
    else
      var n := |reports| - 1;
      if SpeaksFor(refs, reports[n], row) then Some(DetailsOf(reports[n])) else LastWord(refs, reports[..n], row)
  }

  lemma {:induction false} LastWordIgnoresDetails(refs: Refs, reports: seq<Report>, x: Row, y: Row)
    requires x == y.(details := x.details)
    ensures LastWord(refs, reports, x) == LastWord(refs, reports, y)
  {
    if reports != [] {
      LastWordIgnoresDetails(refs, reports[..|reports| - 1], x, y);
    }
  }

  /** One report rewrites the details of exactly the rows it speaks for. */
  lemma PersistSpeaks(rows: seq<Row>, refs: Refs, r: Report, i: nat)
    requires UniqueKeys(rows) && i < |Persist(rows, refs, r).0|
    ensures var next := Persist(rows, refs, r).0;
      if i < |rows| then next[i].details == if SpeaksFor(refs, r, rows[i]) then DetailsOf(r) else rows[i].details
      else next[i].details == DetailsOf(r) && (next[i].id.Some? ==> SpeaksFor(refs, r, next[i]))
  {
    var k := Find(rows, r);
    if i < |rows| && i != k && k < |rows| {
      assert if i < k then KeysDiffer(rows[i], rows[k]) else KeysDiffer(rows[k], rows[i]);
    }
  }

  /** A row with an event id carries the details of the last report that spoke for it. */
  lemma {:induction false} LastWordStands(rows: seq<Row>, refs: Refs, reports: seq<Report>, calendar: Calendar, i: nat)
    requires UniqueKeys(rows) && Spaced(rows) && AllCompleted(rows) && RowsDated(rows, calendar)
    requires ReportsDated(reports, calendar) && i < |PersistAll(rows, refs, reports)|
    ensures var after := PersistAll(rows, refs, reports);
      after[i].id.Some? ==>
        if LastWord(refs, reports, after[i]).Some? then after[i].details == LastWord(refs, reports, after[i]).value
        else i < |rows| && after[i].details == rows[i].details
  {
    if reports != [] {
      var n := |reports| - 1;
      var before := PersistAll(rows, refs, reports[..n]);
      var after := PersistAll(rows, refs, reports);
      ReportsStaySpaced(rows, refs, reports[..n], calendar);
      PersistExtends(before, refs, reports[n], calendar);
      PersistSpeaks(before, refs, reports[n], i);
      if i < |before| {
        LastWordStands(rows, refs, reports[..n], calendar, i);
        assert SamePlace(before[i], after[i]);
        LastWordIgnoresDetails(refs, reports[..n], before[i], after[i]);
      }
    }
  }

  lemma {:induction false} FirstPassCovers(rows: seq<Row>, refs: Refs, reports: seq<Report>, calendar: Calendar, k: nat)
    requires UniqueKeys(rows) && Spaced(rows) && AllCompleted(rows) && RowsDated(rows, calendar)
    requires ReportsDated(reports, calendar) && k < |reports|
    ensures Covered(PersistAll(rows, refs, reports), refs, reports[k])
  {
    var n := |reports| - 1;
    var before := PersistAll(rows, refs, reports[..n]);
    ReportsStaySpaced(rows, refs, reports[..n], calendar);
    if k == n {
      PersistCovers(before, refs, reports[n]);
    } else {
      FirstPassCovers(rows, refs, reports[..n], calendar, k);
      PersistExtends(before, refs, reports[n], calendar);
      CoveredStays(before, PersistAll(rows, refs, reports), refs, reports[k]);
    }
  }

  lemma {:induction false} SecondPassAddsNothing(rows: seq<Row>, refs: Refs, reports: seq<Report>, calendar: Calendar)
    requires UniqueKeys(rows) && Spaced(rows) && AllCompleted(rows) && RowsDated(rows, calendar)
    requires ReportsDated(reports, calendar)
    requires forall k :: 0 <= k < |reports| ==> Covered(rows, refs, reports[k])
    ensures |PersistAll(rows, refs, reports)| == |rows|
  {
    if reports != [] {
      var n := |reports| - 1;
      forall k | 0 <= k < n
        ensures Covered(rows, refs, reports[..n][k])
      {
        assert reports[..n][k] == reports[k];
      }
      SecondPassAddsNothing(rows, refs, reports[..n], calendar);
      ReportsStaySpaced(rows, refs, reports[..n], calendar);
      CoveredStays(rows, PersistAll(rows, refs, reports[..n]), refs, reports[n]);
      CoveredAddsNothing(PersistAll(rows, refs, reports[..n]), refs, reports[n]);
    }
  }

  /** Reporting any sequence of events a second time changes nothing at all. */
  lemma ReplayChangesNothing(rows: seq<Row>, refs: Refs, reports: seq<Report>, calendar: Calendar)
    requires UniqueKeys(rows) && Spaced(rows) && AllCompleted(rows) && RowsDated(rows, calendar)
    requires ReportsDated(reports, calendar)
    ensures var once := PersistAll(rows, refs, reports);
      PersistAll(once, refs, reports) == once
  {
    var once := PersistAll(rows, refs, reports);
    var twice := PersistAll(once, refs, reports);
    ReportsStaySpaced(rows, refs, reports, calendar);
    forall k | 0 <= k < |reports|
      ensures Covered(once, refs, reports[k])
    {
      FirstPassCovers(rows, refs, reports, calendar, k);
    }
    SecondPassAddsNothing(once, refs, reports, calendar);
    ReportsStaySpaced(once, refs, reports, calendar);
    forall i | 0 <= i < |once|
      ensures twice[i] == once[i]
    {
      assert SamePlace(once[i], twice[i]);
      LastWordStands(rows, refs, reports, calendar, i);
      LastWordStands(once, refs, reports, calendar, i);
      LastWordIgnoresDetails(refs, reports, once[i], twice[i]);
    }
  }

  // ----- What a report makes of the watch states -----

  function Observed(rows: seq<Row>, t: Table, refs: Refs, r: Report): Table {
    var (next, outcome) := Persist(rows, refs, r);
    if outcome == Added then
      var key := (refs[(r.source, r.event.media)], r.source);
      Apply(t, Played(key, Max(r.event.viewNumber.GetOr(0), CountCompleted(next, key.0, key.1)), r.event.watchedAt,
                      r.event.progress))
    else t
  }

  function ObservedAll(rows: seq<Row>, t: Table, refs: Refs, reports: seq<Report>): Table {
    if reports == [] then t
    else
      var n := |reports| - 1;
      Observed(PersistAll(rows, refs, reports[..n]), ObservedAll(rows, t, refs, reports[..n]), refs, reports[n])
  }

  lemma {:induction false} CoveredLeaveStates(rows: seq<Row>, t: Table, refs: Refs, reports: seq<Report>, calendar: Calendar)
    requires UniqueKeys(rows) && Spaced(rows) && AllCompleted(rows) && RowsDated(rows, calendar)
    requires ReportsDated(reports, calendar)
    requires forall k :: 0 <= k < |reports| ==> Covered(rows, refs, reports[k])
    ensures ObservedAll(rows, t, refs, reports) == t
  {
    if reports != [] {
      var n := |reports| - 1;
      forall k | 0 <= k < n
        ensures Covered(rows, refs, reports[..n][k])
      {
        assert reports[..n][k] == reports[k];
      }
      CoveredLeaveStates(rows, t, refs, reports[..n], calendar);
      ReportsStaySpaced(rows, refs, reports[..n], calendar);
      CoveredStays(rows, PersistAll(rows, refs, reports[..n]), refs, reports[n]);
      CoveredAddsNothing(PersistAll(rows, refs, reports[..n]), refs, reports[n]);
    }
  }

  /** Nor does the second time change any watch state, whatever has been written to the states in between. */
  lemma ReplayLeavesStates(rows: seq<Row>, t: Table, refs: Refs, reports: seq<Report>, calendar: Calendar)
    requires UniqueKeys(rows) && Spaced(rows) && AllCompleted(rows) && RowsDated(rows, calendar)
    requires ReportsDated(reports, calendar)
    ensures ObservedAll(PersistAll(rows, refs, reports), t, refs, reports) == t
  {
    var once := PersistAll(rows, refs, reports);
    ReportsStaySpaced(rows, refs, reports, calendar);
    forall k | 0 <= k < |reports|
      ensures Covered(once, refs, reports[k])
    {
      FirstPassCovers(rows, refs, reports, calendar, k);
    }
    CoveredLeaveStates(once, t, refs, reports, calendar);
  }

  // ----- The table -----

  function CountCompleted(rows: seq<Row>, item: nat, source: nat): nat {
    if rows == [] then 0
    else (if rows[0].item == item && rows[0].source == source && rows[0].completed then 1 else 0)
         + CountCompleted(rows[1..], item, source)
  }

  class EventTable {
    var rows: seq<Row>

    constructor ()
      ensures rows == []
    {
      rows := [];
    }

    /** A new event also becomes visible in the watch state of its item. */
    method PersistEvent(refs: Refs, states: WatchStateTable, r: Report) returns (outcome: Outcome)
      modifies this, states
      ensures (rows, outcome) == Persist(old(rows), refs, r)
      ensures states.rows == Observed(old(rows), old(states.rows), refs, r)
    {
      var e := r.event;
      if !e.completed {
        return Ignored;
      }
      if (r.source, e.media) !in refs {
        return UnknownMedia;
      }
      var item := refs[(r.source, e.media)];
      var i := Find(rows, r);
      if i < |rows| {
        if rows[i].item != item {
          return IdentityChanged;
        }
        var existing := rows[i].(details := DetailsOf(r), completed := e.completed);
        if !Undated(e.id.value) {
          existing := existing.(watchedAt := e.watchedAt);
        }
        rows := rows[i := existing];
        return Repeated;
      }
      if Taken(rows, r.source, DedupOf(r)) {
        return Ignored;
      }
      if Nearby(rows, item, e.watchedAt) {
        return Ignored;
      }
      rows := rows + [Row(item, r.source, e.id, e.watchedAt, e.completed, DetailsOf(r))];
      var stored := CountCompleted(rows, item, r.source);
      states.ApplyEvent((item, r.source), e.viewNumber, stored, e.watchedAt, e.progress);
      return Added;
    }
  }
}
