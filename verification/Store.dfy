/**
 The stored projection, the triggers that mark it dirty, and the protocol that decides between
 doing nothing, refreshing and rebuilding before the catalog is served.
 */
module Store {
  import opened Catalog
  import opened Playback
  import opened Hierarchy
  import opened Grouping
  import opened Projection
  import opened Refresh
  import opened CardContents

  /** The settings row: `clean:v4`, `activity`, `identity` and `full`. */
  datatype Marker = UpToDate | PlaybackChanged | IdentityChanged | Stale

  /** The committed database; `marker` is None while the settings row does not exist. */
  datatype Snapshot = Snapshot(
    tables: Identity, activity: Activity, entries: Entries, members: Cards,
    dirty: set<nat>, marker: Option<Marker>)

  // ----- The steps -----

  /** What the activity trigger makes of the marker: only `identity` survives. */
  function AfterPlayback(marker: Option<Marker>): Option<Marker> {
    if marker == None || marker == Some(IdentityChanged) then marker else Some(PlaybackChanged)
  }

  function PlaybackWritten(s: Snapshot, a: Activity, touched: set<nat>): Snapshot {
    s.(activity := a, dirty := s.dirty + touched,
       marker := if touched == {} then s.marker else AfterPlayback(s.marker))
  }

  function EventsOf(events: seq<WatchEvent>, items: set<nat>): seq<WatchEvent> {
    if events == [] then []
    else (if events[0].item in items then [events[0]] else []) + EventsOf(events[1..], items)
  }

  function StatesOf(states: seq<WatchState>, items: set<nat>): seq<WatchState> {
    if states == [] then []
    else (if states[0].item in items then [states[0]] else []) + StatesOf(states[1..], items)
  }

  function Orphaned(a: Activity, items: set<nat>): set<nat> {
    (set e | e in a.events && e.item !in items :: e.item) + (set w | w in a.states && w.item !in items :: w.item)
  }

  /** Deleting an item cascades to its playback rows, its entry, and the members of that entry. */
  function IdentityWritten(s: Snapshot, next: Identity): Snapshot {
    Snapshot(
      next,
      Activity(EventsOf(s.activity.events, next.items.Keys), StatesOf(s.activity.states, next.items.Keys)),
      map e | e in s.entries && e in next.items :: s.entries[e],
      map x | x in s.members && x in next.items && s.members[x] in next.items :: s.members[x],
      s.dirty + Orphaned(s.activity, next.items.Keys),
      if s.marker.Some? then Some(IdentityChanged) else None)
  }

  function WithoutPaths(refs: set<Ref>): set<Ref> {
    set r | r in refs :: r.(paths := {})
  }

  /** Rows that fire a trigger: items, identifiers, and references with all but their file paths. */
  ghost predicate SameRows(t: Identity, next: Identity) {
    next.items == t.items && next.identifiers == t.identifiers && WithoutPaths(next.refs) == WithoutPaths(t.refs)
  }

  ghost predicate KeepsEvidence(t: Identity, next: Identity) {
    next.sources == t.sources && forall r, q :: r in t.refs && q in next.refs && r.id == q.id ==> r.paths == q.paths
  }

  predicate NothingToDo(s: Snapshot) {
    s.marker == Some(UpToDate) && (s.entries != map[] || CatalogIds(s.tables) == {})
  }

  predicate RefreshDue(s: Snapshot) {
    s.marker == Some(PlaybackChanged) && s.entries != map[] && s.dirty != {}
  }

  /** These cards and entries are what a rebuild from these rows stores. */
  ghost predicate Matches(t: Identity, a: Activity, members: Cards, entries: Entries) {
    members == CardOf(t) && IsRebuild(t, a, members, entries)
  }

  ghost predicate Fresh(s: Snapshot) {
    Matches(s.tables, s.activity, s.members, s.entries)
  }

  /** One entry per card, and every field is what the rows of the tables say. */
  ghost predicate EntriesTold(s: Snapshot) {
    && s.entries.Keys == s.members.Values
    && forall e {:trigger s.entries[e]} :: e in s.entries ==> Told(s.tables, s.activity, s.members, e, s.entries[e])
  }

  lemma FreshIsTold(s: Snapshot)
    requires Fresh(s)
    ensures EntriesTold(s)
  {
    RebuildIffTold(s.tables, s.activity, s.members, s.entries);
  }

  ghost predicate Rebuilt(s: Snapshot, next: Snapshot) {
    && Fresh(next) && next.tables == s.tables && next.activity == s.activity
    && next.dirty == {} && next.marker == Some(UpToDate)
  }

  ghost predicate Refreshed(s: Snapshot, next: Snapshot) {
    && next == s.(entries := next.entries, dirty := {}, marker := Some(UpToDate))
    && IsRefresh(s.tables, s.activity, s.members, s.entries, s.dirty, next.entries)
  }

  ghost predicate Ensured(s: Snapshot, next: Snapshot) {
    if NothingToDo(s) then next == s
    else if RefreshDue(s) then Refreshed(s, next)
    else Rebuilt(s, next)
  }

  // ----- The invariant -----

  /** These cards are right, and so is every field except the completed children of the shows in `stale`. */
  ghost predicate MatchesBut(t: Identity, a: Activity, members: Cards, entries: Entries, stale: set<nat>) {
    members == CardOf(t) && IsRebuildBut(t, a, members, entries, stale)
  }

  ghost predicate CleanBut(s: Snapshot, stale: set<nat>) {
    MatchesBut(s.tables, s.activity, s.members, s.entries, stale)
  }

  /**
   Clean means rebuilt. Changed playback means: a rebuild of the tables as they were with the
   playback rows `base`, and every item whose facts differ from `base` is in the dirty set. Both up
   to the completed children of the shows in `stale`.
   */
  ghost predicate SoundSince(s: Snapshot, base: Activity, stale: set<nat>) {
    && (s.marker == Some(UpToDate) ==> CleanBut(s, stale) && s.dirty == {})
    && (s.marker == Some(PlaybackChanged) ==>
          MatchesBut(s.tables, base, s.members, s.entries, stale) && DiffersAt(base, s.activity, s.dirty))
  }

  ghost predicate Sound(s: Snapshot, stale: set<nat>) {
    exists base :: SoundSince(s, base, stale)
  }

  /** What the theorems ask of the catalog: a forest of depth at most four. */
  ghost predicate Bounded(t: Identity) {
    exists level :: Shallow(t.items, level)
  }

  lemma NothingStaleMatches(t: Identity, a: Activity, members: Cards, entries: Entries)
    ensures MatchesBut(t, a, members, entries, {}) <==> Matches(t, a, members, entries)
  {
    NothingStaleIsRebuild(t, a, members, entries);
  }

  lemma ComputedCardsAreCards(t: Identity)
    ensures CardsOf(t, CardOf(t))
  {
    forall x | x in CardOf(t)
      ensures x in t.items && CardOf(t)[x] in t.items && t.items[CardOf(t)[x]].kind == t.items[x].kind
    {
      CanonicalStandsForItself(t, x);
    }
  }

  lemma DiffersAtTransitive(a: Activity, b: Activity, c: Activity, dirty: set<nat>, touched: set<nat>)
    requires DiffersAt(a, b, dirty) && DiffersAt(b, c, touched)
    ensures DiffersAt(a, c, dirty + touched)
  {
    forall x | x !in dirty + touched
      ensures Unchanged(a, c, x)
    {
      assert Unchanged(a, b, x) && Unchanged(b, c, x);
    }
  }

  lemma PlaybackWriteKeepsSound(s: Snapshot, a: Activity, touched: set<nat>, stale: set<nat>)
    requires Sound(s, stale) && s.marker != Some(Stale)
    requires DiffersAt(s.activity, a, touched) && (touched == {} ==> a == s.activity)
    ensures Sound(PlaybackWritten(s, a, touched), stale)
  {
    var base :| SoundSince(s, base, stale);
    var next := PlaybackWritten(s, a, touched);
    if touched == {} {
      assert next == s;
    } else if s.marker == Some(UpToDate) {
      assert next.dirty == touched;
      assert SoundSince(next, s.activity, stale);
    } else if s.marker == Some(PlaybackChanged) {
      DiffersAtTransitive(base, s.activity, a, s.dirty, touched);
      assert SoundSince(next, base, stale);
    } else {
      assert s.marker.Some? ==> s.marker.value.IdentityChanged?;
      assert SoundSince(next, base, stale);
    }
  }

  lemma IdentityWriteKeepsSound(s: Snapshot, next: Identity)
    ensures Sound(IdentityWritten(s, next), {})
  {
    assert SoundSince(IdentityWritten(s, next), s.activity, {});
  }

  ghost function StaleRefreshed(s: Snapshot, stale: set<nat>): set<nat> {
    StaleAfter(s.tables, s.members, s.dirty, stale)
  }

  /** The shows that may be stale after the step. */
  ghost function StaleNext(s: Snapshot, op: Op, stale: set<nat>): set<nat> {
    match op
    case WriteIdentity(_) => {}
    case Ensure => if NothingToDo(s) then stale else if RefreshDue(s) then StaleRefreshed(s, stale) else {}
    case _ => stale
  }

  lemma StaleNextIs(s: Snapshot, stale: set<nat>)
    ensures NothingToDo(s) ==> StaleNext(s, Ensure, stale) == stale
    ensures RefreshDue(s) ==> StaleNext(s, Ensure, stale) == StaleRefreshed(s, stale)
    ensures !NothingToDo(s) && !RefreshDue(s) ==> StaleNext(s, Ensure, stale) == {}
  {
  }

  lemma RefreshMakesClean(s: Snapshot, base: Activity, stale: set<nat>, next: Snapshot)
    requires MatchesBut(s.tables, base, s.members, s.entries, stale) && DiffersAt(base, s.activity, s.dirty)
    requires Bounded(s.tables) && Refreshed(s, next)
    ensures CleanBut(next, StaleRefreshed(s, stale))
  {
    var level :| Shallow(s.tables.items, level);
    ComputedCardsAreCards(s.tables);
    RefreshAgreesWithRebuild(s.tables, level, base, s.activity, s.members, s.entries, stale, s.dirty, next.entries);
  }

  /** Serving the catalog leaves it clean, rebuilt but for those shows, and with nothing dirty, whichever branch was taken. */
  lemma EnsureMakesClean(s: Snapshot, next: Snapshot, stale: set<nat>)
    requires Sound(s, stale) && Bounded(s.tables) && Ensured(s, next)
    ensures next.marker == Some(UpToDate) && next.dirty == {} && next.tables == s.tables && next.activity == s.activity
    ensures CleanBut(next, StaleNext(s, Ensure, stale))
  {
    StaleNextIs(s, stale);
    var base :| SoundSince(s, base, stale);
    if NothingToDo(s) {
      assert CleanBut(s, stale);
    } else if RefreshDue(s) {
      RefreshMakesClean(s, base, stale, next);
    } else {
      NothingStaleMatches(next.tables, next.activity, next.members, next.entries);
    }
  }

  // ----- Whole runs -----

  datatype Op =
    | WritePlayback(activity: Activity, touched: set<nat>)
    | WriteIdentity(next: Identity)
    | WriteEvidence(next: Identity)
    | MarkStale
    | Ensure

  ghost predicate Step(s: Snapshot, op: Op, next: Snapshot) {
    match op
    case WritePlayback(a, touched) =>
      DiffersAt(s.activity, a, touched) && (touched == {} ==> a == s.activity) && next == PlaybackWritten(s, a, touched)
    case WriteIdentity(t) => next == IdentityWritten(s, t)
    case WriteEvidence(t) => SameRows(s.tables, t) && next == s.(tables := t)
    case MarkStale => next == s.(marker := Some(Stale))
    case Ensure => Ensured(s, next)
  }

  ghost predicate StepAt(run: seq<Snapshot>, ops: seq<Op>, i: nat)
    requires |run| == |ops| + 1 && i < |ops|
  {
    Step(run[i], ops[i], run[i + 1])
  }

  ghost predicate IsRun(run: seq<Snapshot>, ops: seq<Op>) {
    |run| == |ops| + 1 && forall i: nat {:trigger StepAt(run, ops, i)} :: i < |ops| ==> StepAt(run, ops, i)
  }

  /** No playback row is written while the marker reads `full`. */
  ghost predicate StaleIsNotOverwritten(run: seq<Snapshot>, ops: seq<Op>)
    requires |run| == |ops| + 1
  {
    forall i :: 0 <= i < |ops| && ops[i].WritePlayback? && ops[i].touched != {} ==> run[i].marker != Some(Stale)
  }

  ghost predicate StaysBounded(run: seq<Snapshot>) {
    forall i :: 0 <= i < |run| ==> Bounded(run[i].tables)
  }

  /** File paths and connector types, which fire no trigger, are fixed. */
  ghost predicate EvidenceIsFixed(ops: seq<Op>) {
    forall i :: 0 <= i < |ops| ==> !ops[i].WriteEvidence?
  }

  /** The migration leaves the settings row at `identity`. */
  ghost predicate Migrated(s: Snapshot) {
    s.marker == None || s.marker == Some(IdentityChanged)
  }

  ghost predicate FairRun(run: seq<Snapshot>, ops: seq<Op>) {
    IsRun(run, ops) && Migrated(run[0]) && StaysBounded(run) && EvidenceIsFixed(ops) && StaleIsNotOverwritten(run, ops)
  }

  lemma StepKeepsSound(s: Snapshot, op: Op, next: Snapshot, stale: set<nat>)
    requires Sound(s, stale) && Bounded(s.tables) && Step(s, op, next) && !op.WriteEvidence?
    requires op.WritePlayback? && op.touched != {} ==> s.marker != Some(Stale)
    ensures Sound(next, StaleNext(s, op, stale))
  {
    match op
    case WritePlayback(a, touched) =>
      if touched == {} {
        assert next == s;
      } else {
        PlaybackWriteKeepsSound(s, a, touched, stale);
      }
    case WriteIdentity(t) => IdentityWriteKeepsSound(s, t);
    case MarkStale => assert SoundSince(next, s.activity, stale);
    case Ensure =>
      EnsureMakesClean(s, next, stale);
      assert SoundSince(next, next.activity, StaleNext(s, op, stale));
  }

  /** Shows missed by some refresh since the last rebuild, and not recomputed since. */
  ghost function StaleAt(run: seq<Snapshot>, ops: seq<Op>, i: nat): set<nat>
    requires |run| == |ops| + 1 && i < |run|
  {
    if i == 0 then {} else StaleNext(run[i - 1], ops[i - 1], StaleAt(run, ops, i - 1))
  }

  /**
   Over every run: whenever the marker is clean, nothing is dirty, every item is on its card, and
   every field of every card is what a rebuild would store, except possibly the completed children
   of shows that a refresh missed.
   */
  lemma {:induction false} CleanMeansRebuilt(run: seq<Snapshot>, ops: seq<Op>, i: nat)
    requires FairRun(run, ops) && i < |run|
    ensures Sound(run[i], StaleAt(run, ops, i))
    ensures run[i].marker == Some(UpToDate) ==>
      && run[i].dirty == {} && run[i].members == CardOf(run[i].tables)
      && IsRebuildBut(run[i].tables, run[i].activity, run[i].members, run[i].entries, StaleAt(run, ops, i))
    ensures i > 0 && ops[i - 1].Ensure? ==> run[i].marker == Some(UpToDate)
  {
    if i == 0 {
      assert SoundSince(run[0], run[0].activity, {});
    } else {
      CleanMeansRebuilt(run, ops, i - 1);
      assert StepAt(run, ops, i - 1);
      StepKeepsSound(run[i - 1], ops[i - 1], run[i], StaleAt(run, ops, i - 1));
      if ops[i - 1].Ensure? {
        EnsureMakesClean(run[i - 1], run[i], StaleAt(run, ops, i - 1));
      }
    }
  }

  /** A refresh that leaves no untouched show with a changed child. */
  ghost predicate MissesNothing(s: Snapshot, op: Op) {
    op.Ensure? && RefreshDue(s) ==> NoStrayChildren(s.tables, s.members, s.dirty)
  }

  lemma {:induction false} NothingStaleSince(run: seq<Snapshot>, ops: seq<Op>, from: nat, i: nat)
    requires |run| == |ops| + 1 && from <= i < |run| && StaleAt(run, ops, from) == {}
    requires forall k :: from <= k < i ==> MissesNothing(run[k], ops[k])
    ensures StaleAt(run, ops, i) == {}
    decreases i
  {
    if from < i {
      NothingStaleSince(run, ops, from, i - 1);
      NothingGetsStale(run[i - 1], ops[i - 1]);
    }
  }

  /** From a moment when nothing is stale, and through refreshes that miss nothing, clean is exactly rebuilt. */
  lemma CleanIsExact(run: seq<Snapshot>, ops: seq<Op>, from: nat, i: nat)
    requires FairRun(run, ops) && from <= i < |run| && StaleAt(run, ops, from) == {}
    requires forall k :: from <= k < i ==> MissesNothing(run[k], ops[k])
    ensures StaleAt(run, ops, i) == {}
    ensures run[i].marker == Some(UpToDate) ==> Fresh(run[i]) && EntriesTold(run[i])
  {
    CleanMeansRebuilt(run, ops, i);
    NothingStaleSince(run, ops, from, i);
    NothingStaleMatches(run[i].tables, run[i].activity, run[i].members, run[i].entries);
    if Fresh(run[i]) {
      FreshIsTold(run[i]);
    }
  }

  lemma NothingGetsStale(s: Snapshot, op: Op)
    requires MissesNothing(s, op)
    ensures StaleNext(s, op, {}) == {}
  {
    if op.Ensure? && RefreshDue(s) {
      NoStraysNoneStale(s.tables, s.members, s.dirty);
    }
  }

  /** Nothing is stale at the start, after a rebuild, and after any change of identity. */
  lemma RebuildClearsStale(run: seq<Snapshot>, ops: seq<Op>, i: nat)
    requires IsRun(run, ops) && i < |run|
    requires i > 0 ==>
      || ops[i - 1].WriteIdentity?
      || (ops[i - 1].Ensure? && !NothingToDo(run[i - 1]) && !RefreshDue(run[i - 1]))
    ensures StaleAt(run, ops, i) == {}
  {
  }

  /** Catalogs whose shared episodes have shared shows: no refresh misses anything, so clean is rebuilt. */
  lemma CleanIsExactWhenAligned(run: seq<Snapshot>, ops: seq<Op>, i: nat)
    requires FairRun(run, ops) && i < |run|
    requires forall k :: 0 <= k < |run| ==> Aligned(run[k].tables, CardOf(run[k].tables))
    ensures run[i].marker == Some(UpToDate) ==> Fresh(run[i])
  {
    forall k | 0 <= k < i
      ensures MissesNothing(run[k], ops[k])
    {
      if ops[k].Ensure? && RefreshDue(run[k]) {
        CleanMeansRebuilt(run, ops, k);
        var level :| Shallow(run[k].tables.items, level);
        ComputedCardsAreCards(run[k].tables);
        AlignedHasNoStrayChildren(run[k].tables, level, run[k].members, run[k].dirty);
      }
    }
    CleanIsExact(run, ops, 0, i);
  }

  // ----- Where the protocol fails -----

  const MOVIE := Plain(Movie, "a", None)

  const ONE := Identity(map[1 := MOVIE], {}, {}, map[])

  const TWO := Identity(map[1 := MOVIE, 2 := MOVIE.(title := "b")], {}, {}, map[])

  const PLAY := Activity([WatchEvent(1, 0, true)], [])

  lemma FilmsAreBounded(t: Identity)
    requires t in {ONE, TWO}
    ensures WellFormed(t) && Bounded(t) && Aligned(t, CardOf(t))
  {
    var level := map x | x in t.items :: 0;
    assert Shallow(t.items, level);
  }

  /**
   The activity trigger overwrites `full`: an item is added, the projection is marked stale, an
   older item is played, and serving the catalog then only refreshes. The projection it calls
   clean lacks the new item.
   */
  lemma StaleMarkerIsLost()
      returns (empty: Snapshot, clean: Snapshot, added: Snapshot, stale: Snapshot, played: Snapshot, end: Snapshot)
    ensures Migrated(empty) && empty.tables == ONE && end.tables == TWO
    ensures forall t :: t in {ONE, TWO} ==> WellFormed(t) && Bounded(t) && Aligned(t, CardOf(t))
    ensures Step(empty, Ensure, clean) && Step(clean, WriteIdentity(TWO), added) && Step(added, MarkStale, stale)
    ensures Step(stale, WritePlayback(PLAY, {1}), played) && Step(played, Ensure, end)
    ensures end.marker == Some(UpToDate) && !Fresh(end)
  {
    FilmsAreBounded(ONE);
    FilmsAreBounded(TWO);
    var built := OnlyFilmBuilt(Activity([], []));
    empty := Snapshot(ONE, Activity([], []), map[], map[], {}, None);
    clean := Snapshot(ONE, Activity([], []), built, CardOf(ONE), {}, Some(UpToDate));
    assert Step(empty, Ensure, clean);
    added, stale, played, end := AddedFilmIsMissed(clean);
  }

  lemma OnlyFilmBuilt(a: Activity) returns (built: Entries)
    ensures Matches(ONE, a, CardOf(ONE), built) && 1 in built
  {
    ComputedCardsAreCards(ONE);
    built := RebuildExists(ONE, a, CardOf(ONE));
    CanonicalStandsForItself(ONE, 1);
    assert CardOf(ONE)[1] == 1;
  }

  lemma AddedFilmIsMissed(start: Snapshot)
      returns (added: Snapshot, stale: Snapshot, played: Snapshot, end: Snapshot)
    requires start.tables == ONE && start.activity == Activity([], []) && start.marker == Some(UpToDate)
    requires start.members == CardOf(ONE) && 1 in start.entries && start.dirty == {}
    ensures Step(start, WriteIdentity(TWO), added) && Step(added, MarkStale, stale)
    ensures Step(stale, WritePlayback(PLAY, {1}), played) && Step(played, Ensure, end)
    ensures added.tables == TWO && stale.tables == TWO && played.tables == TWO && end.tables == TWO
    ensures end.marker == Some(UpToDate) && !Fresh(end)
  {
    added := AddFilm(start);
    stale := added.(marker := Some(Stale));
    played := PlayStale(stale);
    end := RefreshedOnly(played);
  }

  lemma PlayStale(stale: Snapshot) returns (played: Snapshot)
    requires stale.activity == Activity([], []) && stale.marker == Some(Stale) && 1 in stale.entries
    ensures Step(stale, WritePlayback(PLAY, {1}), played) && RefreshDue(played)
    ensures played.tables == stale.tables && played.members == stale.members
  {
    OnePlayDiffersOnlyThere(1, {1});
    played := PlaybackWritten(stale, PLAY, {1});
    assert 1 in played.dirty && 1 in played.entries;
  }

  lemma AddFilm(start: Snapshot) returns (added: Snapshot)
    requires start.tables == ONE && start.activity == Activity([], []) && start.marker == Some(UpToDate)
    requires start.members == CardOf(ONE) && 1 in start.entries && start.dirty == {}
    ensures Step(start, WriteIdentity(TWO), added) && added.tables == TWO && added.activity == Activity([], [])
    ensures 1 in added.entries && 2 !in added.members && added.dirty == {}
  {
    added := IdentityWritten(start, TWO);
    assert 2 !in CatalogIds(ONE) && Orphaned(start.activity, TWO.items.Keys) == {};
  }

  lemma RefreshedOnly(s: Snapshot) returns (end: Snapshot)
    requires RefreshDue(s) && s.tables == TWO && 2 !in s.members
    ensures Step(s, Ensure, end) && end.tables == TWO && end.marker == Some(UpToDate) && !Fresh(end)
  {
    var renewed := RefreshExists(s.tables, s.activity, s.members, s.entries, s.dirty);
    end := s.(entries := renewed, dirty := {}, marker := Some(UpToDate));
    assert 2 in CatalogIds(TWO);
  }

  /** Writing playback keeps every projection with this marker sound. */
  ghost predicate PlaybackIsSafeUnder(marker: Option<Marker>) {
    forall s: Snapshot, a, touched, stale {:trigger PlaybackWritten(s, a, touched), Sound(s, stale)} ::
      s.marker == marker && Sound(s, stale) && touched != {} && DiffersAt(s.activity, a, touched) ==>
        Sound(PlaybackWritten(s, a, touched), stale)
  }

  /** `full` is the one marker under which a playback write loses what must be rebuilt. */
  lemma PlaybackIsSafeExceptUnderStale(marker: Option<Marker>)
    ensures PlaybackIsSafeUnder(marker) <==> marker != Some(Stale)
  {
    if marker != Some(Stale) {
      forall s: Snapshot, a, touched, stale |
        s.marker == marker && Sound(s, stale) && touched != {} && DiffersAt(s.activity, a, touched)
        ensures Sound(PlaybackWritten(s, a, touched), stale)
      {
        PlaybackWriteKeepsSound(s, a, touched, stale);
      }
    } else {
      var s := Snapshot(ONE, Activity([], []), map[], map[], {}, marker);
      assert SoundSince(s, s.activity, {}) && Sound(s, {});
      OnePlayDiffersOnlyThere(1, {1});
      var next := PlaybackWritten(s, PLAY, {1});
      assert 1 in CatalogIds(ONE) && 1 in CardOf(ONE);
      assert !Sound(next, {});
    }
  }

  // ----- Row writes touch only the items they name -----

  lemma {:induction false} EventRowItems(rows: seq<WatchEvent>)
    ensures RowItems(EventRows(rows)) <= EventItems(rows)
  {
    if rows != [] {
      EventRowItems(rows[1..]);
      assert EventRows(rows) == EventRows([rows[0]]) + EventRows(rows[1..]) by {
        EventRowsConcat([rows[0]], rows[1..]);
        assert [rows[0]] + rows[1..] == rows;
      }
      assert EventItems(rows) == {rows[0].item} + EventItems(rows[1..]);
    }
  }

  lemma {:induction false} StateRowItems(rows: seq<WatchState>)
    ensures RowItems(StateRows(rows)) <= StateItems(rows)
  {
    if rows != [] {
      StateRowItems(rows[1..]);
      assert StateItems(rows) == {rows[0].item} + StateItems(rows[1..]);
    }
  }

  function EventItems(rows: seq<WatchEvent>): set<nat> {
    set e | e in rows :: e.item
  }

  function StateItems(rows: seq<WatchState>): set<nat> {
    set w | w in rows :: w.item
  }

  lemma EventsDifferAtTouched(a: Activity, front: seq<WatchEvent>, before: seq<WatchEvent>, after: seq<WatchEvent>,
                              back: seq<WatchEvent>)
    requires a.events == front + before + back
    ensures DiffersAt(a, a.(events := front + after + back), EventItems(before) + EventItems(after))
  {
    EventRowsConcat(front + before, back);
    EventRowsConcat(front, before);
    EventRowsConcat(front + after, back);
    EventRowsConcat(front, after);
    EventRowItems(before);
    EventRowItems(after);
    forall x: nat | x !in EventItems(before) + EventItems(after)
      ensures Unchanged(a, a.(events := front + after + back), x)
    {
      SplicedRows(EventRows(front), EventRows(before), EventRows(after), EventRows(back), x);
    }
  }

  lemma StatesDifferAtTouched(a: Activity, front: seq<WatchState>, before: seq<WatchState>, after: seq<WatchState>,
                              back: seq<WatchState>)
    requires a.states == front + before + back
    ensures DiffersAt(a, a.(states := front + after + back), StateItems(before) + StateItems(after))
  {
    StateRowsConcat(front + before, back);
    StateRowsConcat(front, before);
    StateRowsConcat(front + after, back);
    StateRowsConcat(front, after);
    StateRowItems(before);
    StateRowItems(after);
    forall x: nat | x !in StateItems(before) + StateItems(after)
      ensures Unchanged(a, a.(states := front + after + back), x)
    {
      SplicedRows(StateRows(front), StateRows(before), StateRows(after), StateRows(back), x);
    }
  }

  // ----- The database -----

  /** The three flags of one card are right. */
  ghost predicate FlagsRight(t: Identity, cards: Cards, available: set<nat>, onPlex: set<nat>, onJellyfin: set<nat>, e: nat) {
    && (e in available <==> Available(t, cards, e)) && (e in onPlex <==> AvailableOn(t, cards, e, Plex))
    && (e in onJellyfin <==> AvailableOn(t, cards, e, Jellyfin))
  }

  method FlagAvailability(t: Identity, cards: Cards)
      returns (available: set<nat>, onPlex: set<nat>, onJellyfin: set<nat>)
    requires WellFormed(t)
    ensures forall e: nat :: FlagsRight(t, cards, available, onPlex, onJellyfin, e)
  {
    available, onPlex, onJellyfin := {}, {}, {};
    var pending := t.refs;
    ghost var done: set<Ref> := {};
    while pending != {}
      invariant done + pending == t.refs
      invariant forall e :: e in available <==> exists r :: r in done && Offered(t, cards, e, r)
      invariant forall e :: e in onPlex <==>
        exists r :: r in done && Offered(t, cards, e, r) && t.sources[r.source] == Plex
      invariant forall e :: e in onJellyfin <==>
        exists r :: r in done && Offered(t, cards, e, r) && t.sources[r.source] == Jellyfin
      decreases pending
    {
      var r :| r in pending;
      pending := pending - {r};
      done := done + {r};
      if r.available && r.item in cards {
        var e := cards[r.item];
        assert Offered(t, cards, e, r);
        available := available + {e};
        match t.sources[r.source]
        case Plex => onPlex := onPlex + {e};
        case Jellyfin => onJellyfin := onJellyfin + {e};
      }
    }
  }

  lemma CardsExist(t: Identity, cards: Cards)
    requires CardsOf(t, cards)
    ensures cards.Values <= t.items.Keys
  {
    forall e | e in cards.Values
      ensures e in t.items
    {
      CardExists(t, cards, e);
    }
  }

  function Entered(t: Identity, stats: Summary, available: set<nat>, onPlex: set<nat>, onJellyfin: set<nat>): Entries
    requires stats.Keys <= t.items.Keys
  {
    map e | e in stats :: Entry(t.items[e].kind, stats[e], e in available, e in onPlex, e in onJellyfin)
  }

  ghost predicate StatsRight(t: Identity, a: Activity, cards: Cards, stats: Summary, e: nat) {
    e in stats ==> stats[e] == FullStats(t, a, cards, e)
  }

  lemma EnteredIsRight(t: Identity, a: Activity, cards: Cards, stats: Summary,
                       available: set<nat>, onPlex: set<nat>, onJellyfin: set<nat>, e: nat)
    requires e in stats && stats.Keys <= t.items.Keys && StatsRight(t, a, cards, stats, e)
    requires FlagsRight(t, cards, available, onPlex, onJellyfin, e)
    ensures Right(t, a, cards, e, Entered(t, stats, available, onPlex, onJellyfin)[e])
  {
  }

  lemma EnteredIsRebuild(t: Identity, a: Activity, cards: Cards, stats: Summary,
                         available: set<nat>, onPlex: set<nat>, onJellyfin: set<nat>)
    requires stats.Keys == cards.Values <= t.items.Keys
    requires forall e: nat :: StatsRight(t, a, cards, stats, e)
    requires forall e: nat :: FlagsRight(t, cards, available, onPlex, onJellyfin, e)
    ensures IsRebuild(t, a, cards, Entered(t, stats, available, onPlex, onJellyfin))
  {
    var entries := Entered(t, stats, available, onPlex, onJellyfin);
    forall e | e in entries
      ensures Right(t, a, cards, e, entries[e])
    {
      EnteredIsRight(t, a, cards, stats, available, onPlex, onJellyfin, e);
    }
  }

  function WrittenBack(entries: Entries, stats: Summary): Entries {
    map e | e in entries :: if e in stats then Updated(entries[e], stats[e]) else entries[e]
  }

  lemma WrittenBackIsRefresh(t: Identity, a: Activity, cards: Cards, entries: Entries, dirty: set<nat>, stats: Summary)
    requires stats.Keys == Impacted(t, cards, dirty)
    requires forall e :: e in stats ==> stats[e] == TreeStats(t, a, cards, entries, dirty, e)
    ensures IsRefresh(t, a, cards, entries, dirty, WrittenBack(entries, stats))
  {
    var renewed := WrittenBack(entries, stats);
    forall e | e in renewed
      ensures Renewed(t, a, cards, entries, dirty, e, renewed[e])
    {
    }
  }

  lemma NothingImpactedIsRefresh(t: Identity, a: Activity, cards: Cards, entries: Entries, dirty: set<nat>)
    requires Impacted(t, cards, dirty) == {}
    ensures IsRefresh(t, a, cards, entries, dirty, entries)
  {
    forall e | e in entries
      ensures Renewed(t, a, cards, entries, dirty, e, entries[e])
    {
    }
  }

  class Database {
    var tables: Identity
    var activity: Activity
    var entries: Entries
    var members: Cards
    var dirty: set<nat>
    var marker: Option<Marker>

    function Now(): Snapshot
      reads this
    {
      Snapshot(tables, activity, entries, members, dirty, marker)
    }

    constructor (t: Identity, a: Activity)
      ensures Migrated(Now()) && tables == t && activity == a && entries == map[]
    {
      tables, activity, entries, members, dirty := t, a, map[], map[], {};
      marker := Some(IdentityChanged);
    }

    /** Every row the statement touches fires the trigger of its table. */
    method FireActivityTrigger(touched: set<nat>)
      modifies `dirty, `marker
      ensures Now() == PlaybackWritten(old(Now()), activity, touched)
    {
      if touched != {} {
        dirty := dirty + touched;
        if marker != None && marker != Some(IdentityChanged) {
          marker := Some(PlaybackChanged);
        }
      }
    }

    /** Inserts, updates or deletes watch events: `count` rows from position `i` become `rows`. */
    method ReplaceEvents(i: nat, count: nat, rows: seq<WatchEvent>)
      requires i + count <= |activity.events|
      modifies this
      ensures activity.events == old(activity.events[..i] + rows + activity.events[i + count..])
      ensures activity.states == old(activity.states)
      ensures var touched := EventItems(old(activity.events[i..i + count])) + EventItems(rows);
        Step(old(Now()), WritePlayback(activity, touched), Now())
    {
      var events := activity.events;
      var (front, before, back) := (events[..i], events[i..i + count], events[i + count..]);
      assert events == front + before + back;
      EventsDifferAtTouched(activity, front, before, rows, back);
      if before == [] && rows == [] {
        assert front + rows + back == events;
      } else {
        assert EventItems(before) + EventItems(rows) != {} by {
          assert before != [] ==> before[0].item in EventItems(before);
          assert rows != [] ==> rows[0].item in EventItems(rows);
        }
      }
      activity := activity.(events := front + rows + back);
      FireActivityTrigger(EventItems(before) + EventItems(rows));
    }

    method ReplaceStates(i: nat, count: nat, rows: seq<WatchState>)
      requires i + count <= |activity.states|
      modifies this
      ensures activity.states == old(activity.states[..i] + rows + activity.states[i + count..])
      ensures activity.events == old(activity.events)
      ensures var touched := StateItems(old(activity.states[i..i + count])) + StateItems(rows);
        Step(old(Now()), WritePlayback(activity, touched), Now())
    {
      var states := activity.states;
      var (front, before, back) := (states[..i], states[i..i + count], states[i + count..]);
      assert states == front + before + back;
      StatesDifferAtTouched(activity, front, before, rows, back);
      if before == [] && rows == [] {
        assert front + rows + back == states;
      } else {
        assert StateItems(before) + StateItems(rows) != {} by {
          assert before != [] ==> before[0].item in StateItems(before);
          assert rows != [] ==> rows[0].item in StateItems(rows);
        }
      }
      activity := activity.(states := front + rows + back);
      FireActivityTrigger(StateItems(before) + StateItems(rows));
    }

    /** Writes to the catalog tables whose triggers mark the identity as changed. */
    method ReplaceIdentity(next: Identity)
      requires KeepsEvidence(tables, next)
      modifies this
      ensures Step(old(Now()), WriteIdentity(next), Now())
    {
      var gone := Orphaned(activity, next.items.Keys);
      activity := Activity(EventsOf(activity.events, next.items.Keys), StatesOf(activity.states, next.items.Keys));
      FireActivityTrigger(gone);
      entries := map e | e in entries && e in next.items :: entries[e];
      members := map x | x in members && x in next.items && members[x] in next.items :: members[x];
      tables := next;
      if marker != None {
        marker := Some(IdentityChanged);
      }
    }

    /** Writes to sources and file paths: no trigger watches them. */
    method ReplaceEvidence(next: Identity)
      requires SameRows(tables, next)
      modifies `tables
      ensures Step(old(Now()), WriteEvidence(next), Now())
    {
      tables := next;
    }

    method MarkProjectionStale()
      modifies `marker
      ensures Step(old(Now()), MarkStale, Now())
    {
      marker := Some(Stale);
    }

    method Rebuild()
      requires WellFormed(tables)
      modifies `entries, `members, `dirty, `marker
      ensures Rebuilt(old(Now()), Now()) && EntriesTold(Now())
    {
      var ids := Listing(CatalogIds(tables));
      var cards := AssignCards(tables, ids);
      ComputedCardsAreCards(tables);
      var stats := Summarise(tables, activity, cards, tables.items.Keys, cards.Values, map[]);
      var available, onPlex, onJellyfin := FlagAvailability(tables, cards);
      CardsExist(tables, cards);
      assert forall e: nat :: StatsRight(tables, activity, cards, stats, e);
      EnteredIsRebuild(tables, activity, cards, stats, available, onPlex, onJellyfin);
      entries := Entered(tables, stats, available, onPlex, onJellyfin);
      members := cards;
      dirty := {};
      marker := Some(UpToDate);
      FreshIsTold(Now());
    }

    /** The entries after recomputing the impacted cards over the tree below them. */
    method RefreshedEntries() returns (renewed: Entries)
      ensures IsRefresh(tables, activity, members, entries, dirty, renewed)
    {
      var impacted := Impacted(tables, members, dirty);
      if impacted == {} {
        NothingImpactedIsRefresh(tables, activity, members, entries, dirty);
        return entries;
      }
      var tree := Tree(tables, members, impacted);
      var stats := Summarise(tables, activity, members, tree, impacted, StoredCounts(entries));
      WrittenBackIsRefresh(tables, activity, members, entries, dirty, stats);
      return WrittenBack(entries, stats);
    }

    /** Without dirty items the refresh falls back to a rebuild; without impacted cards it only marks clean. */
    method RefreshActivity()
      requires WellFormed(tables)
      modifies `entries, `members, `dirty, `marker
      ensures if old(dirty) == {} then Rebuilt(old(Now()), Now()) else Refreshed(old(Now()), Now())
    {
      if dirty == {} {
        Rebuild();
        return;
      }
      entries := RefreshedEntries();
      dirty := {};
      marker := Some(UpToDate);
    }

    /** Called before the catalog is served. */
    method EnsureProjection()
      requires WellFormed(tables)
      modifies `entries, `members, `dirty, `marker
      ensures Step(old(Now()), Ensure, Now())
    {
      if marker == Some(UpToDate) && (entries != map[] || CatalogIds(tables) == {}) {
        return;
      }
      if marker == Some(PlaybackChanged) && entries != map[] {
        RefreshActivity();
      } else {
        Rebuild();
      }
    }
  }
}
