/**
 The checkpointed library scan: every page and its cursor are committed together, a crash may
 happen after any commit, and a later run resumes at the cursor.
 */
module Scan {
  import opened Catalog
  import opened Numbers

  /** Microseconds. */
  const WATERMARK_OVERLAP := 120_000_000
  const FULL_SCAN_INTERVAL := 604_800_000_000

  datatype MediaItem = MediaItem(
    kind: Kind, id: string, show: Option<string>, season: Option<string>, number: Option<nat>,
    artist: Option<string>, album: Option<string>)

  /** An item names itself and the containers it brings along. */
  function ExternalIds(item: MediaItem): set<string> {
    {item.id}
    + (if item.show.Some? then {item.show.value} else {})
    + (if item.kind == Episode && item.show.Some? then
         {item.season.GetOr(item.show.value + ":season:" + Decimal(item.number.GetOr(0)))} else {})
    + (if item.kind == Track && item.artist.Some? then {item.artist.value} else {})
    + (if item.kind == Track && item.album.Some? then {item.album.value} else {})
  }

  /** A server's listing for one filter, and where each page ends. */
  datatype Server = Server(
    media: Option<int> -> seq<MediaItem>, mediaNext: (Option<int>, nat) -> Option<nat>,
    history: Option<int> -> nat, historyNext: (Option<int>, nat) -> Option<nat>)

  /** The next page starts behind this one and within the listing. */
  predicate Advances(next: Option<nat>, start: nat, size: nat) {
    next.Some? ==> start < next.value <= size
  }

  ghost predicate WellPaged(server: Server) {
    && (forall since, start :: Advances(server.mediaNext(since, start), start, |server.media(since)|))
    && (forall since, start :: Advances(server.historyNext(since, start), start, server.history(since)))
  }

  // ----- How many commits a scan takes -----

  /** The pages from `start` on; the last one may be empty. */
  ghost function MediaPages(server: Server, since: Option<int>, start: nat): (n: nat)
    requires WellPaged(server) && start <= |server.media(since)|
    ensures 1 <= n <= |server.media(since)| - start + 1
    decreases |server.media(since)| - start
  {
    var next := server.mediaNext(since, start);
    assert Advances(next, start, |server.media(since)|);
    if next.None? then 1 else 1 + MediaPages(server, since, next.value)
  }

  ghost function HistoryPages(server: Server, watermark: Option<int>, start: nat): (n: nat)
    requires WellPaged(server) && start <= server.history(watermark)
    ensures 1 <= n <= server.history(watermark) - start + 1
    decreases server.history(watermark) - start
  {
    var next := server.historyNext(watermark, start);
    assert Advances(next, start, server.history(watermark));
    if next.None? then 1 else 1 + HistoryPages(server, watermark, next.value)
  }

  ghost predicate InRange(server: Server, since: Option<int>, watermark: Option<int>, p: Cursor) {
    p.start <= if p.stage == Media then |server.media(since)| else server.history(watermark)
  }

  /** The pages, of both stages, that are still to be stored from a position on. */
  ghost function PagesFrom(server: Server, since: Option<int>, watermark: Option<int>, p: Cursor): (n: nat)
    requires WellPaged(server) && InRange(server, since, watermark, p)
    ensures n >= 1
  {
    if p.stage == Media then MediaPages(server, since, p.start) + HistoryPages(server, watermark, 0)
    else HistoryPages(server, watermark, p.start)
  }

  /** How many pages of a first listing of the catalog, and of everything. */
  ghost function CatalogPages(server: Server, since: Option<int>): (n: nat)
    requires WellPaged(server)
    ensures n >= 1
  {
    MediaPages(server, since, 0)
  }

  ghost function AllPages(server: Server, since: Option<int>, watermark: Option<int>): (n: nat)
    requires WellPaged(server)
    ensures n > CatalogPages(server, since)
  {
    PagesFrom(server, since, watermark, Cursor(Media, 0))
  }

  /** What a run with this budget stores before it crashes: marking missing references costs a commit, too. */
  function Stored(catalog: nat, marks: bool, budget: nat): nat {
    if marks && budget > catalog then budget - 1 else budget
  }

  /** A run from `from` that crashed with this budget is continued at `p`: at the start, or with fewer pages to go. */
  ghost predicate LeftOff(server: Server, since: Option<int>, watermark: Option<int>, from: Cursor, whole: bool, budget: nat, p: Cursor)
    requires WellPaged(server) && InRange(server, since, watermark, from)
  {
    var pages := PagesFrom(server, since, watermark, from);
    var stored := Stored(CatalogPages(server, since), whole, budget);
    && InRange(server, since, watermark, p)
    && if budget == 0 then p == from
       else if stored >= pages then p == Cursor(Media, 0)
       else p != Cursor(Media, 0) && PagesFrom(server, since, watermark, p) == pages - stored
  }

  /** Everything but the checkpoint is stored, or the budget was too small for it. */
  ghost predicate StagesEnded(server: Server, since: Option<int>, watermark: Option<int>, from: Cursor, whole: bool,
                              budget: nat, left: nat, crashed: bool, p: Cursor)
    requires WellPaged(server) && InRange(server, since, watermark, from)
  {
    var commits := PagesFrom(server, since, watermark, from) + (if whole then 1 else 0) + 1;
    && (crashed <==> budget < commits)
    && if crashed then LeftOff(server, since, watermark, from, whole, budget, p)
       else left == budget - commits && p == Cursor(Media, 0)
  }

  /** How one attempt from this checkpoint ends: completed exactly if its budget covers everything. */
  ghost predicate RunEnded(server: Server, c: Option<Checkpoint>, full: bool, from: Cursor, budget: nat, outcome: Outcome, p: Cursor)
    requires WellPaged(server)
  {
    var (since, watermark, whole) := (Since(c, full), Watermark(c), full && from == Cursor(Media, 0));
    && InRange(server, since, watermark, from)
    && (outcome == Completed <==> budget >= PagesFrom(server, since, watermark, from) + (if whole then 1 else 0) + 2)
    && (outcome == Crashed ==> LeftOff(server, since, watermark, from, whole, budget, p))
  }

  lemma StagesDecide(server: Server, c: Option<Checkpoint>, full: bool, from: Cursor, budget: nat, left: nat, crashed: bool, p: Cursor)
    requires WellPaged(server) && InRange(server, Since(c, full), Watermark(c), from)
    requires StagesEnded(server, Since(c, full), Watermark(c), from, full && from == Cursor(Media, 0), budget, left, crashed, p)
    ensures crashed || left == 0 ==> RunEnded(server, c, full, from, budget, Crashed, p)
    ensures !crashed && left > 0 ==> RunEnded(server, c, full, from, budget, Completed, Cursor(Media, 0))
  {
  }

  datatype Stage = Media | History

  datatype Cursor = Cursor(stage: Stage, start: nat)

  datatype Checkpoint = Checkpoint(cursor: Option<Cursor>, watermark: Option<int>, lastFull: Option<int>)

  function Watermark(c: Option<Checkpoint>): Option<int> {
    if c.Some? then c.value.watermark else None
  }

  function LastFull(c: Option<Checkpoint>): Option<int> {
    if c.Some? then c.value.lastFull else None
  }

  /** Without a watermark, or seven days after the last full scan, everything is listed. */
  predicate FullDue(c: Option<Checkpoint>, now: int) {
    Watermark(c).None? || LastFull(c).None? || now - LastFull(c).value >= FULL_SCAN_INTERVAL
  }

  function Since(c: Option<Checkpoint>, full: bool): Option<int> {
    if full then None else Watermark(c)
  }

  function ResumePosition(c: Option<Checkpoint>): Cursor {
    if c.None? || c.value.cursor.None? then Cursor(Media, 0) else c.value.cursor.value
  }

  function WithCursor(c: Option<Checkpoint>, cursor: Option<Cursor>): Option<Checkpoint> {
    Some(if c.Some? then c.value.(cursor := cursor) else Checkpoint(cursor, None, None))
  }

  ghost predicate Below(n: nat, done: set<nat>) {
    forall i: nat :: i < n ==> i in done
  }

  function IdsOf(items: seq<MediaItem>): set<string> {
    set i, x | 0 <= i < |items| && x in ExternalIds(items[i]) :: x
  }

  /** The item itself, its show, the season of an episode by its own id or by number, the artist and the album of a track. */
  ghost predicate Names(item: MediaItem, x: string) {
    || x == item.id
    || item.show == Some(x)
    || (item.kind == Episode && item.show.Some? && item.season == Some(x))
    || (item.kind == Episode && item.show.Some? && item.season.None?
        && x == item.show.value + ":season:" + Decimal(item.number.GetOr(0)))
    || (item.kind == Track && (item.artist == Some(x) || item.album == Some(x)))
  }

  ghost predicate Mentioned(items: seq<MediaItem>, x: string) {
    exists i :: 0 <= i < |items| && Names(items[i], x)
  }

  lemma IdsAreMentioned(items: seq<MediaItem>)
    ensures forall x :: x in IdsOf(items) <==> Mentioned(items, x)
  {
    forall item, x
      ensures x in ExternalIds(item) <==> Names(item, x)
    {
    }
    forall x
      ensures x in IdsOf(items) <==> Mentioned(items, x)
    {
      if i :| 0 <= i < |items| && Names(items[i], x) {
        assert x in ExternalIds(items[i]);
      }
      if i :| 0 <= i < |items| && x in ExternalIds(items[i]) {
        assert Names(items[i], x);
      }
    }
  }

  type References = map<string, bool>

  /** References stored with an item are available from then on. */
  function Marked(refs: References, ids: set<string>): References {
    map x | x in refs.Keys + ids :: x in ids || refs[x]
  }

  lemma MarkedTwice(refs: References, x: set<string>, y: set<string>)
    ensures Marked(Marked(refs, x), y) == Marked(refs, x + y)
  {
  }

  /** Exactly these positions were added. */
  ghost predicate Adds(before: set<nat>, after: set<nat>, start: nat, end: nat) {
    forall i: nat :: i in after <==> i in before || start <= i < end
  }

  /** The commit moved nothing but the cursor. */
  ghost predicate SameWatermarks(before: Option<Checkpoint>, after: Option<Checkpoint>) {
    Watermark(before) == Watermark(after) && LastFull(before) == LastFull(after)
  }

  datatype Outcome = Completed | Crashed

  /** A scan lists everything when there has been none, or no full one, or the last full one is a week old. */
  lemma FullScanIsWeekly(c: Option<Checkpoint>, now: int)
    ensures FullDue(c, now) <==>
      c.None? || c.value.watermark.None? || c.value.lastFull.None? || now >= c.value.lastFull.value + 7 * 24 * 3600 * 1_000_000
    ensures Since(c, FullDue(c, now)) == if FullDue(c, now) then None else c.value.watermark
  {
  }

  // ----- Which changes completed scans have read -----

  /** A completed scan: when its first page was read, when its last run started, and its filter. */
  datatype ScanRecord = ScanRecord(began: int, start: int, since: Option<int>)

  /** A change of an item, and the date the server put on it. */
  datatype Change = Change(at: int, stamp: int)

  /** Within two minutes. */
  predicate ClocksAgree(c: Change) {
    c.at - 2 * 60 * 1_000_000 <= c.stamp <= c.at + 2 * 60 * 1_000_000
  }

  /** The scan lists what was there when it began and passes its filter. */
  predicate Reads(scan: ScanRecord, c: Change) {
    c.at < scan.began && (scan.since.Some? ==> c.stamp >= scan.since.value)
  }

  /** A scan lists everything, or what changed since the overlap before the previous one. */
  ghost predicate Follows(scans: seq<ScanRecord>, k: nat)
    requires k < |scans|
  {
    && scans[k].began <= scans[k].start
    && if k == 0 then scans[k].since == None
       else scans[k - 1].start <= scans[k].start
            && (scans[k].since == None || scans[k].since == Some(scans[k - 1].start - WATERMARK_OVERLAP))
  }

  ghost predicate Chain(scans: seq<ScanRecord>) {
    forall k: nat :: k < |scans| ==> Follows(scans, k)
  }

  /** Every change made before an uninterrupted scan began was read by that scan or an earlier one. */
  lemma {:induction false} UninterruptedScansMissNothing(scans: seq<ScanRecord>, k: nat, c: Change)
    requires Chain(scans) && k < |scans| && ClocksAgree(c) && c.at < scans[k].start
    requires forall j :: 0 <= j <= k ==> scans[j].began == scans[j].start
    ensures exists j :: 0 <= j <= k && Reads(scans[j], c)
  {
    assert Follows(scans, k);
    if k == 0 || c.at >= scans[k - 1].start {
      assert Reads(scans[k], c);
    } else {
      UninterruptedScansMissNothing(scans, k - 1, c);
    }
  }

  /**
   A scan resumed at `start` hands that time to the next one. The next scan reads everything that
   changed since the first page was read, whatever the clocks, exactly when there was no interruption.
   */
  lemma ResumedScanMissesNothingIff(scan: ScanRecord, next: ScanRecord)
    requires scan.began <= scan.start && scan.began < next.began
    requires next.since == Some(scan.start - WATERMARK_OVERLAP)
    ensures (forall c :: ClocksAgree(c) && scan.began <= c.at < next.began ==> Reads(next, c)) <==> scan.began == scan.start
  {
    var early := Change(scan.began, scan.began - WATERMARK_OVERLAP);
    assert ClocksAgree(early) && (Reads(next, early) <==> scan.start <= scan.began);
  }

  // ----- Attempts -----

  /**
   Whether attempts with these budgets complete the scan, from a position with `left` pages to go.
   Between the last page and the checkpoint there is no cursor, so a crash there starts over.
   */
  ghost predicate Finishes(catalog: nat, all: nat, marks: bool, left: nat, atStart: bool, budgets: seq<nat>)
    decreases |budgets|
  {
    budgets != [] &&
    var (b, whole, rest) := (budgets[0], marks && atStart, budgets[1..]);
    if b >= left + (if whole then 1 else 0) + 2 then true
    else if b == 0 then Finishes(catalog, all, marks, left, atStart, rest)
    else if Stored(catalog, whole, b) >= left then Finishes(catalog, all, marks, all, true, rest)
    else Finishes(catalog, all, marks, left - Stored(catalog, whole, b), false, rest)
  }

  /** Some attempt stores the last page and dies before the checkpoint. */
  ghost predicate StartsOver(catalog: nat, all: nat, marks: bool, left: nat, atStart: bool, budgets: seq<nat>)
    decreases |budgets|
  {
    budgets != [] &&
    var (b, whole, rest) := (budgets[0], marks && atStart, budgets[1..]);
    if b >= left + (if whole then 1 else 0) + 2 then false
    else if b == 0 then StartsOver(catalog, all, marks, left, atStart, rest)
    else if Stored(catalog, whole, b) >= left then true
    else StartsOver(catalog, all, marks, left - Stored(catalog, whole, b), false, rest)
  }

  function Sum(budgets: seq<nat>): nat {
    if budgets == [] then 0 else budgets[0] + Sum(budgets[1..])
  }

  /** Attempts that never start over complete as soon as their budgets add up to the commits of one whole run. */
  lemma {:induction false} EnoughInTotal(catalog: nat, all: nat, marks: bool, left: nat, atStart: bool, budgets: seq<nat>)
    requires !StartsOver(catalog, all, marks, left, atStart, budgets)
    requires Sum(budgets) >= left + (if marks && atStart then 1 else 0) + 2
    ensures Finishes(catalog, all, marks, left, atStart, budgets)
    decreases |budgets|
  {
    var (b, whole, rest) := (budgets[0], marks && atStart, budgets[1..]);
    if b < left + (if whole then 1 else 0) + 2 {
      if b == 0 {
        EnoughInTotal(catalog, all, marks, left, atStart, rest);
      } else {
        EnoughInTotal(catalog, all, marks, left - Stored(catalog, whole, b), false, rest);
      }
    }
  }

  /** One attempt with a budget for everything completes, whatever the attempts before it did. */
  lemma {:induction false} OneLargeBudgetFinishes(catalog: nat, all: nat, marks: bool, left: nat, atStart: bool,
                                                  budgets: seq<nat>, k: nat)
    requires k < |budgets| && budgets[k] >= all + 3 && left <= all
    ensures Finishes(catalog, all, marks, left, atStart, budgets)
    decreases |budgets|
  {
    var (b, whole, rest) := (budgets[0], marks && atStart, budgets[1..]);
    if b < left + (if whole then 1 else 0) + 2 {
      assert k > 0 && rest[k - 1] == budgets[k];
      if b == 0 {
        OneLargeBudgetFinishes(catalog, all, marks, left, atStart, rest, k - 1);
      } else if Stored(catalog, whole, b) >= left {
        OneLargeBudgetFinishes(catalog, all, marks, all, true, rest, k - 1);
      } else {
        OneLargeBudgetFinishes(catalog, all, marks, left - Stored(catalog, whole, b), false, rest, k - 1);
      }
    }
  }

  function Repeat(b: nat, n: nat): seq<nat> {
    seq(n, i => b)
  }

  lemma RepeatTail(b: nat, n: nat)
    requires n > 0
    ensures Repeat(b, n) != [] && Repeat(b, n)[0] == b && Repeat(b, n)[1..] == Repeat(b, n - 1)
  {
  }

  lemma LessModulo(w: nat, b: nat)
    requires w >= b > 0
    ensures (w - b) % b == w % b
  {
    var q := w / b;
    Distributes(b, q, -1);
    RemainderIs(w - b, b, q - 1, w % b);
  }

  lemma Distributes(b: int, x: int, y: int)
    ensures b * (x + y) == b * x + b * y
  {
  }

  lemma LargeMultiple(b: nat, k: int)
    requires k != 0
    ensures b * k >= b || b * k + b <= 0
  {
    if k >= 1 {
      Distributes(b, k - 1, 1);
    } else {
      Distributes(b, k + 1, -1);
    }
  }

  lemma RemainderIs(w: int, b: nat, q: int, r: nat)
    requires b > 0 && w == b * q + r && r < b
    ensures w % b == r
  {
    var d := w / b;
    Distributes(b, d, -q);
    if d != q {
      LargeMultiple(b, d - q);
    }
  }

  /** The commits that attempts with this budget have to get through in strides of their own length. */
  function Commits(catalog: nat, all: nat, marks: bool, b: nat): nat {
    all + 2 + if marks && b > catalog then 1 else 0
  }

  predicate DiesAtTheEnd(commits: nat, b: nat) {
    b < 3 || commits % b == 1 || commits % b == 2
  }

  /** Attempts that are about to die between the last page and the checkpoint go on doing so. */
  lemma {:induction false} DyingGoesOn(catalog: nat, all: nat, marks: bool, left: nat, atStart: bool, b: nat, n: nat)
    requires 1 <= catalog < all && DiesAtTheEnd(Commits(catalog, all, marks, b), b)
    requires if atStart then left == all else left >= 1 && DiesAtTheEnd(left + 2, b)
    ensures !Finishes(catalog, all, marks, left, atStart, Repeat(b, n))
    decreases n
  {
    if n > 0 {
      RepeatTail(b, n);
      var whole := marks && atStart;
      var commits := if atStart then Commits(catalog, all, marks, b) else left + 2;
      SmallRemainder(commits, b);
      if b == 0 {
        DyingGoesOn(catalog, all, marks, left, atStart, b, n - 1);
      } else if Stored(catalog, whole, b) >= left {
        DyingGoesOn(catalog, all, marks, all, true, b, n - 1);
      } else {
        if b >= 3 {
          LessModulo(commits, b);
        }
        DyingGoesOn(catalog, all, marks, left - Stored(catalog, whole, b), false, b, n - 1);
      }
    }
  }

  lemma SmallRemainder(commits: nat, b: nat)
    requires commits >= 3 && DiesAtTheEnd(commits, b)
    ensures commits > b
  {
    if commits == b {
      RemainderIs(commits, b, 1, 0);
    } else if commits < b {
      RemainderIs(commits, b, 0, commits);
    }
  }

  lemma {:induction false} StridesFinish(catalog: nat, all: nat, marks: bool, left: nat, b: nat) returns (n: nat)
    requires 1 <= catalog < all && left >= 1 && !DiesAtTheEnd(left + 2, b)
    ensures Finishes(catalog, all, marks, left, false, Repeat(b, n))
    decreases left
  {
    if b >= left + 2 {
      n := 1;
      RepeatTail(b, 1);
    } else {
      LessModulo(left + 2, b);
      NotAtTheEnd(left + 2, b);
      var m := StridesFinish(catalog, all, marks, left - b, b);
      n := m + 1;
      RepeatTail(b, n);
    }
  }

  lemma NotAtTheEnd(commits: nat, b: nat)
    requires commits > b && !DiesAtTheEnd(commits, b)
    ensures commits >= b + 3
  {
    if commits < b + 3 {
      RemainderIs(commits, b, 1, commits - b);
    }
  }

  /**
   Attempts with equal budgets ever complete a scan exactly if no stride of that length ends in the
   last two commits: at least three, and a remainder of neither one nor two.
   */
  lemma EqualBudgetsFinishIff(catalog: nat, all: nat, marks: bool, b: nat)
    requires 1 <= catalog < all
    ensures (exists n: nat :: Finishes(catalog, all, marks, all, true, Repeat(b, n))) <==>
      !DiesAtTheEnd(Commits(catalog, all, marks, b), b)
  {
    if DiesAtTheEnd(Commits(catalog, all, marks, b), b) {
      forall n: nat
        ensures !Finishes(catalog, all, marks, all, true, Repeat(b, n))
      {
        DyingGoesOn(catalog, all, marks, all, true, b, n);
      }
    } else {
      var n := FirstStrideFinishes(catalog, all, marks, b);
    }
  }

  /** Two catalog pages and one of history, listed in full: attempts of three commits complete, of four never. */
  lemma LongerStridesMayNeverFinish()
    ensures exists n: nat :: Finishes(2, 3, true, 3, true, Repeat(3, n))
    ensures forall n: nat :: !Finishes(2, 3, true, 3, true, Repeat(4, n))
  {
    EqualBudgetsFinishIff(2, 3, true, 3);
    EqualBudgetsFinishIff(2, 3, true, 4);
  }

  lemma FirstStrideFinishes(catalog: nat, all: nat, marks: bool, b: nat) returns (n: nat)
    requires 1 <= catalog < all && !DiesAtTheEnd(Commits(catalog, all, marks, b), b)
    ensures Finishes(catalog, all, marks, all, true, Repeat(b, n))
  {
    var commits := Commits(catalog, all, marks, b);
    if b >= all + (if marks then 1 else 0) + 2 {
      n := 1;
      RepeatTail(b, 1);
    } else {
      NotAtTheEnd(commits, b);
      LessModulo(commits, b);
      var m := StridesFinish(catalog, all, marks, commits - b - 2, b);
      n := m + 1;
      RepeatTail(b, n);
    }
  }

  lemma LeftOffEarly(server: Server, since: Option<int>, watermark: Option<int>, start: nat, whole: bool, budget: nat,
                     left: nat, p: Cursor)
    requires WellPaged(server) && start <= |server.media(since)| && (whole ==> start == 0)
    requires budget < MediaPages(server, since, start) + if whole then 1 else 0
    requires if budget < MediaPages(server, since, start) then
        p.stage == Media && start <= p.start <= |server.media(since)| && (budget > 0 <==> p.start > start)
        && MediaPages(server, since, p.start) == MediaPages(server, since, start) - budget
      else p == Cursor(History, 0)
    ensures StagesEnded(server, since, watermark, Cursor(Media, start), whole, budget, left, true, p)
  {
  }

  lemma LeftOffLate(server: Server, since: Option<int>, watermark: Option<int>, from: Cursor, whole: bool, budget: nat,
                    rest: nat, left: nat, crashed: bool, p: Cursor)
    requires WellPaged(server) && InRange(server, since, watermark, from) && (whole ==> from == Cursor(Media, 0))
    requires
      if from.stage == Media then budget == rest + MediaPages(server, since, from.start) + if whole then 1 else 0
      else budget == rest
    requires var start := if from.stage == Media then 0 else from.start;
      if rest < HistoryPages(server, watermark, start) then
        crashed && p.stage == History && start <= p.start <= server.history(watermark) && (rest > 0 <==> p.start > start)
        && HistoryPages(server, watermark, p.start) == HistoryPages(server, watermark, start) - rest
      else
        p == Cursor(Media, 0) && (crashed <==> rest == HistoryPages(server, watermark, start))
        && (!crashed ==> left == rest - HistoryPages(server, watermark, start) - 1)
    ensures StagesEnded(server, since, watermark, from, whole, budget, left, crashed, p)
  {
  }

  class LibraryScan {
    var checkpoint: Option<Checkpoint>
    var available: References
    /** The filter of the current scan, and what it has stored since it began. */
    ghost var full: bool
    ghost var media: set<nat>
    ghost var history: set<nat>
    /** When the current scan read its first page, and the scans completed so far. */
    ghost var began: int
    ghost var scans: seq<ScanRecord>

    /** The stored watermark is the overlap before the last completed scan. */
    ghost predicate ScansRecorded(now: int)
      reads this
    {
      && Chain(scans) && began <= now
      && if scans == [] then Watermark(checkpoint) == None
         else scans[|scans| - 1].start <= now && Watermark(checkpoint) == Some(scans[|scans| - 1].start - WATERMARK_OVERLAP)
    }

    /** A cursor promises that everything before it is stored. */
    ghost predicate CursorSound(server: Server)
      reads this
    {
      checkpoint.Some? && checkpoint.value.cursor.Some? ==>
        var (c, size) := (checkpoint.value.cursor.value, |server.media(Since(checkpoint, full))|);
        match c.stage
        case Media => c.start <= size && Below(c.start, media)
        case History => Below(size, media) && c.start <= server.history(Watermark(checkpoint)) && Below(c.start, history)
    }

    /** The run starts over, or goes on in the mode the scan began in. */
    ghost predicate SameMode(now: int)
      reads this
    {
      ResumePosition(checkpoint) != Cursor(Media, 0) ==> full == FullDue(checkpoint, now)
    }

    constructor ()
      ensures checkpoint == None && available == map[] && scans == []
      ensures forall now :: now >= 0 ==> ScansRecorded(now)
      ensures forall server :: CursorSound(server)
    {
      checkpoint, available := None, map[];
      full, media, history, began, scans := true, {}, {}, 0, [];
    }

    /** One committed media page: its items, and the cursor behind it. */
    method PersistMediaPage(items: seq<MediaItem>, ghost start: nat, cursor: Cursor)
      modifies `checkpoint, `available, `media
      ensures checkpoint == WithCursor(old(checkpoint), Some(cursor))
      ensures available == Marked(old(available), IdsOf(items))
      ensures Adds(old(media), media, start, start + |items|)
    {
      var refs := available;
      ghost var before := refs;
      for k := 0 to |items|
        invariant refs == Marked(before, IdsOf(items[..k])) && available == before
        invariant Adds(old(media), media, start, start + k)
        invariant checkpoint == old(checkpoint)
      {
        OneMoreItem(items, k);
        MarkedTwice(before, IdsOf(items[..k]), ExternalIds(items[k]));
        refs := Marked(refs, ExternalIds(items[k]));
        media := media + {start + k};
      }
      assert items[..|items|] == items;
      available := refs;
      checkpoint := WithCursor(checkpoint, Some(cursor));
    }

    /** One committed history page; behind the last one there is no cursor any more. */
    method PersistHistoryPage(start: nat, end: nat, cursor: Option<Cursor>)
      requires start <= end
      modifies `checkpoint, `history
      ensures checkpoint == WithCursor(old(checkpoint), cursor)
      ensures Adds(old(history), history, start, end)
    {
      for k := start to end
        invariant Adds(old(history), history, start, k)
        invariant checkpoint == old(checkpoint) && available == old(available)
      {
        history := history + {k};
      }
      checkpoint := WithCursor(checkpoint, cursor);
    }

    /** No reference becomes available; those the listing mentioned stay as they are, all others are unavailable. */
    method MarkMissingUnavailable(seen: set<string>)
      modifies `available
      ensures available.Keys == old(available).Keys
      ensures forall x :: x in available && x in seen ==> available[x] == old(available)[x]
      ensures forall x :: x in available && x !in seen ==> !available[x]
    {
      var pending := available.Keys;
      while pending != {}
        invariant pending <= available.Keys == old(available).Keys
        invariant forall x :: x in available && (x in seen || x in pending) ==> available[x] == old(available)[x]
        invariant forall x :: x in available && x !in seen && x !in pending ==> !available[x]
        decreases pending
      {
        var x :| x in pending;
        if x !in seen {
          available := available[x := false];
        }
        pending := pending - {x};
      }
    }

    /** The media stage from `start` on, up to `end`; every page costs one commit of the budget. */
    method ScanMedia(server: Server, since: Option<int>, start: nat, budget: nat)
        returns (seen: set<string>, left: nat, end: nat, crashed: bool)
      requires WellPaged(server) && CursorSound(server) && since == Since(checkpoint, full)
      requires ResumePosition(checkpoint) == Cursor(Media, start) && start <= |server.media(since)| && Below(start, media)
      modifies `checkpoint, `available, `media
      ensures CursorSound(server) && SameWatermarks(old(checkpoint), checkpoint)
      ensures start <= end <= |server.media(since)| && Adds(old(media), media, start, end)
      ensures seen == IdsOf(server.media(since)[start..end]) && available == Marked(old(available), seen)
      ensures crashed <==> budget < MediaPages(server, since, start)
      ensures crashed ==>
        && ResumePosition(checkpoint) == Cursor(Media, end) && left == 0 && (budget > 0 <==> end > start)
        && MediaPages(server, since, end) == MediaPages(server, since, start) - budget
      ensures !crashed ==>
        && checkpoint.Some? && checkpoint.value.cursor == Some(Cursor(History, 0)) && end == |server.media(since)|
        && left == budget - MediaPages(server, since, start)
    {
      var items := server.media(since);
      left, seen, end, crashed := budget, {}, start, false;
      assert items[start..start] == [];
      while true
        invariant start <= end <= |items| && seen == IdsOf(items[start..end]) && !crashed
        invariant available == Marked(old(available), seen) && Adds(old(media), media, start, end)
        invariant CursorSound(server) && ResumePosition(checkpoint) == Cursor(Media, end)
        invariant SameWatermarks(old(checkpoint), checkpoint)
        invariant left <= budget && MediaPages(server, since, end) == MediaPages(server, since, start) - (budget - left)
        invariant left < budget <==> end > start
        decreases |items| - end
      {
        if left == 0 {
          crashed := true;
          return;
        }
        ghost var before := end;
        var ids, done;
        ids, end, done := StoreMediaPage(server, since, end);
        IdsGrow(items, start, before, end);
        MarkedTwice(old(available), seen, ids);
        seen, left := seen + ids, left - 1;
        if done {
          return;
        }
      }
    }

    /** The page at a position; behind the last one the history begins. */
    method StoreMediaPage(server: Server, since: Option<int>, at: nat) returns (ids: set<string>, end: nat, done: bool)
      requires WellPaged(server) && CursorSound(server) && since == Since(checkpoint, full)
      requires ResumePosition(checkpoint) == Cursor(Media, at) && at <= |server.media(since)| && Below(at, media)
      modifies `checkpoint, `available, `media
      ensures CursorSound(server) && SameWatermarks(old(checkpoint), checkpoint)
      ensures at <= end <= |server.media(since)| && Adds(old(media), media, at, end)
      ensures ids == IdsOf(server.media(since)[at..end]) && available == Marked(old(available), ids)
      ensures if done then
          checkpoint.Some? && checkpoint.value.cursor == Some(Cursor(History, 0)) && end == |server.media(since)|
          && MediaPages(server, since, at) == 1
        else
          ResumePosition(checkpoint) == Cursor(Media, end) && end > at
          && MediaPages(server, since, end) == MediaPages(server, since, at) - 1
    {
      var items := server.media(since);
      var next := server.mediaNext(since, at);
      assert Advances(next, at, |items|);
      end, done := next.GetOr(|items|), next.None?;
      ids := IdsOf(items[at..end]);
      PersistMediaPage(items[at..end], at, if done then Cursor(History, 0) else Cursor(Media, end));
    }

    /** The history stage from `start` on, up to `end`; it finishes with the cursor gone. */
    method ScanHistory(server: Server, start: nat, budget: nat) returns (left: nat, end: nat, crashed: bool)
      requires WellPaged(server) && CursorSound(server)
      requires ResumePosition(checkpoint) == Cursor(History, start)
      modifies `checkpoint, `history
      ensures CursorSound(server) && SameWatermarks(old(checkpoint), checkpoint)
      ensures start <= end <= server.history(Watermark(checkpoint)) && Adds(old(history), history, start, end)
      ensures crashed <==> budget < HistoryPages(server, Watermark(checkpoint), start)
      ensures crashed ==>
        && ResumePosition(checkpoint) == Cursor(History, end) && left == 0 && (budget > 0 <==> end > start)
        && HistoryPages(server, Watermark(checkpoint), end) == HistoryPages(server, Watermark(checkpoint), start) - budget
      ensures !crashed ==>
        && checkpoint.Some? && checkpoint.value.cursor == None && end == server.history(Watermark(checkpoint))
        && left == budget - HistoryPages(server, Watermark(checkpoint), start)
    {
      var watermark := Watermark(checkpoint);
      var size := server.history(watermark);
      left, end, crashed := budget, start, false;
      while true
        invariant start <= end <= size && Adds(old(history), history, start, end) && !crashed
        invariant CursorSound(server) && ResumePosition(checkpoint) == Cursor(History, end)
        invariant SameWatermarks(old(checkpoint), checkpoint)
        invariant left <= budget && (left < budget <==> end > start)
        invariant HistoryPages(server, watermark, end) == HistoryPages(server, watermark, start) - (budget - left)
        decreases size - end
      {
        if left == 0 {
          crashed := true;
          return;
        }
        var next := server.historyNext(watermark, end);
        assert Advances(next, end, size);
        var stop := next.GetOr(size);
        PersistHistoryPage(end, stop, if next.Some? then Some(Cursor(History, stop)) else None);
        left, end := left - 1, stop;
        if next.None? {
          return;
        }
      }
    }

    /** The new watermark lies the overlap before this run, not before the scan's first page. */
    method CompleteCheckpoint(now: int, periodic: bool, ghost since: Option<int>)
      requires ScansRecorded(now) && since == (if periodic then None else Watermark(checkpoint))
      requires Watermark(checkpoint).None? ==> periodic
      modifies `checkpoint, `scans
      ensures checkpoint == Some(Checkpoint(None, Some(now - WATERMARK_OVERLAP),
        if periodic then Some(now - WATERMARK_OVERLAP) else LastFull(old(checkpoint))))
      ensures scans == old(scans) + [ScanRecord(began, now, since)] && ScansRecorded(now)
    {
      ChainGrows(scans, ScanRecord(began, now, since));
      checkpoint := Some(Checkpoint(None, Some(now - WATERMARK_OVERLAP),
                                    if periodic then Some(now - WATERMARK_OVERLAP) else LastFull(checkpoint)));
      scans := scans + [ScanRecord(began, now, since)];
    }

    /** From the start on all that is listed is available, and after a whole listing nothing else is. */
    ghost predicate ListingShows(server: Server, since: Option<int>, fromStart: bool, whole: bool)
      reads this`available
    {
      && (fromStart ==> forall x :: x in IdsOf(server.media(since)) ==> x in available && available[x])
      && (whole ==> forall x :: x in available && available[x] ==> x in IdsOf(server.media(None)))
    }

    /** Switched off exactly by a full scan from the start that listed everything and not this. */
    ghost predicate OnlyMissing(server: Server, before: References, after: References, whole: bool) {
      forall x :: x in before && before[x] && !(x in after && after[x]) ==> whole && x !in IdsOf(server.media(None))
    }

    /** The media stage and, for a whole listing, the marking of what it did not mention. */
    method MediaStage(server: Server, since: Option<int>, start: nat, budget: nat, whole: bool)
        returns (left: nat, crashed: bool)
      requires WellPaged(server) && CursorSound(server) && since == Since(checkpoint, full)
      requires ResumePosition(checkpoint) == Cursor(Media, start) && start <= |server.media(since)| && Below(start, media)
      requires whole ==> since == None && start == 0
      modifies `checkpoint, `available, `media
      ensures CursorSound(server) && SameWatermarks(old(checkpoint), checkpoint) && old(media) <= media
      ensures OnlyMissing(server, old(available), available, whole)
      ensures crashed <==> budget < MediaPages(server, since, start) + if whole then 1 else 0
      ensures crashed && budget < MediaPages(server, since, start) ==>
        var p := ResumePosition(checkpoint);
        && p.stage == Media && start <= p.start <= |server.media(since)| && (budget > 0 <==> p.start > start)
        && MediaPages(server, since, p.start) == MediaPages(server, since, start) - budget
      ensures budget >= MediaPages(server, since, start) ==>
        checkpoint.Some? && checkpoint.value.cursor == Some(Cursor(History, 0)) && Below(|server.media(since)|, media)
      ensures !crashed ==> left == budget - MediaPages(server, since, start) - if whole then 1 else 0
      ensures !crashed ==> ListingShows(server, since, start == 0, whole)
    {
      var seen, end;
      seen, left, end, crashed := ScanMedia(server, since, start, budget);
      if crashed || !whole {
        return;
      }
      if left == 0 {
        crashed := true;
        return;
      }
      left := left - 1;
      assert server.media(None)[0..end] == server.media(None);
      MarkMissingUnavailable(seen);
    }

    /** The history stage and the derived states, which cost one more commit. */
    method HistoryStage(server: Server, start: nat, budget: nat) returns (left: nat, crashed: bool)
      requires WellPaged(server) && CursorSound(server)
      requires ResumePosition(checkpoint) == Cursor(History, start)
      modifies `checkpoint, `history
      ensures CursorSound(server) && SameWatermarks(old(checkpoint), checkpoint) && old(history) <= history
      ensures start <= server.history(Watermark(checkpoint))
      ensures var (p, pages) := (ResumePosition(checkpoint), HistoryPages(server, Watermark(checkpoint), start));
        if budget < pages then
          crashed && p.stage == History && start <= p.start <= server.history(Watermark(checkpoint))
          && (budget > 0 <==> p.start > start) && HistoryPages(server, Watermark(checkpoint), p.start) == pages - budget
        else
          p == Cursor(Media, 0) && (crashed <==> budget == pages) && (!crashed ==> left == budget - pages - 1)
          && Below(server.history(Watermark(checkpoint)), history)
          && checkpoint.Some? && checkpoint.value.cursor == None
    {
      var end;
      left, end, crashed := ScanHistory(server, start, budget);
      if !crashed && left == 0 {
        crashed := true;
      } else if !crashed {
        left := left - 1;
      }
    }

    /** Both stages from the resume position on; every page, the marking and the derived states cost a commit each. */
    method RunStages(server: Server, since: Option<int>, position: Cursor, budget: nat, whole: bool)
        returns (left: nat, crashed: bool)
      requires WellPaged(server) && CursorSound(server) && since == Since(checkpoint, full)
      requires position == ResumePosition(checkpoint)
      requires whole ==> since == None && position == Cursor(Media, 0)
      modifies `checkpoint, `available, `media, `history
      ensures CursorSound(server) && SameWatermarks(old(checkpoint), checkpoint)
      ensures old(media) <= media && old(history) <= history && OnlyMissing(server, old(available), available, whole)
      ensures StagesEnded(server, since, Watermark(checkpoint), position, whole, budget, left, crashed, ResumePosition(checkpoint))
      ensures !crashed ==>
        && Below(|server.media(since)|, media) && Below(server.history(Watermark(checkpoint)), history)
      ensures !crashed ==> ListingShows(server, since, position == Cursor(Media, 0), whole)
    {
      ghost var watermark := Watermark(checkpoint);
      left := budget;
      var start := position.start;
      if position.stage == Media {
        left, crashed := MediaStage(server, since, position.start, left, whole);
        if crashed {
          LeftOffEarly(server, since, watermark, position.start, whole, budget, left, ResumePosition(checkpoint));
          return;
        }
        start := 0;
      }
      ghost var rest := left;
      left, crashed := HistoryStage(server, start, left);
      LeftOffLate(server, since, watermark, position, whole, budget, rest, left, crashed,
                  ResumePosition(checkpoint));
    }

    /** Without a cursor nothing of this scan is stored yet. */
    ghost method BeginScan(server: Server, now: int)
      requires CursorSound(server) && SameMode(now)
      modifies `full, `media, `history, `began
      ensures CursorSound(server) && full == FullDue(checkpoint, now)
      ensures if ResumePosition(checkpoint) == Cursor(Media, 0) then began == now
              else began == old(began) && media == old(media) && history == old(history)
    {
      full := FullDue(checkpoint, now);
      if ResumePosition(checkpoint) == Cursor(Media, 0) {
        media, history, began := {}, {}, now;
      }
    }

    /** Everything up to the checkpoint, which needs a commit of its own. */
    method StoreAll(server: Server, since: Option<int>, position: Cursor, budget: nat, whole: bool) returns (stored: bool)
      requires WellPaged(server) && CursorSound(server) && since == Since(checkpoint, full)
      requires position == ResumePosition(checkpoint) && whole == (full && position == Cursor(Media, 0))
      modifies `checkpoint, `available, `media, `history
      ensures CursorSound(server) && SameWatermarks(old(checkpoint), checkpoint)
      ensures old(media) <= media && old(history) <= history && OnlyMissing(server, old(available), available, whole)
      ensures RunEnded(server, old(checkpoint), full, position, budget, if stored then Completed else Crashed, ResumePosition(checkpoint))
      ensures stored ==>
        && ResumePosition(checkpoint) == Cursor(Media, 0)
        && Below(|server.media(since)|, media) && Below(server.history(Watermark(checkpoint)), history)
      ensures stored ==> ListingShows(server, since, position == Cursor(Media, 0), whole)
    {
      ghost var before := checkpoint;
      var left, crashed := RunStages(server, since, position, budget, whole);
      StagesDecide(server, before, full, position, budget, left, crashed, ResumePosition(checkpoint));
      stored := !crashed && left > 0;
    }

    /**
     One run over the library, which crashes when its budget of commits is spent. It completes exactly
     if the budget covers the pages from the resume position, the marking, the derived states and the
     checkpoint. When it completes, everything the filter lists has been stored by this run or the
     interrupted ones before it; only a full run from the very start switches references off, and then
     every available reference was listed.
     */
    method SyncLibrary(server: Server, now: int, budget: nat) returns (outcome: Outcome)
      requires WellPaged(server) && CursorSound(server) && SameMode(now) && ScansRecorded(now)
      modifies this
      ensures CursorSound(server) && ScansRecorded(now) && full == FullDue(old(checkpoint), now)
      ensures RunEnded(server, old(checkpoint), full, ResumePosition(old(checkpoint)), budget, outcome, ResumePosition(checkpoint))
      ensures outcome == Crashed ==> SameWatermarks(old(checkpoint), checkpoint)
      ensures began == if ResumePosition(old(checkpoint)) == Cursor(Media, 0) then now else old(began)
      ensures scans == if outcome == Crashed then old(scans) else old(scans) + [ScanRecord(began, now, Since(old(checkpoint), full))]
      ensures ResumePosition(old(checkpoint)) != Cursor(Media, 0) ==> old(media) <= media && old(history) <= history
      ensures OnlyMissing(server, old(available), available, full && ResumePosition(old(checkpoint)) == Cursor(Media, 0))
      ensures outcome == Completed ==>
        && checkpoint == Some(Checkpoint(None, Some(now - WATERMARK_OVERLAP),
             if full then Some(now - WATERMARK_OVERLAP) else LastFull(old(checkpoint))))
        && Below(|server.media(Since(old(checkpoint), full))|, media)
        && Below(server.history(Watermark(old(checkpoint))), history)
      ensures outcome == Completed && ResumePosition(old(checkpoint)) == Cursor(Media, 0) ==>
        forall x :: Mentioned(server.media(Since(old(checkpoint), full)), x) ==> x in available && available[x]
      ensures outcome == Completed && full && ResumePosition(old(checkpoint)) == Cursor(Media, 0) ==>
        forall x :: x in available && available[x] ==> Mentioned(server.media(None), x)
    {
      var position := ResumePosition(checkpoint);
      var periodic := FullDue(checkpoint, now);
      var since := Since(checkpoint, periodic);
      BeginScan(server, now);
      var stored := StoreAll(server, since, position, budget, periodic && position == Cursor(Media, 0));
      if !stored {
        return Crashed;
      }
      IdsAreMentioned(server.media(since));
      CompleteCheckpoint(now, periodic, since);
      return Completed;
    }
  }

  /** The times and crash points of successive attempts, all in one scan mode. */
  ghost predicate OneMode(c: Option<Checkpoint>, nows: seq<int>) {
    forall k :: 0 <= k < |nows| ==> FullDue(c, nows[k]) == FullDue(c, nows[0])
  }

  ghost predicate FinishesFrom(server: Server, c: Option<Checkpoint>, full: bool, budgets: seq<nat>)
    requires WellPaged(server)
  {
    var (catalog, all) := (CatalogPages(server, Since(c, full)), AllPages(server, Since(c, full), Watermark(c)));
    Finishes(catalog, all, full, all, true, budgets)
  }

  lemma SameWatermarksSameRun(server: Server, c: Option<Checkpoint>, d: Option<Checkpoint>, full: bool, from: Cursor,
                              budget: nat, outcome: Outcome, p: Cursor)
    requires WellPaged(server) && SameWatermarks(c, d)
    ensures RunEnded(server, d, full, from, budget, outcome, p) <==> RunEnded(server, c, full, from, budget, outcome, p)
  {
  }

  /** What the attempts made so far say about those to come. */
  ghost predicate GoesOn(server: Server, c: Option<Checkpoint>, full: bool, budgets: seq<nat>, rest: seq<nat>, p: Cursor)
    requires WellPaged(server)
  {
    var (since, watermark) := (Since(c, full), Watermark(c));
    var (catalog, all) := (CatalogPages(server, since), AllPages(server, since, watermark));
    InRange(server, since, watermark, p) &&
    (FinishesFrom(server, c, full, budgets) <==>
     Finishes(catalog, all, full, PagesFrom(server, since, watermark, p), p == Cursor(Media, 0), rest))
  }

  lemma AttemptMade(server: Server, c: Option<Checkpoint>, full: bool, budgets: seq<nat>, rest: seq<nat>, from: Cursor,
                    outcome: Outcome, p: Cursor)
    requires WellPaged(server) && rest != [] && GoesOn(server, c, full, budgets, rest, from)
    requires RunEnded(server, c, full, from, rest[0], outcome, p)
    ensures outcome == Completed ==> FinishesFrom(server, c, full, budgets)
    ensures outcome == Crashed ==> GoesOn(server, c, full, budgets, rest[1..], p)
  {
  }

  /**
   Any number of crashes and resumes: whether some attempt completes is decided by the budgets. The
   one that does has, together with those before it, stored everything that was listed, and switched
   off only what a whole listing lacks.
   */
  method SyncWithRetries(scan: LibraryScan, server: Server, nows: seq<int>, budgets: seq<nat>) returns (outcome: Outcome)
    requires WellPaged(server) && |nows| == |budgets| > 0 && (forall i, j :: 0 <= i < j < |nows| ==> nows[i] <= nows[j])
    requires ResumePosition(scan.checkpoint) == Cursor(Media, 0) && scan.CursorSound(server) && scan.ScansRecorded(nows[0])
    requires OneMode(scan.checkpoint, nows)
    modifies scan
    ensures scan.CursorSound(server) && scan.full == FullDue(old(scan.checkpoint), nows[0])
    ensures outcome == Completed <==> FinishesFrom(server, old(scan.checkpoint), scan.full, budgets)
    ensures outcome == Completed ==>
      && Below(|server.media(Since(old(scan.checkpoint), scan.full))|, scan.media)
      && Below(server.history(Watermark(old(scan.checkpoint))), scan.history)
    ensures scan.OnlyMissing(server, old(scan.available), scan.available, scan.full)
  {
    ghost var (first, full) := (scan.checkpoint, FullDue(scan.checkpoint, nows[0]));
    outcome := Crashed;
    var k := 0;
    assert budgets[0..] == budgets;
    while outcome == Crashed && k < |nows|
      invariant k <= |nows| && scan.CursorSound(server) && (k == 0 ==> outcome == Crashed && scan.checkpoint == first)
      invariant k > 0 ==> scan.full == full
      invariant outcome == Crashed ==>
        && SameWatermarks(first, scan.checkpoint) && scan.ScansRecorded(nows[if k == 0 then 0 else k - 1])
        && GoesOn(server, first, full, budgets, budgets[k..], ResumePosition(scan.checkpoint))
      invariant outcome == Completed ==>
        && FinishesFrom(server, first, full, budgets)
        && Below(|server.media(Since(first, full))|, scan.media) && Below(server.history(Watermark(first)), scan.history)
      invariant scan.OnlyMissing(server, old(scan.available), scan.available, full)
      decreases |nows| - k
    {
      assert FullDue(scan.checkpoint, nows[k]) == FullDue(first, nows[k]);
      ghost var (c, from) := (scan.checkpoint, ResumePosition(scan.checkpoint));
      outcome := scan.SyncLibrary(server, nows[k], budgets[k]);
      SameWatermarksSameRun(server, first, c, full, from, budgets[k], outcome, ResumePosition(scan.checkpoint));
      AttemptMade(server, first, full, budgets, budgets[k..], from, outcome, ResumePosition(scan.checkpoint));
      assert budgets[k..][1..] == budgets[k + 1..];
      k := k + 1;
    }
  }

  // ----- A change that a resumed scan misses -----

  function Film(id: string): MediaItem {
    MediaItem(Movie, id, None, None, None, None, None)
  }

  /** Two films, one on each page, and no history. */
  function TwoPages(): Server {
    Server((since: Option<int>) => [Film("a"), Film("b")],
           (since: Option<int>, start: nat) => if start == 0 then Some(1) else None,
           (watermark: Option<int>) => 0,
           (watermark: Option<int>, start: nat) => None)
  }

  lemma TwoPagesCount(since: Option<int>, watermark: Option<int>)
    ensures WellPaged(TwoPages()) && CatalogPages(TwoPages(), since) == 2 && AllPages(TwoPages(), since, watermark) == 3
  {
    assert TwoPages().mediaNext(since, 0) == Some(1) && TwoPages().mediaNext(since, 1) == None;
    assert MediaPages(TwoPages(), since, 1) == 1;
    assert TwoPages().historyNext(watermark, 0) == None;
  }

  const FIVE_MINUTES := 300_000_000

  /**
   A scan begins at 0 and dies after its first page; a film of that page changes; five minutes later
   the scan is resumed and completes; the next scan asks for what changed since two minutes before the
   resume. None of them reads the change.
   */
  method ResumedScanMissesChange() returns (scan: LibraryScan, ghost change: Change)
    ensures fresh(scan) && ClocksAgree(change)
    ensures scan.scans ==
      [ScanRecord(0, FIVE_MINUTES, None), ScanRecord(2 * FIVE_MINUTES, 2 * FIVE_MINUTES, Some(FIVE_MINUTES - WATERMARK_OVERLAP))]
    ensures Chain(scan.scans) && change.at < 2 * FIVE_MINUTES
    ensures forall k :: 0 <= k < |scan.scans| ==> !Reads(scan.scans[k], change)
  {
    var server := TwoPages();
    TwoPagesCount(None, None);
    TwoPagesCount(Some(FIVE_MINUTES - WATERMARK_OVERLAP), Some(FIVE_MINUTES - WATERMARK_OVERLAP));
    scan := new LibraryScan();
    var outcome := scan.SyncLibrary(server, 0, 1);
    assert outcome == Crashed && ResumePosition(scan.checkpoint) != Cursor(Media, 0);
    outcome := scan.SyncLibrary(server, FIVE_MINUTES, 4);
    assert outcome == Completed;
    outcome := scan.SyncLibrary(server, 2 * FIVE_MINUTES, 5);
    assert outcome == Completed;
    change := Change(1, 1);
  }

  lemma ChainGrows(scans: seq<ScanRecord>, scan: ScanRecord)
    requires Chain(scans) && scan.began <= scan.start
    requires if scans == [] then scan.since == None
             else scans[|scans| - 1].start <= scan.start
                  && (scan.since == None || scan.since == Some(scans[|scans| - 1].start - WATERMARK_OVERLAP))
    ensures Chain(scans + [scan])
  {
    var more := scans + [scan];
    forall k: nat | k < |more|
      ensures Follows(more, k)
    {
      assert k < |scans| ==> Follows(scans, k);
    }
  }

  lemma IdsGrow(items: seq<MediaItem>, start: nat, at: nat, end: nat)
    requires start <= at <= end <= |items|
    ensures IdsOf(items[start..end]) == IdsOf(items[start..at]) + IdsOf(items[at..end])
  {
    assert items[start..end] == items[start..at] + items[at..end];
    IdsConcat(items[start..at], items[at..end]);
  }

  lemma OneMoreItem(items: seq<MediaItem>, k: nat)
    requires k < |items|
    ensures IdsOf(items[..k + 1]) == IdsOf(items[..k]) + ExternalIds(items[k])
  {
    assert items[..k + 1] == items[..k] + [items[k]];
    IdsConcat(items[..k], [items[k]]);
    assert IdsOf([items[k]]) == ExternalIds(items[k]);
  }

  lemma IdsConcat(x: seq<MediaItem>, y: seq<MediaItem>)
    ensures IdsOf(x + y) == IdsOf(x) + IdsOf(y)
  {
    forall id | id in IdsOf(x) + IdsOf(y)
      ensures id in IdsOf(x + y)
    {
      if id in IdsOf(x) {
        var i :| 0 <= i < |x| && id in ExternalIds(x[i]);
        assert (x + y)[i] == x[i];
      } else {
        var i :| 0 <= i < |y| && id in ExternalIds(y[i]);
        assert (x + y)[|x| + i] == y[i];
      }
    }
  }
}
