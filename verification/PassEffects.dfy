/**
 What one propagation pass makes of every row, told from the rows and events it began with: which
 groups complete or resume, and the dates and positions that travel.
 */
module PassEffects {
  import opened Catalog
  import opened Playback
  import opened WatchStates
  import opened Propagation
  import StateHistory

  // ----- What the tables say about a group on one server -----

  ghost predicate LiveOn(w: World, g: Group, source: nat) {
    exists x: nat :: x in g && (x, source) in w.live
  }

  /** A row says itself whether it is watched; without one a completed event does. */
  predicate SeenItem(w: World, t: Table, k: Key) {
    if k in t then t[k].completed else k in w.events
  }

  ghost predicate Seen(w: World, t: Table, g: Group, source: nat) {
    exists x: nat :: x in g && SeenItem(w, t, (x, source))
  }

  function EventDates(w: World, k: Key): set<int> {
    if k in w.events then {w.events[k]} else {}
  }

  /** The dates at which it is known to have been completed. */
  function CompletionDatesOf(w: World, t: Table, k: Key): set<int> {
    EventDates(w, k) + if k in t && t[k].completed && t[k].lastWatched.Some? then {t[k].lastWatched.value} else {}
  }

  /** The stored playback, else the stored completion, of a row; and once there is an event, the completions as well. */
  function PlaybackDatesOf(w: World, t: Table, k: Key): set<int> {
    (if k in t && t[k].lastPlayed.Some? then {t[k].lastPlayed.value}
     else if k in t && t[k].lastWatched.Some? then {t[k].lastWatched.value}
     else {})
    + if k in w.events then CompletionDatesOf(w, t, k) else {}
  }

  function CompletionDates(w: World, t: Table, g: Group, source: nat): set<int> {
    set x, d | x in g && d in CompletionDatesOf(w, t, (x, source)) :: d
  }

  function PlaybackDates(w: World, t: Table, g: Group, source: nat): set<int> {
    set x, d | x in g && d in PlaybackDatesOf(w, t, (x, source)) :: d
  }

  function PositionsOf(t: Table, k: Key): set<nat> {
    if k in t && !t[k].completed && t[k].progress.Some? then {t[k].progress.value} else {}
  }

  function Positions(t: Table, g: Group, source: nat): set<nat> {
    set x, p | x in g && p in PositionsOf(t, (x, source)) :: p
  }

  lemma CompletionDateSplit(w: World, t: Table, g: Group, source: nat)
    requires g != []
    ensures CompletionDates(w, t, g, source) == CompletionDatesOf(w, t, (g[0], source)) + CompletionDates(w, t, g[1..], source)
  {
    var k := (g[0], source);
    assert forall x :: x in g <==> x == g[0] || x in g[1..];
    forall d
      ensures d in CompletionDates(w, t, g, source) <==> d in CompletionDatesOf(w, t, k) || d in CompletionDates(w, t, g[1..], source)
    {
      if d in CompletionDates(w, t, g[1..], source) {
        var x :| x in g[1..] && d in CompletionDatesOf(w, t, (x, source));
      }
      assert d in CompletionDatesOf(w, t, k) ==> g[0] in g && d in CompletionDatesOf(w, t, (g[0], source));
    }
  }

  lemma CompletionDateTold(w: World, t: Table, k: Key)
    ensures IsLatest(CompletionDatesOf(w, t, k), CompletionDate(w, t, k))
  {
  }

  lemma {:induction false} CompletionDatesTold(w: World, t: Table, g: Group, source: nat)
    ensures IsLatest(CompletionDates(w, t, g, source), CompletionDateIn(w, t, g, source))
  {
    if g != [] {
      var k := (g[0], source);
      CompletionDatesTold(w, t, g[1..], source);
      CompletionDateSplit(w, t, g, source);
      CompletionDateTold(w, t, k);
      LatestOfUnion(CompletionDatesOf(w, t, k), CompletionDates(w, t, g[1..], source), CompletionDate(w, t, k), CompletionDateIn(w, t, g[1..], source));
    }
  }

  lemma PlaybackDateSplit(w: World, t: Table, g: Group, source: nat)
    requires g != []
    ensures PlaybackDates(w, t, g, source) == PlaybackDatesOf(w, t, (g[0], source)) + PlaybackDates(w, t, g[1..], source)
  {
    var k := (g[0], source);
    assert forall x :: x in g <==> x == g[0] || x in g[1..];
    forall d
      ensures d in PlaybackDates(w, t, g, source) <==> d in PlaybackDatesOf(w, t, k) || d in PlaybackDates(w, t, g[1..], source)
    {
      if d in PlaybackDates(w, t, g[1..], source) {
        var x :| x in g[1..] && d in PlaybackDatesOf(w, t, (x, source));
      }
      assert d in PlaybackDatesOf(w, t, k) ==> g[0] in g && d in PlaybackDatesOf(w, t, (g[0], source));
    }
  }

  lemma PlaybackDateTold(w: World, t: Table, k: Key)
    ensures IsLatest(PlaybackDatesOf(w, t, k), PlaybackDate(w, t, k))
  {
  }

  lemma {:induction false} PlaybackDatesTold(w: World, t: Table, g: Group, source: nat)
    ensures IsLatest(PlaybackDates(w, t, g, source), PlaybackDateIn(w, t, g, source))
  {
    if g != [] {
      var k := (g[0], source);
      PlaybackDatesTold(w, t, g[1..], source);
      PlaybackDateSplit(w, t, g, source);
      PlaybackDateTold(w, t, k);
      LatestOfUnion(PlaybackDatesOf(w, t, k), PlaybackDates(w, t, g[1..], source), PlaybackDate(w, t, k), PlaybackDateIn(w, t, g[1..], source));
    }
  }

  lemma {:induction false} PositionsTold(t: Table, g: Group, source: nat)
    ensures IsGreatest(Positions(t, g, source), PositionIn(t, g, source))
  {
    if g != [] {
      PositionsTold(t, g[1..], source);
      assert g == [g[0]] + g[1..];
      assert Positions(t, g, source) == PositionsOf(t, (g[0], source)) + Positions(t, g[1..], source);
    }
  }

  lemma SeenTold(w: World, t: Table, g: Group, source: nat)
    ensures WatchedIn(w, t, g, source).Some? <==> Seen(w, t, g, source)
  {
    WatchedInSome(w, t, g, source);
    forall x: nat
      ensures Watched(w, t, (x, source)).Some? <==> SeenItem(w, t, (x, source))
    {
    }
  }

  lemma LiveTold(w: World, g: Group)
    ensures LiveOnBoth(w, g) <==> LiveOn(w, g, w.plex) && LiveOn(w, g, w.jellyfin)
  {
    SomeLiveItem(w, g, w.plex);
    SomeLiveItem(w, g, w.jellyfin);
  }

  lemma SomeLiveItem(w: World, g: Group, source: nat)
    ensures LiveOn(w, g, source) <==> LiveItems(w, g, source) != {}
  {
    if x: nat :| x in g && (x, source) in w.live {
      assert x in LiveItems(w, g, source);
    }
    if x :| x in LiveItems(w, g, source) {
      assert x in g && (x, source) in w.live;
    }
  }

  // ----- Which groups are sent -----

  ghost predicate Completes(w: World, t: Table, g: Group, from: nat, target: nat) {
    LiveOn(w, g, from) && LiveOn(w, g, target) && Seen(w, t, g, from) && !Seen(w, t, g, target)
  }

  /** `p` is the furthest position of the sending side, `q` that of the other. */
  ghost predicate Resumes(w: World, t: Table, g: Group, from: nat, target: nat, p: nat, q: nat) {
    && LiveOn(w, g, from) && LiveOn(w, g, target) && !Seen(w, t, g, from) && !Seen(w, t, g, target)
    && IsGreatest(Positions(t, g, from), p) && IsGreatest(Positions(t, g, target), q) && p > 0 && p != q
  }

  /** The candidate names the live items of the target, and brings the latest playback of the sending side. */
  ghost predicate Addressed(w: World, t: Table, g: Group, from: nat, target: nat, c: Candidate) {
    && c.target == target && c.items == (set x | x in g && (x, target) in w.live)
    && IsLatest(PlaybackDates(w, t, g, from), c.playedAt)
  }

  ghost predicate Completion(w: World, t: Table, g: Group, from: nat, target: nat, c: Candidate) {
    Addressed(w, t, g, from, target, c) && c.completed && IsLatest(CompletionDates(w, t, g, from), c.completedAt) && c.progress == None
  }

  ghost predicate Resumption(w: World, t: Table, g: Group, from: nat, target: nat, c: Candidate, p: nat) {
    Addressed(w, t, g, from, target, c) && !c.completed && c.completedAt == None && c.progress == Some(p)
  }

  /** Completions travel both ways; of two positions Plex's does, and Jellyfin's only where Plex has none. */
  ghost predicate DecisionTold(w: World, t: Table, direction: Connector, g: Group, c: Option<Candidate>) {
    var (from, target) := (SourceOf(w, direction), OtherOf(w, direction));
    && (Completes(w, t, g, from, target) ==> c.Some? && Completion(w, t, g, from, target, c.value))
    && (forall p, q :: Resumes(w, t, g, from, target, p, q) && (direction == Jellyfin ==> q == 0) ==>
          c.Some? && Resumption(w, t, g, from, target, c.value, p))
    && (c.Some? ==>
          (Completes(w, t, g, from, target)
           || exists p, q :: Resumes(w, t, g, from, target, p, q) && (direction == Jellyfin ==> q == 0)))
  }

  lemma GroupTold(w: World, t: Table, g: Group, from: nat, target: nat)
    ensures Completion(w, t, g, from, target, Completing(w, t, from, target, g))
    ensures Resumption(w, t, g, from, target, Resuming(w, t, from, target, g), PositionIn(t, g, from))
    ensures IsGreatest(Positions(t, g, from), PositionIn(t, g, from)) && IsGreatest(Positions(t, g, target), PositionIn(t, g, target))
    ensures WatchedIn(w, t, g, from).Some? <==> Seen(w, t, g, from)
    ensures WatchedIn(w, t, g, target).Some? <==> Seen(w, t, g, target)
  {
    CompletionDatesTold(w, t, g, from);
    PlaybackDatesTold(w, t, g, from);
    PositionsTold(t, g, from);
    PositionsTold(t, g, target);
    SeenTold(w, t, g, from);
    SeenTold(w, t, g, target);
  }

  /** Every decision of a directional pass, from the tables alone. */
  lemma DecisionIsTold(w: World, t: Table, direction: Connector, g: Group)
    ensures DecisionTold(w, t, direction, g, Decide(w, t, direction, g))
  {
    var (from, target) := (SourceOf(w, direction), OtherOf(w, direction));
    GroupTold(w, t, g, from, target);
    LiveTold(w, g);
    var (p, q) := (PositionIn(t, g, from), PositionIn(t, g, target));
    forall a, b | Resumes(w, t, g, from, target, a, b)
      ensures a == p && b == q
    {
      GreatestOnce(Positions(t, g, from), a, p);
      GreatestOnce(Positions(t, g, target), b, q);
    }
    if Decide(w, t, direction, g).Some? && !Completes(w, t, g, from, target) {
      assert Resumes(w, t, g, from, target, p, q);
    }
  }

  /** Deciding both directions at once: completions first, then Plex's position if it differs, then Jellyfin's. */
  lemma BothWaysIsTold(w: World, t: Table, g: Group, p: nat, q: nat)
    requires IsGreatest(Positions(t, g, w.plex), p) && IsGreatest(Positions(t, g, w.jellyfin), q)
    ensures var c := DecideBoth(w, t, g);
      && (Completes(w, t, g, w.plex, w.jellyfin) ==> c.Some? && Completion(w, t, g, w.plex, w.jellyfin, c.value))
      && (Completes(w, t, g, w.jellyfin, w.plex) ==> c.Some? && Completion(w, t, g, w.jellyfin, w.plex, c.value))
      && (if !LiveOn(w, g, w.plex) || !LiveOn(w, g, w.jellyfin) then c == None
          else if Seen(w, t, g, w.plex) || Seen(w, t, g, w.jellyfin) then
            c.Some? <==> Completes(w, t, g, w.plex, w.jellyfin) || Completes(w, t, g, w.jellyfin, w.plex)
          else if p > 0 && p != q then c.Some? && Resumption(w, t, g, w.plex, w.jellyfin, c.value, p)
          else if q > 0 then c.Some? && Resumption(w, t, g, w.jellyfin, w.plex, c.value, q)
          else c == None)
  {
    GroupTold(w, t, g, w.plex, w.jellyfin);
    GroupTold(w, t, g, w.jellyfin, w.plex);
    LiveTold(w, g);
    GreatestOnce(Positions(t, g, w.plex), p, PositionIn(t, g, w.plex));
    GreatestOnce(Positions(t, g, w.jellyfin), q, PositionIn(t, g, w.jellyfin));
  }

  // ----- What the pass makes of a row -----

  function OwnCount(t: Table, k: Key): nat {
    if k in t then t[k].viewCount else 0
  }

  /** Watched, with the latest completion of the sending side and no other date, and without a position. */
  ghost predicate RowCompleted(w: World, t: Table, next: Table, g: Group, from: nat, k: Key, now: int) {
    && k in next && next[k].completed && next[k].viewCount == Max(1, OwnCount(t, k))
    && IsLatest(CompletionDates(w, t, g, from), next[k].lastWatched)
    && IsLatest(StateHistory.OwnPlayback(t, k) + PlaybackDates(w, t, g, from), next[k].lastPlayed)
    && next[k].progress == None && next[k].observed == now
  }

  /** Unwatched as before, at the position of the sending side. */
  ghost predicate RowResumed(w: World, t: Table, next: Table, g: Group, from: nat, k: Key, p: nat, now: int) {
    && k in next && !next[k].completed && next[k].viewCount == OwnCount(t, k)
    && next[k].lastWatched == (if k in t then t[k].lastWatched else None)
    && IsLatest(StateHistory.OwnPlayback(t, k) + PlaybackDates(w, t, g, from), next[k].lastPlayed)
    && next[k].progress == Some(p) && next[k].observed == now
  }

  /** Row `k` of an item of group `g` after a pass. */
  ghost predicate RowTold(w: World, t: Table, next: Table, direction: Connector, g: Group, k: Key, now: int) {
    var (from, target) := (SourceOf(w, direction), OtherOf(w, direction));
    if k.1 != target || k !in w.live then RowKept(t, next, k)
    else if Completes(w, t, g, from, target) then RowCompleted(w, t, next, g, from, k, now)
    else if exists p, q :: Resumes(w, t, g, from, target, p, q) && (direction == Jellyfin ==> q == 0) then
      exists p :: p > 0 && IsGreatest(Positions(t, g, from), p) && RowResumed(w, t, next, g, from, k, p, now)
    else RowKept(t, next, k)
  }

  lemma WrittenRow(w: World, t: Table, g: Group, from: nat, target: nat, c: Candidate, k: Key, now: int)
    requires Addressed(w, t, g, from, target, c) && k == (k.0, target)
    ensures var s := Apply(t, WriteOf(c, k, now))[k];
      && k in Apply(t, WriteOf(c, k, now)) && IsLatest(StateHistory.OwnPlayback(t, k) + PlaybackDates(w, t, g, from), s.lastPlayed)
  {
    var own := if k in t then t[k].lastPlayed else None;
    LatestOfUnion(StateHistory.OwnPlayback(t, k), PlaybackDates(w, t, g, from), own, c.playedAt);
  }

  /**
   What a pass makes of every row of every group: completions arrive with the latest date the sending
   side has for them, or with none, never with the time of observation; positions arrive as they are;
   the last playback is the later of both sides; and no other row changes.
   */
  lemma PassIsTold(w: World, t: Table, direction: Connector, groups: seq<Group>, now: int, i: nat, k: Key)
    requires Disjoint(groups) && i < |groups| && k.0 in groups[i]
    ensures RowTold(w, t, Pass(w, t, direction, groups, now), direction, groups[i], k, now)
  {
    var g := groups[i];
    PassSettles(w, t, direction, groups, now, i, k);
    DecisionIsTold(w, t, direction, g);
    var c := Decide(w, t, direction, g);
    if c.Some? && k.1 == OtherOf(w, direction) && k in w.live {
      SentRowTold(w, t, Pass(w, t, direction, groups, now), direction, g, k, now);
    } else if c.Some? {
      assert k !in Targets(c.value);
    }
  }

  lemma SentRowTold(w: World, t: Table, next: Table, direction: Connector, g: Group, k: Key, now: int)
    requires k.0 in g && k.1 == OtherOf(w, direction) && k in w.live && Decide(w, t, direction, g).Some?
    requires Settled(w, t, next, direction, g, k, now) && DecisionTold(w, t, direction, g, Decide(w, t, direction, g))
    ensures RowTold(w, t, next, direction, g, k, now)
  {
    var (from, target) := (SourceOf(w, direction), OtherOf(w, direction));
    var c := Decide(w, t, direction, g).value;
    if k in t {
      TargetIsUnseen(w, t, direction, g, k);
    }
    if Completes(w, t, g, from, target) {
      assert k in Targets(c);
      WrittenRow(w, t, g, from, target, c, k, now);
    } else {
      var p, q :| Resumes(w, t, g, from, target, p, q) && (direction == Jellyfin ==> q == 0);
      assert k in Targets(c);
      WrittenRow(w, t, g, from, target, c, k, now);
      assert RowResumed(w, t, next, g, from, k, p, now);
    }
  }

  /** Only rows that are not watched are written. */
  lemma TargetIsUnseen(w: World, t: Table, direction: Connector, g: Group, k: Key)
    requires Decide(w, t, direction, g).Some? && k.0 in g && k.1 == OtherOf(w, direction) && k in t
    ensures !t[k].completed
  {
    SeenTold(w, t, g, k.1);
    assert SeenItem(w, t, (k.0, k.1)) <==> t[k].completed;
  }

  // ----- Candidates that the server refuses -----

  /** No two candidates write one row. */
  ghost predicate TargetsApart(cs: seq<Candidate>) {
    forall i, j, k :: 0 <= i < j < |cs| && k in Targets(cs[i]) ==> k !in Targets(cs[j])
  }

  /** Row `k` once those of the candidates that were accepted have been recorded. */
  ghost predicate RecordTold(t: Table, cs: seq<Candidate>, accepted: seq<bool>, next: Table, k: Key, now: int)
    requires |accepted| == |cs|
  {
    && (forall i :: 0 <= i < |cs| && k in Targets(cs[i]) ==>
          if accepted[i] then k in next && next[k] == Apply(t, WriteOf(cs[i], k, now))[k] else RowKept(t, next, k))
    && ((forall i :: 0 <= i < |cs| ==> k !in Targets(cs[i])) ==> RowKept(t, next, k))
  }

  /** Exactly the rows of accepted candidates change, each as its own candidate says. */
  lemma {:induction false} AcceptedAreRecorded(t: Table, cs: seq<Candidate>, accepted: seq<bool>, now: int, k: Key)
    requires |accepted| == |cs| && TargetsApart(cs)
    ensures RecordTold(t, cs, accepted, RecordAll(t, Accepted(cs, accepted), now), k, now)
  {
    if cs != [] {
      var n := |cs| - 1;
      AcceptedAreRecorded(t, cs[..n], accepted[..n], now, k);
      var (earlier, all) := (Accepted(cs[..n], accepted[..n]), Accepted(cs, accepted));
      if accepted[n] {
        assert all == earlier + [cs[n]] && all[..|all| - 1] == earlier;
      } else {
        assert all == earlier;
      }
      OneMoreRecorded(t, cs, accepted, RecordAll(t, earlier, now), k, now);
    }
  }

  lemma OneMoreRecorded(t: Table, cs: seq<Candidate>, accepted: seq<bool>, before: Table, k: Key, now: int)
    requires |accepted| == |cs| > 0 && TargetsApart(cs)
    requires RecordTold(t, cs[..|cs| - 1], accepted[..|cs| - 1], before, k, now)
    ensures RecordTold(t, cs, accepted, if accepted[|cs| - 1] then Record(before, cs[|cs| - 1], now) else before, k, now)
  {
    var n := |cs| - 1;
    if k in Targets(cs[n]) {
      assert forall i :: 0 <= i < n ==> k !in Targets(cs[..n][i]);
      assert RowKept(t, before, k);
      assert forall i :: 0 <= i < n ==> k !in Targets(cs[i]);
    } else {
      forall i | 0 <= i < n && k in Targets(cs[i])
        ensures if accepted[i] then k in before && before[k] == Apply(t, WriteOf(cs[i], k, now))[k] else RowKept(t, before, k)
      {
        assert cs[..n][i] == cs[i] && accepted[..n][i] == accepted[i];
      }
      assert (forall i :: 0 <= i < |cs| ==> k !in Targets(cs[i])) ==> forall i :: 0 <= i < n ==> k !in Targets(cs[..n][i]);
    }
  }
}
