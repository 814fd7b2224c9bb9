/**
 Propagation of completions and resume positions between the Plex and the Jellyfin server. One
 directional pass each way settles every group of matching items that is live on both.
 */
module Propagation {
  import opened Catalog
  import opened Playback
  import opened WatchStates

  /**
   `live` holds the (item, source) pairs with an available reference; `events` the latest completed
   event of the configured user.
   */
  datatype World = World(plex: nat, jellyfin: nat, live: set<Key>, events: map<Key, int>)

  datatype Candidate = Candidate(
    target: nat, items: set<nat>, completedAt: Option<int>, progress: Option<nat>, completed: bool, playedAt: Option<int>)

  type Group = seq<nat>

  function SourceOf(w: World, c: Connector): nat {
    if c == Plex then w.plex else w.jellyfin
  }

  function OtherOf(w: World, c: Connector): nat {
    if c == Plex then w.jellyfin else w.plex
  }

  // ----- What the tables say about one item on one server -----

  /** A state row decides alone; without one the events do. A missing date reads as the collection time. */
  function Watched(w: World, t: Table, k: Key): Option<int> {
    if k in t then (if t[k].completed then Some(t[k].lastWatched.GetOr(t[k].observed)) else None)
    else if k in w.events then Some(w.events[k])
    else None
  }

  function Position(t: Table, k: Key): nat {
    if k in t && !t[k].completed then t[k].progress.GetOr(0) else 0
  }

  function EventDate(w: World, k: Key): Option<int> {
    if k in w.events then Some(w.events[k]) else None
  }

  function CompletionDate(w: World, t: Table, k: Key): Option<int> {
    Latest(if k in t && t[k].completed then t[k].lastWatched else None, EventDate(w, k))
  }

  function PlaybackDate(w: World, t: Table, k: Key): Option<int> {
    var stored := if k !in t then None else if t[k].lastPlayed.Some? then t[k].lastPlayed else t[k].lastWatched;
    if k in w.events then Latest(stored, CompletionDate(w, t, k)) else stored
  }

  // ----- The maxima over a group -----

  function WatchedIn(w: World, t: Table, g: Group, source: nat): Option<int> {
    if g == [] then None else Latest(Watched(w, t, (g[0], source)), WatchedIn(w, t, g[1..], source))
  }

  function PositionIn(t: Table, g: Group, source: nat): nat {
    if g == [] then 0 else Max(Position(t, (g[0], source)), PositionIn(t, g[1..], source))
  }

  function CompletionDateIn(w: World, t: Table, g: Group, source: nat): Option<int> {
    if g == [] then None else Latest(CompletionDate(w, t, (g[0], source)), CompletionDateIn(w, t, g[1..], source))
  }

  function PlaybackDateIn(w: World, t: Table, g: Group, source: nat): Option<int> {
    if g == [] then None else Latest(PlaybackDate(w, t, (g[0], source)), PlaybackDateIn(w, t, g[1..], source))
  }

  function LiveItems(w: World, g: Group, source: nat): set<nat> {
    set x | x in g && (x, source) in w.live
  }

  predicate LiveOnBoth(w: World, g: Group) {
    LiveItems(w, g, w.plex) != {} && LiveItems(w, g, w.jellyfin) != {}
  }

  // ----- The decision tables -----

  function Completing(w: World, t: Table, from: nat, target: nat, g: Group): Candidate {
    Candidate(target, LiveItems(w, g, target), CompletionDateIn(w, t, g, from), None, true, PlaybackDateIn(w, t, g, from))
  }

  function Resuming(w: World, t: Table, from: nat, target: nat, g: Group): Candidate {
    Candidate(target, LiveItems(w, g, target), None, Some(PositionIn(t, g, from)), false, PlaybackDateIn(w, t, g, from))
  }

  datatype Choice = Nothing | Complete | Resume

  /** One direction: completions travel first; Jellyfin's position only fills an empty one on Plex. */
  function Choose(direction: Connector, seen: bool, there: bool, position: nat, current: nat): Choice {
    if seen && !there then Complete
    else if seen || there || position == 0 || position == current then Nothing
    else if direction == Jellyfin && current > 0 then Nothing
    else Resume
  }

  function ChoiceFor(w: World, t: Table, direction: Connector, g: Group): Choice {
    var (from, target) := (SourceOf(w, direction), OtherOf(w, direction));
    if !LiveOnBoth(w, g) then Nothing
    else Choose(direction, WatchedIn(w, t, g, from).Some?, WatchedIn(w, t, g, target).Some?,
                PositionIn(t, g, from), PositionIn(t, g, target))
  }

  function Decide(w: World, t: Table, direction: Connector, g: Group): Option<Candidate> {
    var (from, target) := (SourceOf(w, direction), OtherOf(w, direction));
    match ChoiceFor(w, t, direction, g)
    case Nothing => None
    case Complete => Some(Completing(w, t, from, target, g))
    case Resume => Some(Resuming(w, t, from, target, g))
  }

  /** Both directions at once. */
  function DecideBoth(w: World, t: Table, g: Group): Option<Candidate> {
    var (plex, jellyfin) := (WatchedIn(w, t, g, w.plex), WatchedIn(w, t, g, w.jellyfin));
    var (onPlex, onJellyfin) := (PositionIn(t, g, w.plex), PositionIn(t, g, w.jellyfin));
    if !LiveOnBoth(w, g) then None
    else if plex.Some? && jellyfin.None? then Some(Completing(w, t, w.plex, w.jellyfin, g))
    else if plex.None? && jellyfin.Some? then Some(Completing(w, t, w.jellyfin, w.plex, g))
    else if plex.Some? || jellyfin.Some? then None
    else if onPlex > 0 && onPlex != onJellyfin then Some(Resuming(w, t, w.plex, w.jellyfin, g))
    else if onJellyfin > 0 then Some(Resuming(w, t, w.jellyfin, w.plex, g))
    else None
  }

  /** All decisions of a pass are made before anything is written. */
  function Candidates(w: World, t: Table, direction: Connector, groups: seq<Group>): seq<Candidate> {
    if groups == [] then []
    else
      var n := |groups| - 1;
      var c := Decide(w, t, direction, groups[n]);
      Candidates(w, t, direction, groups[..n]) + if c.Some? then [c.value] else []
  }

  function WriteOf(c: Candidate, k: Key, now: int): Write {
    Propagated(k, c.completed, c.completedAt, c.progress, c.playedAt, now)
  }

  function Targets(c: Candidate): set<Key> {
    set x | x in c.items :: (x, c.target)
  }

  function Record(t: Table, c: Candidate, now: int): Table {
    map k | k in t.Keys + Targets(c) :: if k in Targets(c) then Apply(t, WriteOf(c, k, now))[k] else t[k]
  }

  function RecordAll(t: Table, cs: seq<Candidate>, now: int): Table {
    if cs == [] then t else Record(RecordAll(t, cs[..|cs| - 1], now), cs[|cs| - 1], now)
  }

  /** A pass in which the remote server accepts every candidate. */
  function Pass(w: World, t: Table, direction: Connector, groups: seq<Group>, now: int): Table {
    RecordAll(t, Candidates(w, t, direction, groups), now)
  }

  // ----- The effect of a pass on one group -----

  ghost predicate Disjoint(groups: seq<Group>) {
    forall i, j, x :: 0 <= i < j < |groups| && x in groups[i] ==> x !in groups[j]
  }

  /** Row `k` of an item of group `g` after the decision on `g` was carried out. */
  ghost predicate Settled(w: World, t: Table, next: Table, direction: Connector, g: Group, k: Key, now: int) {
    var c := Decide(w, t, direction, g);
    if c.Some? && k in Targets(c.value) then k in next && next[k] == Apply(t, WriteOf(c.value, k, now))[k]
    else RowKept(t, next, k)
  }

  lemma TargetsInGroup(w: World, t: Table, direction: Connector, g: Group)
    ensures var c := Decide(w, t, direction, g);
      c.Some? ==> forall k :: k in Targets(c.value) ==> k.0 in g
  {
  }

  lemma {:induction false} OtherGroupsLeaveRow(w: World, t: Table, direction: Connector, groups: seq<Group>, now: int, k: Key)
    requires forall i :: 0 <= i < |groups| ==> k.0 !in groups[i]
    ensures RowKept(t, Pass(w, t, direction, groups, now), k)
  {
    if groups != [] {
      var n := |groups| - 1;
      OtherGroupsLeaveRow(w, t, direction, groups[..n], now, k);
      TargetsInGroup(w, t, direction, groups[n]);
      PassGrows(w, t, direction, groups, now);
    }
  }

  lemma PassGrows(w: World, t: Table, direction: Connector, groups: seq<Group>, now: int)
    requires groups != []
    ensures var n := |groups| - 1;
      Pass(w, t, direction, groups, now) == Decided(w, t, Pass(w, t, direction, groups[..n], now), direction, groups[n], now)
  {
    var n := |groups| - 1;
    var c := Decide(w, t, direction, groups[n]);
    var cs := Candidates(w, t, direction, groups[..n]);
    if c.Some? {
      assert (cs + [c.value])[..|cs|] == cs;
    } else {
      assert cs + [] == cs;
    }
  }

  lemma {:induction false} PassSettles(w: World, t: Table, direction: Connector, groups: seq<Group>, now: int, i: nat, k: Key)
    requires Disjoint(groups) && i < |groups| && k.0 in groups[i]
    ensures Settled(w, t, Pass(w, t, direction, groups, now), direction, groups[i], k, now)
  {
    var n := |groups| - 1;
    PassGrows(w, t, direction, groups, now);
    FrontIsDisjoint(groups, i, k.0);
    var before := Pass(w, t, direction, groups[..n], now);
    if i == n {
      OtherGroupsLeaveRow(w, t, direction, groups[..n], now, k);
      OwnDecisionSettles(w, t, before, direction, groups[n], now, k);
    } else {
      PassSettles(w, t, direction, groups[..n], now, i, k);
      OtherDecisionLeavesRow(w, t, before, direction, groups[n], now, k);
    }
  }

  /** The table after the decision on one more group was carried out. */
  function Decided(w: World, t: Table, before: Table, direction: Connector, g: Group, now: int): Table {
    var c := Decide(w, t, direction, g);
    if c.Some? then Record(before, c.value, now) else before
  }

  lemma OwnDecisionSettles(w: World, t: Table, before: Table, direction: Connector, g: Group, now: int, k: Key)
    requires RowKept(t, before, k)
    ensures Settled(w, t, Decided(w, t, before, direction, g, now), direction, g, k, now)
  {
  }

  lemma OtherDecisionLeavesRow(w: World, t: Table, before: Table, direction: Connector, g: Group, now: int, k: Key)
    requires k.0 !in g
    ensures RowKept(before, Decided(w, t, before, direction, g, now), k)
  {
    TargetsInGroup(w, t, direction, g);
  }

  lemma FrontIsDisjoint(groups: seq<Group>, i: nat, x: nat)
    requires Disjoint(groups) && i < |groups| && x in groups[i]
    ensures var n := |groups| - 1;
      Disjoint(groups[..n]) && if i == n then forall j :: 0 <= j < n ==> x !in groups[..n][j] else x !in groups[n]
  {
  }

  ghost predicate GroupSettled(w: World, t: Table, next: Table, direction: Connector, g: Group, now: int) {
    forall k: Key {:trigger Settled(w, t, next, direction, g, k, now)} ::
      k.0 in g ==> Settled(w, t, next, direction, g, k, now)
  }

  /** An item the server no longer has keeps a position beyond `p`, where no write can reach it. */
  ghost predicate Overtaken(w: World, t: Table, g: Group, source: nat, p: nat) {
    exists x: nat :: x in g && (x, source) !in w.live && Position(t, (x, source)) > p
  }

  lemma {:induction false} WatchedInSome(w: World, t: Table, g: Group, source: nat)
    ensures WatchedIn(w, t, g, source).Some? <==> exists x :: x in g && Watched(w, t, (x, source)).Some?
  {
    if g != [] {
      WatchedInSome(w, t, g[1..], source);
      assert g[0] in g;
      assert forall x :: x in g <==> x == g[0] || x in g[1..];
    }
  }

  lemma {:induction false} SameRowsSameMaxima(w: World, t: Table, next: Table, g: Group, source: nat)
    requires forall x: nat :: x in g ==> RowKept(t, next, (x, source))
    ensures WatchedIn(w, next, g, source) == WatchedIn(w, t, g, source)
    ensures PositionIn(next, g, source) == PositionIn(t, g, source)
  {
    if g != [] {
      assert g[0] in g && RowKept(t, next, (g[0], source));
      assert forall x :: x in g[1..] ==> x in g;
      SameRowsSameMaxima(w, t, next, g[1..], source);
    }
  }

  lemma {:induction false} PositionInIsMax(t: Table, g: Group, source: nat)
    ensures forall x: nat :: x in g ==> Position(t, (x, source)) <= PositionIn(t, g, source)
    ensures PositionIn(t, g, source) > 0 ==>
      exists x: nat :: x in g && Position(t, (x, source)) == PositionIn(t, g, source)
  {
    if g != [] {
      PositionInIsMax(t, g[1..], source);
      assert g[0] in g && forall x :: x in g <==> x == g[0] || x in g[1..];
    }
  }

  /** What one pass makes of a group's four maxima. */
  lemma SourceSideStays(w: World, t: Table, next: Table, direction: Connector, g: Group, now: int)
    requires w.plex != w.jellyfin && GroupSettled(w, t, next, direction, g, now)
    ensures WatchedIn(w, next, g, SourceOf(w, direction)) == WatchedIn(w, t, g, SourceOf(w, direction))
    ensures PositionIn(next, g, SourceOf(w, direction)) == PositionIn(t, g, SourceOf(w, direction))
  {
    var from := SourceOf(w, direction);
    forall x: nat | x in g
      ensures RowKept(t, next, (x, from))
    {
      assert Settled(w, t, next, direction, g, (x, from), now);
    }
    SameRowsSameMaxima(w, t, next, g, from);
  }

  lemma CompletionArrives(w: World, t: Table, next: Table, direction: Connector, g: Group, now: int)
    requires GroupSettled(w, t, next, direction, g, now)
    requires ChoiceFor(w, t, direction, g) == Complete
    ensures WatchedIn(w, next, g, OtherOf(w, direction)).Some?
  {
    var target := OtherOf(w, direction);
    var x: nat :| x in LiveItems(w, g, target);
    assert Settled(w, t, next, direction, g, (x, target), now);
    assert Watched(w, next, (x, target)).Some?;
    WatchedInSome(w, next, g, target);
  }

  /** The target shows the sent position, unless an item it no longer has shows a later one. */
  lemma PositionArrives(w: World, t: Table, next: Table, direction: Connector, g: Group, now: int)
    requires GroupSettled(w, t, next, direction, g, now)
    requires ChoiceFor(w, t, direction, g) == Resume
    ensures WatchedIn(w, next, g, OtherOf(w, direction)) == None
    ensures var (p, arrived) := (PositionIn(t, g, SourceOf(w, direction)), PositionIn(next, g, OtherOf(w, direction)));
      p > 0 && if Overtaken(w, t, g, OtherOf(w, direction), p) then arrived > p else arrived == p
  {
    var target := OtherOf(w, direction);
    var p := PositionIn(t, g, SourceOf(w, direction));
    WatchedInSome(w, t, g, target);
    forall x: nat | x in g
      ensures Watched(w, next, (x, target)) == None
      ensures Position(next, (x, target)) == if (x, target) in w.live then p else Position(t, (x, target))
    {
      assert Settled(w, t, next, direction, g, (x, target), now);
      assert Watched(w, t, (x, target)) == None;
    }
    WatchedInSome(w, next, g, target);
    var x: nat :| x in LiveItems(w, g, target);
    PositionInIsMax(next, g, target);
  }

  lemma NoCandidateNoChange(w: World, t: Table, next: Table, direction: Connector, g: Group, now: int)
    requires GroupSettled(w, t, next, direction, g, now) && ChoiceFor(w, t, direction, g) == Nothing
    ensures WatchedIn(w, next, g, OtherOf(w, direction)) == WatchedIn(w, t, g, OtherOf(w, direction))
    ensures PositionIn(next, g, OtherOf(w, direction)) == PositionIn(t, g, OtherOf(w, direction))
  {
    var target := OtherOf(w, direction);
    forall x: nat | x in g
      ensures RowKept(t, next, (x, target))
    {
      assert Settled(w, t, next, direction, g, (x, target), now);
    }
    SameRowsSameMaxima(w, t, next, g, target);
  }

  // ----- Convergence -----

  /** Both directions have nothing left to send for this group. */
  ghost predicate Quiet(w: World, t: Table, g: Group) {
    ChoiceFor(w, t, Plex, g) == Nothing && ChoiceFor(w, t, Jellyfin, g) == Nothing
  }

  ghost predicate CompletionsAgree(w: World, t: Table, g: Group) {
    WatchedIn(w, t, g, w.plex).Some? <==> WatchedIn(w, t, g, w.jellyfin).Some?
  }

  ghost predicate Unfinished(w: World, t: Table, g: Group) {
    WatchedIn(w, t, g, w.plex).None? && WatchedIn(w, t, g, w.jellyfin).None?
  }

  /** The first pass sends a resume position that an unreachable item on Jellyfin overtakes. */
  ghost predicate Blocked(w: World, t: Table, g: Group) {
    ChoiceFor(w, t, Plex, g) == Resume && Overtaken(w, t, g, w.jellyfin, PositionIn(t, g, w.plex))
  }

  ghost predicate Converged(w: World, t: Table, end: Table, g: Group) {
    && Quiet(w, end, g) && CompletionsAgree(w, end, g) && (Unfinished(w, end, g) <==> Unfinished(w, t, g))
    && (Unfinished(w, end, g) ==>
          var (plex, jellyfin) := (PositionIn(t, g, w.plex), PositionIn(t, g, w.jellyfin));
          PositionIn(end, g, w.plex) == PositionIn(end, g, w.jellyfin) == if plex > 0 then plex else jellyfin)
  }

  lemma TwoPassesSettleGroup(w: World, t: Table, middle: Table, end: Table, g: Group, now: int, later: int)
    requires w.plex != w.jellyfin && LiveOnBoth(w, g)
    requires GroupSettled(w, t, middle, Plex, g, now) && GroupSettled(w, middle, end, Jellyfin, g, later)
    ensures CompletionsAgree(w, end, g) && (Converged(w, t, end, g) <==> !Blocked(w, t, g))
  {
    SourceSideStays(w, t, middle, Plex, g, now);
    SourceSideStays(w, middle, end, Jellyfin, g, later);
    ArrivalOrNoChange(w, t, middle, Plex, g, now);
    ArrivalOrNoChange(w, middle, end, Jellyfin, g, later);
    if ChoiceFor(w, middle, Jellyfin, g) == Resume {
      NothingOvertakesOnPlex(w, middle, g);
    }
  }

  /** Jellyfin's position only travels to a Plex group without any position. */
  lemma NothingOvertakesOnPlex(w: World, t: Table, g: Group)
    requires ChoiceFor(w, t, Jellyfin, g) == Resume
    ensures !Overtaken(w, t, g, w.plex, PositionIn(t, g, w.jellyfin))
  {
    PositionInIsMax(t, g, w.plex);
  }

  lemma ArrivalOrNoChange(w: World, t: Table, next: Table, direction: Connector, g: Group, now: int)
    requires GroupSettled(w, t, next, direction, g, now)
    ensures
      var (from, target) := (SourceOf(w, direction), OtherOf(w, direction));
      var (p, arrived) := (PositionIn(t, g, from), PositionIn(next, g, target));
      match ChoiceFor(w, t, direction, g)
      case Nothing => WatchedIn(w, next, g, target) == WatchedIn(w, t, g, target) && arrived == PositionIn(t, g, target)
      case Complete => WatchedIn(w, next, g, target).Some?
      case Resume =>
        WatchedIn(w, next, g, target) == None && p > 0 && if Overtaken(w, t, g, target, p) then arrived > p else arrived == p
  {
    match ChoiceFor(w, t, direction, g)
    case Nothing => NoCandidateNoChange(w, t, next, direction, g, now);
    case Complete => CompletionArrives(w, t, next, direction, g, now);
    case Resume => PositionArrives(w, t, next, direction, g, now);
  }

  /**
   One round converges: after Plex to Jellyfin and then Jellyfin to Plex, the group has nothing
   left to send, both servers agree on completion, and an unfinished group agrees on the position,
   Plex's own when it had one. It fails exactly for the groups blocked by a stale position.
   */
  lemma OneRoundConvergesIff(w: World, t: Table, groups: seq<Group>, now: int, later: int, i: nat)
    requires w.plex != w.jellyfin && Disjoint(groups) && i < |groups| && LiveOnBoth(w, groups[i])
    ensures var end := Pass(w, Pass(w, t, Plex, groups, now), Jellyfin, groups, later);
      CompletionsAgree(w, end, groups[i]) && (Converged(w, t, end, groups[i]) <==> !Blocked(w, t, groups[i]))
  {
    var middle := Pass(w, t, Plex, groups, now);
    var end := Pass(w, middle, Jellyfin, groups, later);
    forall k: Key | k.0 in groups[i]
      ensures Settled(w, t, middle, Plex, groups[i], k, now) && Settled(w, middle, end, Jellyfin, groups[i], k, later)
    {
      PassSettles(w, t, Plex, groups, now, i, k);
      PassSettles(w, middle, Jellyfin, groups, later, i, k);
    }
    TwoPassesSettleGroup(w, t, middle, end, groups[i], now, later);
  }

  /** Item 7 is on both servers at position 100; item 8 has left Jellyfin, where it was at 500. */
  const STUCK_WORLD := World(1, 2, {(7, 1), (7, 2), (8, 1)}, map[])

  const STUCK: Table := map[
    (7, 1) := State(0, false, None, None, Some(100), 0),
    (8, 2) := State(0, false, None, None, Some(500), 0)]

  lemma PairGroup(w: World, t: Table, x: nat, y: nat, source: nat)
    ensures WatchedIn(w, t, [x, y], source) == Latest(Watched(w, t, (x, source)), Watched(w, t, (y, source)))
    ensures PositionIn(t, [x, y], source) == Max(Position(t, (x, source)), Position(t, (y, source)))
  {
    SingleItemGroup(w, t, y, source);
    assert [x, y][1..] == [y];
  }

  /** Such a group exists, and one round leaves it with something to send. */
  lemma BlockedGroupDoesNotConverge(now: int, later: int)
    ensures LiveOnBoth(STUCK_WORLD, [7, 8]) && Blocked(STUCK_WORLD, STUCK, [7, 8])
    ensures var middle := Pass(STUCK_WORLD, STUCK, Plex, [[7, 8]], now);
      !Converged(STUCK_WORLD, STUCK, Pass(STUCK_WORLD, middle, Jellyfin, [[7, 8]], later), [7, 8])
  {
    PairGroup(STUCK_WORLD, STUCK, 7, 8, 1);
    PairGroup(STUCK_WORLD, STUCK, 7, 8, 2);
    assert 7 in LiveItems(STUCK_WORLD, [7, 8], 1) && 7 in LiveItems(STUCK_WORLD, [7, 8], 2);
    assert 8 in [7, 8] && Position(STUCK, (8, 2)) == 500;
    OneRoundConvergesIff(STUCK_WORLD, STUCK, [[7, 8]], now, later, 0);
  }

  lemma {:induction false} NoDecisionNoCandidates(w: World, t: Table, direction: Connector, groups: seq<Group>)
    requires forall i :: 0 <= i < |groups| ==> Decide(w, t, direction, groups[i]) == None
    ensures Candidates(w, t, direction, groups) == []
  {
    if groups != [] {
      NoDecisionNoCandidates(w, t, direction, groups[..|groups| - 1]);
    }
  }

  /** Resume positions are stored only where the server has the item. */
  ghost predicate PositionsAreLive(w: World, t: Table) {
    forall k: Key :: Position(t, k) > 0 ==> k in w.live
  }

  /** With live positions only, further passes in either direction find no candidate at all. */
  lemma FurtherPassesAreEmpty(w: World, t: Table, groups: seq<Group>, now: int, later: int, direction: Connector)
    requires w.plex != w.jellyfin && Disjoint(groups) && PositionsAreLive(w, t)
    ensures Candidates(w, Pass(w, Pass(w, t, Plex, groups, now), Jellyfin, groups, later), direction, groups) == []
  {
    var end := Pass(w, Pass(w, t, Plex, groups, now), Jellyfin, groups, later);
    forall i | 0 <= i < |groups|
      ensures Decide(w, end, direction, groups[i]) == None
    {
      if LiveOnBoth(w, groups[i]) {
        OneRoundConvergesIff(w, t, groups, now, later, i);
        assert !Blocked(w, t, groups[i]);
        assert Quiet(w, end, groups[i]);
      }
    }
    NoDecisionNoCandidates(w, end, direction, groups);
  }

  // ----- Groups that have not changed -----

  /** Nothing was sent for the group at `earlier`, and its rows are as they were then. */
  ghost predicate QuietSince(w: World, earlier: Table, t: Table, direction: Connector, g: Group) {
    Decide(w, earlier, direction, g) == None && forall x: nat, source: nat :: x in g ==> RowKept(earlier, t, (x, source))
  }

  lemma QuietSinceIsQuiet(w: World, earlier: Table, t: Table, direction: Connector, g: Group)
    requires QuietSince(w, earlier, t, direction, g)
    ensures Decide(w, t, direction, g) == None
  {
    SameRowsSameMaxima(w, earlier, t, g, w.plex);
    SameRowsSameMaxima(w, earlier, t, g, w.jellyfin);
  }

  // ----- Both directions at once -----

  /** Deciding both directions at once is quiet exactly when completions agree and nothing is in progress on Jellyfin. */
  lemma BothWaysIsQuietIff(w: World, t: Table, g: Group)
    requires LiveOnBoth(w, g)
    ensures DecideBoth(w, t, g) == None <==>
      CompletionsAgree(w, t, g)
      && (Unfinished(w, t, g) ==> PositionIn(t, g, w.plex) == 0 && PositionIn(t, g, w.jellyfin) == 0)
  {
  }

  lemma SingleItemGroup(w: World, t: Table, x: nat, source: nat)
    ensures WatchedIn(w, t, [x], source) == Watched(w, t, (x, source))
    ensures PositionIn(t, [x], source) == Position(t, (x, source))
  {
    assert [x][1..] == [];
    assert WatchedIn(w, t, [x], source) == Latest(Watched(w, t, (x, source)), WatchedIn(w, t, [], source));
  }

  ghost predicate BothAt(t: Table, p: nat) {
    t.Keys == {(7, 1), (7, 2)} && forall k :: k in t ==> !t[k].completed && t[k].progress == Some(p)
  }

  /** Equal positions are sent again for ever when both directions are decided at once. */
  lemma BothWaysNeverSettles(w: World, t: Table, now: int, p: nat)
    requires w == World(1, 2, {(7, 1), (7, 2)}, map[]) && p > 0 && BothAt(t, p)
    ensures Quiet(w, t, [7]) && DecideBoth(w, t, [7]).Some?
    ensures BothAt(Record(t, DecideBoth(w, t, [7]).value, now), p)
  {
    SingleItemGroup(w, t, 7, 1);
    SingleItemGroup(w, t, 7, 2);
    assert 7 in LiveItems(w, [7], 1) && 7 in LiveItems(w, [7], 2);
    var c := DecideBoth(w, t, [7]).value;
    assert LiveItems(w, [7], 1) == {7};
    assert Targets(c) == {(7, 1)};
  }

  // ----- The loops -----

  /** The branches of one group that is live on both servers. */
  method DecideGroup(w: World, t: Table, direction: Connector, g: Group) returns (c: Option<Candidate>)
    requires LiveOnBoth(w, g)
    ensures c == Decide(w, t, direction, g)
  {
    var (from, target) := (SourceOf(w, direction), OtherOf(w, direction));
    var seen, there := WatchedIn(w, t, g, from), WatchedIn(w, t, g, target);
    var position, current := PositionIn(t, g, from), PositionIn(t, g, target);
    if seen.Some? && there.None? {
      return Some(Completing(w, t, from, target, g));
    }
    if seen.Some? || there.Some? || position == 0 || position == current {
      return None;
    }
    if direction == Jellyfin && current > 0 {
      return None;
    }
    return Some(Resuming(w, t, from, target, g));
  }

  function LiveGroups(w: World, groups: seq<Group>): nat {
    if groups == [] then 0
    else LiveGroups(w, groups[..|groups| - 1]) + if LiveOnBoth(w, groups[|groups| - 1]) then 1 else 0
  }

  /** Reads everything, decides group by group, and writes nothing. */
  method Prepare(w: World, t: Table, direction: Connector, groups: seq<Group>)
      returns (candidates: seq<Candidate>, scanned: nat, skipped: nat)
    ensures candidates == Candidates(w, t, direction, groups)
    ensures scanned == LiveGroups(w, groups) == skipped + |candidates|
  {
    candidates, scanned, skipped := [], 0, 0;
    for n := 0 to |groups|
      invariant candidates == Candidates(w, t, direction, groups[..n])
      invariant scanned == LiveGroups(w, groups[..n]) == skipped + |candidates|
    {
      assert groups[..n + 1][..n] == groups[..n];
      if LiveOnBoth(w, groups[n]) {
        scanned := scanned + 1;
        var c := DecideGroup(w, t, direction, groups[n]);
        if c.Some? {
          candidates := candidates + [c.value];
        } else {
          skipped := skipped + 1;
        }
      }
    }
    assert groups[..|groups|] == groups;
  }

  lemma RecordedSoFar(t: Table, c: Candidate, done: set<nat>, x: nat, now: int, part: Table)
    requires part == Record(t, c.(items := done), now) && x !in done
    ensures Apply(part, WriteOf(c, (x, c.target), now)) == Record(t, c.(items := done + {x}), now)
  {
    var more := c.(items := done + {x});
    assert Targets(more) == Targets(c.(items := done)) + {(x, c.target)};
  }

  /** One accepted batch: every item of every candidate, in one transaction. */
  method RecordSuccesses(table: WatchStateTable, batch: seq<Candidate>, now: int)
    modifies table
    ensures table.rows == RecordAll(old(table.rows), batch, now)
  {
    ghost var start := table.rows;
    for n := 0 to |batch|
      invariant table.rows == RecordAll(start, batch[..n], now)
    {
      var c := batch[n];
      ghost var before := table.rows;
      var pending := c.items;
      ghost var done: set<nat> := {};
      assert before == Record(before, c.(items := {}), now);
      while pending != {}
        invariant done !! pending && done + pending == c.items
        invariant table.rows == Record(before, c.(items := done), now)
        decreases pending
      {
        var x :| x in pending;
        RecordedSoFar(before, c, done, x, now, table.rows);
        table.RecordPropagated((x, c.target), c.completed, c.completedAt, c.progress, c.playedAt, now);
        pending := pending - {x};
        done := done + {x};
      }
      assert done == c.items && c.(items := done) == c;
      assert batch[..n + 1][..n] == batch[..n];
    }
    assert batch[..|batch|] == batch;
  }

  const PERSIST_BATCH_SIZE := 100

  /** The candidates their server accepted. */
  function Accepted(cs: seq<Candidate>, accepted: seq<bool>): seq<Candidate>
    requires |cs| == |accepted|
  {
    if cs == [] then []
    else
      var n := |cs| - 1;
      Accepted(cs[..n], accepted[..n]) + if accepted[n] then [cs[n]] else []
  }

  lemma {:induction false} RecordAllConcat(t: Table, x: seq<Candidate>, y: seq<Candidate>, now: int)
    ensures RecordAll(t, x + y, now) == RecordAll(RecordAll(t, x, now), y, now)
  {
    if y == [] {
      assert x + y == x;
    } else {
      var n := |y| - 1;
      assert (x + y)[..|x + y| - 1] == x + y[..n] && (x + y)[|x + y| - 1] == y[n];
      RecordAllConcat(t, x, y[..n], now);
    }
  }

  /** Sends every candidate; what was accepted is written in batches, each candidate exactly once. */
  method Run(table: WatchStateTable, candidates: seq<Candidate>, accepted: seq<bool>, now: int)
      returns (updated: nat, failed: nat)
    requires |accepted| == |candidates|
    modifies table
    ensures table.rows == RecordAll(old(table.rows), Accepted(candidates, accepted), now)
    ensures updated == |Accepted(candidates, accepted)| && updated + failed == |candidates|
  {
    updated, failed := 0, 0;
    var pending: seq<Candidate> := [];
    ghost var start := table.rows;
    ghost var written: seq<Candidate> := [];
    for n := 0 to |candidates|
      invariant written + pending == Accepted(candidates[..n], accepted[..n])
      invariant table.rows == RecordAll(start, written, now)
      invariant updated == |written + pending| && updated + failed == n
    {
      assert candidates[..n + 1][..n] == candidates[..n] && accepted[..n + 1][..n] == accepted[..n];
      if accepted[n] {
        ghost var earlier := pending;
        pending := pending + [candidates[n]];
        assert written + pending == (written + earlier) + [candidates[n]];
        updated := updated + 1;
        if |pending| >= PERSIST_BATCH_SIZE {
          RecordAllConcat(start, written, pending, now);
          RecordSuccesses(table, pending, now);
          written := written + pending;
          pending := [];
          assert written + pending == written;
        }
      } else {
        failed := failed + 1;
      }
    }
    assert candidates[..|candidates|] == candidates && accepted[..|accepted|] == accepted;
    if pending != [] {
      RecordAllConcat(start, written, pending, now);
      RecordSuccesses(table, pending, now);
    } else {
      assert written + pending == written;
    }
  }
}
