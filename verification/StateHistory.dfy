/**
 What a row of the watch states holds, field by field, told from what the writes have brought to it:
 the other way round than the rules of the writers, and over every run of them.
 */
module StateHistory {
  import opened Catalog
  import opened Playback
  import opened WatchStates

  function Dates(d: Option<int>): set<int> {
    if d.Some? then {d.value} else {}
  }

  // ----- What one write brings to row `k` -----

  /** A scan that reports nothing at all writes nothing, and an instant update leaves a watched row alone. */
  predicate Writes(t: Table, w: Write, k: Key) {
    !w.Folded? && w.key == k
    && (w.Sync? ==> w.reported.Some? || w.viewed.Some? || w.offset.Some?)
    && (w.Instant? && k in t ==> !t[k].completed)
  }

  /** The dates of playback. */
  function PlaybackBrought(t: Table, w: Write, k: Key): set<int> {
    if !Writes(t, w, k) then {} else
    match w
    case Sync(_, _, _, viewed, _, _) => Dates(viewed)
    case Played(_, _, at, _) => {at}
    case Derived(_, _, last, _) => Dates(last)
    case Instant(_, _, _, at) => {at}
    case Propagated(_, _, _, _, at, _) => Dates(at)
    case Imported(_, _, _, _) => {}
    case Progressed(_, _, at) => {at}
    case Folded(_, _) => {}
  }

  /** The counts of views; a completion without a count counts as one, unless a scan reports it. */
  function ViewsBrought(t: Table, w: Write, k: Key): set<nat> {
    if !Writes(t, w, k) then {} else
    match w
    case Sync(_, reported, _, _, _, _) => if reported.Some? then {reported.value} else {}
    case Played(_, count, _, _) => {count}
    case Derived(_, count, _, _) => {count}
    case Instant(_, done, _, _) => if done then {1} else {}
    case Propagated(_, done, _, _, _, _) => if done then {1} else {}
    case Imported(_, count, _, _) => {count}
    case Progressed(_, _, _) => {}
    case Folded(_, _) => {}
  }

  predicate SaysCompleted(t: Table, w: Write, k: Key) {
    Writes(t, w, k) &&
    match w
    case Sync(_, reported, done, _, _, _) => done || (reported.Some? && reported.value > 0)
    case Played(_, _, _, _) => true
    case Derived(_, count, _, _) => count > 0
    case Instant(_, done, _, _) => done
    case Propagated(_, done, _, _, _, _) => done
    case Imported(_, _, _, _) => true
    case Progressed(_, _, _) => false
    case Folded(_, _) => false
  }

  /** What the row holds already. */
  function OwnPlayback(t: Table, k: Key): set<int> {
    if k in t then Dates(t[k].lastPlayed) else {}
  }

  function OwnViews(t: Table, k: Key): set<nat> {
    if k in t then {t[k].viewCount} else {}
  }

  predicate IsCompleted(t: Table, k: Key) {
    k in t && t[k].completed
  }

  /** One write, not a fold: playback, views and completion only grow, by what it brings. Containers are overwritten. */
  lemma WriteBrings(t: Table, w: Write, k: Key)
    requires !w.Folded?
    ensures var next := Apply(t, w);
      && (k in next <==> k in t || Writes(t, w, k)) && (!Writes(t, w, k) ==> RowKept(t, next, k))
      && (k in next ==> IsLatest(OwnPlayback(t, k) + PlaybackBrought(t, w, k), next[k].lastPlayed))
      && (k in next && !(Writes(t, w, k) && w.Derived?) ==> IsGreatest(OwnViews(t, k) + ViewsBrought(t, w, k), next[k].viewCount))
      && (!(Writes(t, w, k) && w.Derived?) ==> (IsCompleted(next, k) <==> IsCompleted(t, k) || SaysCompleted(t, w, k)))
      && (Writes(t, w, k) && w.Derived? ==> next[k].viewCount == w.count && (next[k].completed <==> w.count > 0))
  {
  }

  // ----- Positions, completion dates and the time of observation -----

  /** A position stays only until the next write; a completion erases it, and a watched row takes none. */
  function PositionAfter(t: Table, w: Write, k: Key): Option<nat>
    requires Writes(t, w, k)
  {
    var (own, seen) := (if k in t then t[k].progress else None, IsCompleted(t, k));
    match w
    case Sync(_, _, _, _, offset, _) => offset
    case Played(_, _, _, progress) => progress
    case Derived(_, _, _, _) => None
    case Instant(_, done, progress, _) => if done then None else progress
    case Propagated(_, done, _, progress, _, _) => if k !in t then progress else if done then None else if seen then own else progress
    case Imported(_, _, _, _) => own
    case Progressed(_, position, _) => if seen then own else Some(position)
  }

  /** Scans, events and imports move the date of completion forward; the other three put theirs in its place. */
  ghost predicate CompletionDateAfter(t: Table, w: Write, k: Key, at: Option<int>)
    requires Writes(t, w, k)
  {
    var own := if k in t then t[k].lastWatched else None;
    match w
    case Sync(_, _, _, viewed, _, _) => IsLatest(Dates(own) + Dates(viewed), at)
    case Played(_, _, date, _) => IsLatest(Dates(own) + {date}, at)
    case Derived(_, _, last, _) => at == last
    case Instant(_, done, _, date) => at == if done then Some(date) else own
    case Propagated(_, done, date, _, _, _) => at == if done || k !in t then date else own
    case Imported(_, _, date, _) => IsLatest(Dates(own) + {date}, at)
    case Progressed(_, _, _) => at == own
  }

  /** The time of the write, except that a watched row keeps its own when only a position or a playback comes. */
  function ObservedAfter(t: Table, w: Write, k: Key): int
    requires Writes(t, w, k)
  {
    match w
    case Sync(_, _, _, _, _, now) => now
    case Played(_, _, at, _) => at
    case Derived(_, _, _, now) => now
    case Instant(_, _, _, at) => at
    case Propagated(_, done, _, _, _, now) => if !done && IsCompleted(t, k) then t[k].observed else now
    case Imported(_, _, _, now) => now
    case Progressed(_, _, now) => if IsCompleted(t, k) then t[k].observed else now
  }

  lemma WriteReplaces(t: Table, w: Write, k: Key)
    requires Writes(t, w, k)
    ensures var next := Apply(t, w);
      k in next && next[k].progress == PositionAfter(t, w, k) && CompletionDateAfter(t, w, k, next[k].lastWatched)
      && next[k].observed == ObservedAfter(t, w, k)
  {
  }

  // ----- Over a run -----

  function AllPlaybackBrought(t: Table, ws: seq<Write>, k: Key): set<int>
    decreases |ws|
  {
    if ws == [] then {} else PlaybackBrought(t, ws[0], k) + AllPlaybackBrought(Apply(t, ws[0]), ws[1..], k)
  }

  function AllViewsBrought(t: Table, ws: seq<Write>, k: Key): set<nat>
    decreases |ws|
  {
    if ws == [] then {} else ViewsBrought(t, ws[0], k) + AllViewsBrought(Apply(t, ws[0]), ws[1..], k)
  }

  predicate EverCompleted(t: Table, ws: seq<Write>, k: Key)
    decreases |ws|
  {
    ws != [] && (SaysCompleted(t, ws[0], k) || EverCompleted(Apply(t, ws[0]), ws[1..], k))
  }

  lemma LatestSoFar(own: set<int>, first: set<int>, rest: set<int>, d: Option<int>, e: Option<int>)
    requires IsLatest(own + first, d) && IsLatest(Dates(d) + rest, e)
    ensures IsLatest(own + (first + rest), e)
  {
  }

  lemma GreatestSoFar(own: set<nat>, first: set<nat>, rest: set<nat>, m: nat, n: nat)
    requires IsGreatest(own + first, m) && IsGreatest({m} + rest, n)
    ensures IsGreatest(own + (first + rest), n)
  {
  }

  /**
   Over every run without folds: the last playback of a row is the latest that was ever brought to it;
   of a playable item the count is the greatest ever brought, and it is watched exactly if that was
   ever said.
   */
  lemma {:induction false} RunBrings(t: Table, ws: seq<Write>, k: Key)
    requires forall w :: w in ws ==> !w.Folded?
    ensures var end := ApplyAll(t, ws);
      && (k in end ==> IsLatest(OwnPlayback(t, k) + AllPlaybackBrought(t, ws, k), end[k].lastPlayed))
      && (k !in end ==> k !in t && AllPlaybackBrought(t, ws, k) == {} && AllViewsBrought(t, ws, k) == {})
      && ((forall w :: w in ws && w.Derived? ==> w.key != k) ==>
            && (k in end ==> IsGreatest(OwnViews(t, k) + AllViewsBrought(t, ws, k), end[k].viewCount))
            && (IsCompleted(end, k) <==> IsCompleted(t, k) || EverCompleted(t, ws, k)))
    decreases |ws|
  {
    if ws != [] {
      var (w, rest, next) := (ws[0], ws[1..], Apply(t, ws[0]));
      WriteBrings(t, w, k);
      RunBrings(next, rest, k);
      var end := ApplyAll(next, rest);
      if k in end {
        PlaybackSoFar(t, w, k, AllPlaybackBrought(next, rest, k), end[k].lastPlayed);
        if forall v :: v in ws && v.Derived? ==> v.key != k {
          ViewsSoFar(t, w, k, AllViewsBrought(next, rest, k), end[k].viewCount);
        }
      }
    }
  }

  lemma PlaybackSoFar(t: Table, w: Write, k: Key, rest: set<int>, e: Option<int>)
    requires !w.Folded? && IsLatest(OwnPlayback(Apply(t, w), k) + rest, e)
    ensures IsLatest(OwnPlayback(t, k) + (PlaybackBrought(t, w, k) + rest), e)
  {
    var next := Apply(t, w);
    WriteBrings(t, w, k);
    if k in next {
      LatestSoFar(OwnPlayback(t, k), PlaybackBrought(t, w, k), rest, next[k].lastPlayed, e);
    } else {
      assert OwnPlayback(t, k) + (PlaybackBrought(t, w, k) + rest) == OwnPlayback(next, k) + rest;
    }
  }

  lemma ViewsSoFar(t: Table, w: Write, k: Key, rest: set<nat>, n: nat)
    requires !w.Folded? && !(w.Derived? && w.key == k) && IsGreatest(OwnViews(Apply(t, w), k) + rest, n)
    ensures IsGreatest(OwnViews(t, k) + (ViewsBrought(t, w, k) + rest), n)
  {
    var next := Apply(t, w);
    WriteBrings(t, w, k);
    if k in next {
      GreatestSoFar(OwnViews(t, k), ViewsBrought(t, w, k), rest, next[k].viewCount, n);
    } else {
      assert OwnViews(t, k) + (ViewsBrought(t, w, k) + rest) == OwnViews(next, k) + rest;
    }
  }

  // ----- Folds -----

  /** The row of the winner keeps its resume position and takes the more and the later of both in everything else. */
  ghost predicate BothFolded(a: State, b: State, c: State) {
    && c.progress == a.progress && IsGreatest({a.viewCount, b.viewCount}, c.viewCount)
    && (c.completed <==> a.completed || b.completed)
    && IsLatest(Dates(a.lastWatched) + Dates(b.lastWatched), c.lastWatched)
    && IsLatest(Dates(a.lastPlayed) + Dates(b.lastPlayed), c.lastPlayed)
    && IsLatest({a.observed, b.observed}, Some(c.observed))
  }

  /** Source by source: both rows in one, the only row as it is; the loser has none, and nobody else's changes. */
  lemma FoldIsTold(t: Table, winner: nat, loser: nat, k: Key)
    requires winner != loser
    ensures var (next, a, b) := (Apply(t, Folded(winner, loser)), (winner, k.1), (loser, k.1));
      && b !in next && (a in next <==> a in t || b in t)
      && (a in t && b in t ==> BothFolded(t[a], t[b], next[a]))
      && (a in t && b !in t ==> next[a] == t[a]) && (a !in t && b in t ==> next[a] == t[b])
      && (k.0 != winner && k.0 != loser ==> RowKept(t, next, k))
  {
    var next := Fold(t, winner, loser);
    forall h: Key
      ensures h in FoldedKeys(t, winner, loser) <==> h.0 != loser && (h in t || (h.0 == winner && (loser, h.1) in t))
    {
      if h in t && h.0 != loser {
        assert Retarget(h, winner, loser) == h;
      }
      if h.0 == winner && (loser, h.1) in t {
        assert Retarget((loser, h.1), winner, loser) == h;
      }
    }
  }
}
