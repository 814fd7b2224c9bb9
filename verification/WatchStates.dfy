/**
 Every writer of the watch-state table. Each writes its row by its own rule; together they keep
 `view_count > 0 ==> completed`, and what was played or completed stays so.
 */
module WatchStates {
  import opened Catalog
  import opened Playback

  /** At most one row per item and source. */
  type Key = (nat, nat)
  type Table = map<Key, State>

  datatype Write =
    /** A library scan reports an item. */
    | Sync(key: Key, reported: Option<nat>, done: bool, viewed: Option<int>, offset: Option<nat>, now: int)
    /** A new completed event was stored; `count` is the larger of its view number and the stored events. */
    | Played(key: Key, count: nat, watchedAt: int, progress: Option<nat>)
    /** A season, show, album or artist is derived from its children. */
    | Derived(key: Key, count: nat, last: Option<int>, now: int)
    /** An instant update reached the other server. */
    | Instant(key: Key, done: bool, progress: Option<nat>, watchedAt: int)
    /** A propagated candidate was accepted by the target server. */
    | Propagated(key: Key, done: bool, completedAt: Option<int>, progress: Option<nat>, playedAt: Option<int>, now: int)
    /** The history import recounts the events of an item. */
    | Imported(key: Key, count: nat, lastAt: int, now: int)
    /** A webhook reports a resume position. */
    | Progressed(key: Key, position: nat, now: int)
    /** Reconciliation folds one item into another. */
    | Folded(winner: nat, loser: nat)

  function NewRow(count: nat, completed: bool, observed: int): State {
    State(count, completed, None, None, None, observed)
  }

  function Existing(t: Table, k: Key, default: State): State {
    if k in t then t[k] else default
  }

  // ----- The rule of each writer -----

  function Synced(t: Table, w: Write): Table
    requires w.Sync?
  {
    if w.reported.None? && w.viewed.None? && w.offset.None? then t
    else
      var count := w.reported.GetOr(0);
      var done := w.done || count > 0;
      var s := Existing(t, w.key, NewRow(count, done, w.now));
      t[w.key := State(Max(s.viewCount, count), s.completed || done, Latest(w.viewed, s.lastWatched),
                       Latest(w.viewed, s.lastPlayed), w.offset, w.now)]
  }

  function Seen(t: Table, w: Write): Table
    requires w.Played?
  {
    var s := Existing(t, w.key, NewRow(w.count, true, w.watchedAt));
    t[w.key := State(Max(s.viewCount, w.count), true, Latest(s.lastWatched, Some(w.watchedAt)),
                     Latest(s.lastPlayed, Some(w.watchedAt)), w.progress, w.watchedAt)]
  }

  function DerivedFrom(t: Table, w: Write): Table
    requires w.Derived?
  {
    var s := Existing(t, w.key, NewRow(w.count, w.count > 0, w.now));
    t[w.key := State(w.count, w.count > 0, w.last, Latest(s.lastPlayed, w.last), None, w.now)]
  }

  /** Rows the server already completed are left alone. */
  function Updated(t: Table, w: Write): Table
    requires w.Instant?
  {
    if w.key in t && t[w.key].completed then t
    else
      var s := Existing(t, w.key, NewRow(if w.done then 1 else 0, w.done, w.watchedAt));
      t[w.key := State(if w.done then Max(s.viewCount, 1) else s.viewCount, w.done,
                       if w.done then Some(w.watchedAt) else s.lastWatched,
                       Latest(s.lastPlayed, Some(w.watchedAt)),
                       if w.done then None else w.progress, w.watchedAt)]
  }

  function Recorded(t: Table, w: Write): Table
    requires w.Propagated?
  {
    var s :=
      if w.key !in t then State(if w.done then 1 else 0, w.done, w.completedAt, None, w.progress, w.now)
      else if w.done then t[w.key].(completed := true, lastWatched := w.completedAt,
                                    viewCount := Max(1, t[w.key].viewCount), progress := None, observed := w.now)
      else if !t[w.key].completed then t[w.key].(progress := w.progress, observed := w.now)
      else t[w.key];
    t[w.key := s.(lastPlayed := Latest(s.lastPlayed, w.playedAt))]
  }

  function Recounted(t: Table, w: Write): Table
    requires w.Imported?
  {
    if w.key !in t then t[w.key := State(w.count, true, Some(w.lastAt), None, None, w.now)]
    else
      var s := t[w.key];
      t[w.key := s.(viewCount := Max(s.viewCount, w.count), lastWatched := Latest(s.lastWatched, Some(w.lastAt)),
                    completed := true, observed := w.now)]
  }

  /** A completed row keeps its resume position and only moves its last playback. */
  function Resumed(t: Table, w: Write): Table
    requires w.Progressed?
  {
    var s := Existing(t, w.key, NewRow(0, false, w.now));
    var played := s.(lastPlayed := Latest(s.lastPlayed, Some(w.now)));
    t[w.key := if s.completed then played else played.(progress := Some(w.position), observed := w.now)]
  }

  /** The winner's resume position is kept; everything else is the join of both rows. */
  function JoinStates(a: State, b: State): State {
    State(Max(a.viewCount, b.viewCount), a.completed || b.completed, Latest(a.lastWatched, b.lastWatched),
          Latest(a.lastPlayed, b.lastPlayed), a.progress, if a.observed < b.observed then b.observed else a.observed)
  }

  function FoldedState(t: Table, winner: nat, loser: nat, source: nat): State
    requires (winner, source) in t || (loser, source) in t
  {
    if (winner, source) !in t then t[(loser, source)]
    else if (loser, source) !in t then t[(winner, source)]
    else JoinStates(t[(winner, source)], t[(loser, source)])
  }

  function Retarget(k: Key, winner: nat, loser: nat): Key {
    if k.0 == loser then (winner, k.1) else k
  }

  /** The keys after the loser's rows were moved to the winner. */
  function FoldedKeys(t: Table, winner: nat, loser: nat): set<Key> {
    set k | k in t :: Retarget(k, winner, loser)
  }

  function Fold(t: Table, winner: nat, loser: nat): Table {
    map k | k in FoldedKeys(t, winner, loser) ::
      if k.0 == winner && (loser, k.1) in t then FoldedState(t, winner, loser, k.1) else Existing(t, k, NewRow(0, false, 0))
  }

  function Apply(t: Table, w: Write): Table {
    match w
    case Sync(_, _, _, _, _, _) => Synced(t, w)
    case Played(_, _, _, _) => Seen(t, w)
    case Derived(_, _, _, _) => DerivedFrom(t, w)
    case Instant(_, _, _, _) => Updated(t, w)
    case Propagated(_, _, _, _, _, _) => Recorded(t, w)
    case Imported(_, _, _, _) => Recounted(t, w)
    case Progressed(_, _, _) => Resumed(t, w)
    case Folded(winner, loser) => Fold(t, winner, loser)
  }

  function ApplyAll(t: Table, ws: seq<Write>): Table
    decreases |ws|
  {
    if ws == [] then t else ApplyAll(Apply(t, ws[0]), ws[1..])
  }

  // ----- What all of them keep -----

  ghost predicate RowKept(t: Table, next: Table, k: Key) {
    (k in t <==> k in next) && (k in t ==> next[k] == t[k])
  }

  ghost predicate SensibleRow(t: Table, k: Key) {
    k in t && t[k].viewCount > 0 ==> t[k].completed
  }

  ghost predicate Sensible(t: Table) {
    forall k: Key {:trigger SensibleRow(t, k)} :: SensibleRow(t, k)
  }

  predicate NotBefore(a: Option<int>, b: Option<int>) {
    a.Some? ==> b.Some? && a.value <= b.value
  }

  predicate Advances(a: State, b: State) {
    (a.completed ==> b.completed) && a.viewCount <= b.viewCount
  }

  /** The row that carries on from row `k` after the write. */
  function Heir(w: Write, k: Key): Key {
    if w.Folded? then Retarget(k, w.winner, w.loser) else k
  }

  function HeirAll(ws: seq<Write>, k: Key): Key {
    if ws == [] then k else HeirAll(ws[1..], Heir(ws[0], k))
  }

  /** Only containers are derived, and an item is only folded into one of its own kind. */
  predicate RespectsKinds(w: Write, playable: set<nat>) {
    && (w.Derived? ==> w.key.0 !in playable)
    && (w.Folded? ==> w.winner != w.loser && (w.winner in playable <==> w.loser in playable))
  }

  lemma FoldedRow(t: Table, winner: nat, loser: nat, k: Key)
    requires winner != loser && k in t
    ensures var h := Retarget(k, winner, loser);
      h in Fold(t, winner, loser) && Advances(t[k], Fold(t, winner, loser)[h])
      && NotBefore(t[k].lastPlayed, Fold(t, winner, loser)[h].lastPlayed)
      && NotBefore(t[k].lastWatched, Fold(t, winner, loser)[h].lastWatched)
  {
  }

  lemma WriteKeepsSensible(t: Table, w: Write, playable: set<nat>)
    requires Sensible(t) && RespectsKinds(w, playable)
    ensures Sensible(Apply(t, w))
  {
    forall k: Key
      ensures SensibleRow(Apply(t, w), k)
    {
      assert SensibleRow(t, k);
      if w.Folded? {
        assert SensibleRow(t, (w.winner, k.1)) && SensibleRow(t, (w.loser, k.1));
      } else {
        assert SensibleRow(t, w.key);
      }
    }
  }

  /** No write loses a row, and no write but a fold changes any row but its own. */
  lemma WriteAdvances(t: Table, w: Write, playable: set<nat>, k: Key)
    requires RespectsKinds(w, playable) && k in t
    ensures Heir(w, k) in Apply(t, w)
    ensures NotBefore(t[k].lastPlayed, Apply(t, w)[Heir(w, k)].lastPlayed)
    ensures k.0 in playable ==> Heir(w, k).0 in playable && Advances(t[k], Apply(t, w)[Heir(w, k)])
    ensures !w.Folded? && k != w.key ==> Apply(t, w)[k] == t[k]
  {
    if w.Folded? {
      FoldedRow(t, w.winner, w.loser, k);
    }
  }

  /** Over every run of writes, in any order: a positive count always means completed. */
  lemma {:induction false} RunKeepsSensible(t: Table, ws: seq<Write>, playable: set<nat>)
    requires Sensible(t) && forall w :: w in ws ==> RespectsKinds(w, playable)
    ensures Sensible(ApplyAll(t, ws))
    decreases |ws|
  {
    if ws != [] {
      WriteKeepsSensible(t, ws[0], playable);
      RunKeepsSensible(Apply(t, ws[0]), ws[1..], playable);
    }
  }

  /**
   Over every run: the row, followed through merges, is never lost and never played earlier; for
   playable items it also never becomes uncompleted and never loses a view.
   */
  lemma {:induction false} RunAdvances(t: Table, ws: seq<Write>, playable: set<nat>, k: Key)
    requires (forall w :: w in ws ==> RespectsKinds(w, playable)) && k in t
    ensures HeirAll(ws, k) in ApplyAll(t, ws)
    ensures NotBefore(t[k].lastPlayed, ApplyAll(t, ws)[HeirAll(ws, k)].lastPlayed)
    ensures k.0 in playable ==> Advances(t[k], ApplyAll(t, ws)[HeirAll(ws, k)])
    decreases |ws|
  {
    if ws != [] {
      WriteAdvances(t, ws[0], playable, k);
      RunAdvances(Apply(t, ws[0]), ws[1..], playable, Heir(ws[0], k));
    }
  }

  /** What keeps the completion date of row `k`: the three writers that overwrite a date bring no earlier one. */
  predicate BringsNoEarlierDate(t: Table, w: Write, k: Key)
    requires k in t
  {
    match w
    case Derived(key, _, last, _) => k == key ==> NotBefore(t[k].lastWatched, last)
    case Instant(key, done, _, at) => k == key && done && !t[k].completed ==> NotBefore(t[k].lastWatched, Some(at))
    case Propagated(key, done, at, _, _, _) => k == key && done ==> NotBefore(t[k].lastWatched, at)
    case _ => true
  }

  /** Unlike the playback date the completion date may go back, and this is exactly when. */
  lemma CompletionDateKeptIff(t: Table, w: Write, k: Key)
    requires k in t && (w.Folded? ==> w.winner != w.loser)
    ensures Heir(w, k) in Apply(t, w)
    ensures NotBefore(t[k].lastWatched, Apply(t, w)[Heir(w, k)].lastWatched) <==> BringsNoEarlierDate(t, w, k)
  {
    if w.Folded? {
      FoldedRow(t, w.winner, w.loser, k);
    }
  }

  ghost predicate GoesBack(t: Table, w: Write, k: Key)
    requires k in t && !w.Folded?
  {
    k in Apply(t, w) && !NotBefore(t[k].lastWatched, Apply(t, w)[k].lastWatched)
  }

  /** Each of the three writers can move back, or erase, the date of any dated row. */
  lemma EachWriterCanGoBack(t: Table, k: Key, now: int)
    requires k in t && t[k].lastWatched.Some?
    ensures var earlier := t[k].lastWatched.value - 1;
      && GoesBack(t, Derived(k, 1, Some(earlier), now), k) && GoesBack(t, Derived(k, 0, None, now), k)
      && GoesBack(t, Propagated(k, true, Some(earlier), None, None, now), k)
      && GoesBack(t, Propagated(k, true, None, None, None, now), k)
      && (!t[k].completed ==> GoesBack(t, Instant(k, true, None, earlier), k))
  {
    var earlier := t[k].lastWatched.value - 1;
    CompletionDateKeptIff(t, Derived(k, 1, Some(earlier), now), k);
    CompletionDateKeptIff(t, Derived(k, 0, None, now), k);
    CompletionDateKeptIff(t, Propagated(k, true, Some(earlier), None, None, now), k);
    CompletionDateKeptIff(t, Propagated(k, true, None, None, None, now), k);
    CompletionDateKeptIff(t, Instant(k, true, None, earlier), k);
  }

  /** No write of the run, when its turn comes, brings an earlier date to the row that carries on from `k`. */
  ghost predicate NeverBringsEarlierDate(t: Table, ws: seq<Write>, k: Key)
    decreases |ws|
  {
    ws == [] ||
    (k in t && BringsNoEarlierDate(t, ws[0], k) && NeverBringsEarlierDate(Apply(t, ws[0]), ws[1..], Heir(ws[0], k)))
  }

  lemma {:induction false} RunKeepsCompletionDate(t: Table, ws: seq<Write>, playable: set<nat>, k: Key)
    requires k in t && NeverBringsEarlierDate(t, ws, k) && forall w :: w in ws ==> RespectsKinds(w, playable)
    ensures HeirAll(ws, k) in ApplyAll(t, ws)
    ensures NotBefore(t[k].lastWatched, ApplyAll(t, ws)[HeirAll(ws, k)].lastWatched)
    decreases |ws|
  {
    if ws != [] {
      assert RespectsKinds(ws[0], playable);
      CompletionDateKeptIff(t, ws[0], k);
      RunKeepsCompletionDate(Apply(t, ws[0]), ws[1..], playable, Heir(ws[0], k));
    }
  }

  // ----- The writers -----

  class WatchStateTable {
    var rows: Table

    constructor ()
      ensures rows == map[]
    {
      rows := map[];
    }

    /** Reports whether the server's count fell behind the stored one. */
    method SyncWatchState(key: Key, count: Option<nat>, done: bool, viewed: Option<int>, offset: Option<nat>, now: int)
        returns (regression: bool)
      modifies this
      ensures rows == Apply(old(rows), Sync(key, count, done, viewed, offset, now))
      ensures regression <==>
        (count.Some? || viewed.Some? || offset.Some?) && key in old(rows) && count.GetOr(0) < old(rows)[key].viewCount
    {
      if count.None? && viewed.None? && offset.None? {
        return false;
      }
      var incoming := count.GetOr(0);
      var completed := done || incoming > 0;
      regression := key in rows && incoming < rows[key].viewCount;
      var preserved := Max(if key in rows then rows[key].viewCount else 0, incoming);
      if key !in rows {
        rows := rows[key := NewRow(preserved, completed, now)];
      }
      var state := rows[key];
      state := state.(viewCount := preserved);
      state := state.(lastWatched := Latest(viewed, state.lastWatched));
      state := state.(lastPlayed := Latest(viewed, state.lastPlayed));
      state := state.(completed := state.completed || completed);
      state := state.(progress := offset, observed := now);
      rows := rows[key := state];
    }

    method ApplyEvent(key: Key, viewNumber: Option<nat>, storedEvents: nat, watchedAt: int, progress: Option<nat>)
      modifies this
      ensures rows == Apply(old(rows), Played(key, Max(viewNumber.GetOr(0), storedEvents), watchedAt, progress))
    {
      var count := Max(viewNumber.GetOr(0), storedEvents);
      if key !in rows {
        rows := rows[key := NewRow(count, true, watchedAt)];
      }
      var state := rows[key];
      state := state.(viewCount := Max(state.viewCount, count), completed := true);
      state := state.(lastWatched := Latest(state.lastWatched, Some(watchedAt)));
      state := state.(lastPlayed := Latest(state.lastPlayed, Some(watchedAt)));
      rows := rows[key := state.(progress := progress, observed := watchedAt)];
    }

    method SetDerived(key: Key, count: nat, last: Option<int>, now: int)
      modifies this
      ensures rows == Apply(old(rows), Derived(key, count, last, now))
    {
      if key !in rows {
        rows := rows[key := NewRow(count, count > 0, now)];
      }
      var state := rows[key];
      state := state.(viewCount := count, completed := count > 0, lastWatched := last);
      state := state.(lastPlayed := Latest(state.lastPlayed, last));
      rows := rows[key := state.(progress := None, observed := now)];
    }

    /** The local half of an instant update, after the server accepted it. */
    method ApplyInstant(key: Key, done: bool, progress: Option<nat>, watchedAt: int)
      modifies this
      ensures rows == Apply(old(rows), Instant(key, done, progress, watchedAt))
    {
      if key in rows && rows[key].completed {
        return;
      }
      if key !in rows {
        rows := rows[key := NewRow(if done then 1 else 0, done, watchedAt)];
      }
      var state := rows[key];
      if done {
        state := state.(viewCount := Max(state.viewCount, 1), completed := true);
        state := state.(lastWatched := Some(watchedAt), progress := None);
      } else {
        state := state.(completed := false, progress := progress);
      }
      if state.lastPlayed.None? || watchedAt > state.lastPlayed.value {
        state := state.(lastPlayed := Some(watchedAt));
      }
      rows := rows[key := state.(observed := watchedAt)];
    }

    method RecordPropagated(key: Key, done: bool, watchedAt: Option<int>, progress: Option<nat>,
                            playedAt: Option<int>, now: int)
      modifies this
      ensures rows == Apply(old(rows), Propagated(key, done, watchedAt, progress, playedAt, now))
    {
      if key !in rows {
        rows := rows[key := State(if done then 1 else 0, done, watchedAt, None, progress, now)];
      } else if done {
        var state := rows[key].(completed := true, lastWatched := watchedAt);
        rows := rows[key := state.(viewCount := Max(1, state.viewCount), progress := None, observed := now)];
      } else if !rows[key].completed {
        rows := rows[key := rows[key].(progress := progress, observed := now)];
      }
      var played := rows[key].lastPlayed;
      if playedAt.Some? && (played.None? || playedAt.value > played.value) {
        rows := rows[key := rows[key].(lastPlayed := playedAt)];
      }
    }

    method RefreshImported(key: Key, count: nat, last: int, now: int)
      modifies this
      ensures rows == Apply(old(rows), Imported(key, count, last, now))
    {
      if key !in rows {
        rows := rows[key := State(count, true, Some(last), None, None, now)];
        return;
      }
      var state := rows[key];
      var current := state.lastWatched;
      var latest := if current.None? || current.value < last then last else current.value;
      rows := rows[key := state.(viewCount := Max(state.viewCount, count), lastWatched := Some(latest),
                                 completed := true, observed := now)];
    }

    /** A webhook's resume position; the caller passes it on unless the item is completed. */
    method PersistProgress(key: Key, progress: nat, now: int) returns (forward: bool)
      modifies this
      ensures rows == Apply(old(rows), Progressed(key, progress, now))
      ensures forward <==> !(key in old(rows) && old(rows)[key].completed)
    {
      if key !in rows {
        rows := rows[key := NewRow(0, false, now)];
      }
      var state := rows[key];
      if state.lastPlayed.None? || now > state.lastPlayed.value {
        state := state.(lastPlayed := Some(now));
      }
      rows := rows[key := state];
      if state.completed {
        return false;
      }
      rows := rows[key := state.(completed := false, progress := Some(progress), observed := now)];
      return true;
    }

    /** Join into the winner's rows, delete the loser's rows it has, and move the rest. */
    method FoldStates(winner: nat, loser: nat)
      requires winner != loser
      modifies this
      ensures rows == Apply(old(rows), Folded(winner, loser))
    {
      rows := FoldRows(rows, winner, loser);
    }
  }

  // ----- The three statements of a fold -----

  /** UPDATE of the owner; it fails unless every new key is free. */
  method MoveRows(t: Table, winner: nat, loser: nat) returns (next: Table)
    requires winner != loser && Movable(t.Keys, winner, loser)
    ensures next == MovedRows(t, winner, loser)
    ensures forall k :: k in t ==> Retarget(k, winner, loser) in next && next[Retarget(k, winner, loser)] == t[k]
  {
    next := MovedRows(t, winner, loser);
    MovableIff(t.Keys, winner, loser);
    forall k | k in t
      ensures Retarget(k, winner, loser) in next && next[Retarget(k, winner, loser)] == t[k]
    {
      assert !Clashes(t.Keys, winner, loser, k);
      assert k.0 == winner && (loser, k.1) in t ==> Clashes(t.Keys, winner, loser, (loser, k.1));
    }
  }

  /** Join into the winner's rows, delete the loser's rows it has, and move the rest. */
  method FoldRows(t: Table, winner: nat, loser: nat) returns (next: Table)
    requires winner != loser
    ensures next == Fold(t, winner, loser)
  {
    StatementsFold(t, winner, loser);
    DeleteFreesKeys(JoinedRows(t, winner, loser), winner, loser);
    next := JoinedRows(t, winner, loser);
    next := ShadowedRows(next, winner, loser);
    next := MoveRows(next, winner, loser);
  }

  function JoinedRows(t: Table, winner: nat, loser: nat): Table {
    map k | k in t :: if k.0 == winner && (loser, k.1) in t then JoinStates(t[k], t[(loser, k.1)]) else t[k]
  }

  function ShadowedRows(t: Table, winner: nat, loser: nat): Table {
    map k | k in t && !(k.0 == loser && (winner, k.1) in t) :: t[k]
  }

  function MovedRows(t: Table, winner: nat, loser: nat): Table {
    map k | k in FoldedKeys(t, winner, loser) ::
      if k.0 == winner && (loser, k.1) in t then t[(loser, k.1)] else Existing(t, k, NewRow(0, false, 0))
  }

  lemma KeptKeyStandsIn(t: Table, winner: nat, loser: nat, k: Key)
    requires winner != loser && k in t
    ensures Retarget(k, winner, loser) in FoldedKeys(ShadowedRows(JoinedRows(t, winner, loser), winner, loser), winner, loser)
  {
    var kept := ShadowedRows(JoinedRows(t, winner, loser), winner, loser);
    if k !in kept {
      assert (winner, k.1) in kept;
    }
  }

  /** After the DELETE the UPDATE cannot fail. */
  lemma DeleteFreesKeys(t: Table, winner: nat, loser: nat)
    requires winner != loser
    ensures Movable(ShadowedRows(t, winner, loser).Keys, winner, loser)
  {
    MovableIff(ShadowedRows(t, winner, loser).Keys, winner, loser);
  }

  lemma StatementsFold(t: Table, winner: nat, loser: nat)
    requires winner != loser
    ensures MovedRows(ShadowedRows(JoinedRows(t, winner, loser), winner, loser), winner, loser) == Fold(t, winner, loser)
  {
    var kept := ShadowedRows(JoinedRows(t, winner, loser), winner, loser);
    forall k | k in t
      ensures Retarget(k, winner, loser) in FoldedKeys(kept, winner, loser)
    {
      KeptKeyStandsIn(t, winner, loser, k);
    }
    assert FoldedKeys(kept, winner, loser) == FoldedKeys(t, winner, loser);
    forall k | k in FoldedKeys(t, winner, loser)
      ensures MovedRows(kept, winner, loser)[k] == Fold(t, winner, loser)[k]
    {
    }
  }
}
