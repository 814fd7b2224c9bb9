/**
 Folding one catalog item into another across all tables. Whatever is folded into whatever, in
 whatever order: nothing is lost, nothing dangles, and watch states become joins.
 */
module Merge {
  import opened Catalog
  import opened Playback
  import opened WatchStates

  /** Genres, images and enrichment records: at most one row per item and name. */
  type Attached = map<(nat, string), nat>

  datatype Db = Db(
    catalog: Identity, events: seq<WatchEvent>, states: Table, genres: Attached, images: Attached, enrichment: Attached)

  // ----- One merge, table by table -----

  /** The winner keeps its fields and takes the loser's where it has none; children follow. */
  function MergedItem(items: map<nat, Item>, winner: nat, loser: nat, x: nat): Item
    requires x in items && loser in items
  {
    var i := items[x];
    i.(parent := if i.parent == Some(loser) then Some(winner) else i.parent,
       year := if x == winner && i.year.None? then items[loser].year else i.year,
       details := if x == winner then items[loser].details + i.details else i.details)
  }

  function MergedItems(items: map<nat, Item>, winner: nat, loser: nat): map<nat, Item>
    requires loser in items
  {
    map x | x in items && x != loser :: MergedItem(items, winner, loser, x)
  }

  function MergedRefs(refs: set<Ref>, winner: nat, loser: nat): set<Ref> {
    set r | r in refs :: r.(item := Moved(r.item, winner, loser))
  }

  /** An id of the loser that the winner contradicts, or that a confirmed match overrules. */
  predicate Dropped(t: Identity, winner: nat, loser: nat, i: Identifier)
    requires winner in t.items
  {
    i.item == loser
    && (t.items[winner].manual != ""
        || (Stable(i.provider)
            && exists w :: w in t.identifiers && w.item == winner && w.provider == i.provider && w.externalId != i.externalId))
  }

  function MergedIdentifiers(t: Identity, winner: nat, loser: nat): set<Identifier>
    requires winner in t.items
  {
    set i | i in t.identifiers && !Dropped(t, winner, loser, i) :: i.(item := Moved(i.item, winner, loser))
  }

  /** The loser's rows go to the winner unless it already has one of that name. */
  function MergedAttached(rows: Attached, winner: nat, loser: nat): Attached {
    var keys := set k | k in rows :: (Moved(k.0, winner, loser), k.1);
    map k | k in keys :: if k in rows then rows[k] else if (loser, k.1) in rows then rows[(loser, k.1)] else 0
  }

  function MergedEvents(events: seq<WatchEvent>, winner: nat, loser: nat): seq<WatchEvent> {
    seq(|events|, i requires 0 <= i < |events| => events[i].(item := Moved(events[i].item, winner, loser)))
  }

  function Merged(db: Db, winner: nat, loser: nat): Db
    requires winner in db.catalog.items && loser in db.catalog.items
  {
    var t := db.catalog;
    Db(t.(items := MergedItems(t.items, winner, loser), refs := MergedRefs(t.refs, winner, loser),
          identifiers := MergedIdentifiers(t, winner, loser)),
       MergedEvents(db.events, winner, loser), Fold(db.states, winner, loser),
       MergedAttached(db.genres, winner, loser), MergedAttached(db.images, winner, loser),
       MergedAttached(db.enrichment, winner, loser))
  }

  // ----- Sequences of merges and adoptions -----

  /** Reconciliation folds items, and hands children to a new parent. */
  datatype Step = Into(winner: nat, loser: nat) | Adopt(child: nat, parent: nat)

  predicate Possible(db: Db, s: Step) {
    match s
    case Into(winner, loser) => winner != loser && winner in db.catalog.items && loser in db.catalog.items
    case Adopt(child, parent) => child in db.catalog.items && parent in db.catalog.items
  }

  function Adopted(items: map<nat, Item>, child: nat, parent: nat): map<nat, Item>
    requires child in items
  {
    items[child := items[child].(parent := Some(parent))]
  }

  function Stepped(db: Db, s: Step): Db
    requires Possible(db, s)
  {
    match s
    case Into(winner, loser) => Merged(db, winner, loser)
    case Adopt(child, parent) =>
      db.(catalog := db.catalog.(items := Adopted(db.catalog.items, child, parent)))
  }

  function Front(steps: seq<Step>): seq<Step>
    requires steps != []
  {
    steps[..|steps| - 1]
  }

  function Last(steps: seq<Step>): Step
    requires steps != []
  {
    steps[|steps| - 1]
  }

  ghost predicate MadeAt(trail: seq<Db>, steps: seq<Step>, i: nat)
    requires |trail| == |steps| + 1 && i < |steps|
  {
    Makes(trail[i], steps[i], trail[i + 1])
  }

  ghost predicate IsTrail(trail: seq<Db>, before: Db, steps: seq<Step>, after: Db) {
    && |trail| == |steps| + 1 && trail[0] == before && trail[|steps|] == after
    && forall i: nat {:trigger MadeAt(trail, steps, i)} :: i < |steps| ==> MadeAt(trail, steps, i)
  }

  /** `after` is what the steps make of `before`. */
  ghost predicate Reaches(before: Db, steps: seq<Step>, after: Db) {
    exists trail :: IsTrail(trail, before, steps, after)
  }

  ghost predicate Makes(db: Db, s: Step, next: Db) {
    Possible(db, s) && next == Stepped(db, s)
  }

  function MovedBy(s: Step, x: nat): nat {
    if s.Into? then Moved(x, s.winner, s.loser) else x
  }

  /** The item that stands for `x` in the end. */
  function Rep(steps: seq<Step>, x: nat): nat
    decreases |steps|
  {
    if steps == [] then x else MovedBy(Last(steps), Rep(Front(steps), x))
  }

  lemma ReachesNothing(db: Db)
    ensures Reaches(db, [], db)
  {
    assert IsTrail([db], db, [], db);
  }

  lemma ReachesMore(before: Db, steps: seq<Step>, middle: Db, s: Step, after: Db)
    requires Reaches(before, steps, middle) && Makes(middle, s, after)
    ensures Reaches(before, steps + [s], after)
  {
    var trail :| IsTrail(trail, before, steps, middle);
    forall i: nat | i < |steps + [s]|
      ensures MadeAt(trail + [after], steps + [s], i)
    {
      assert i < |steps| ==> MadeAt(trail, steps, i);
    }
    assert IsTrail(trail + [after], before, steps + [s], after);
  }

  lemma LastStep(before: Db, steps: seq<Step>, after: Db) returns (middle: Db)
    requires steps != [] && Reaches(before, steps, after)
    ensures Reaches(before, Front(steps), middle) && Makes(middle, Last(steps), after)
  {
    var trail :| IsTrail(trail, before, steps, after);
    var n := |steps| - 1;
    var shorter := trail[..n + 1];
    middle := trail[n];
    assert MadeAt(trail, steps, n);
    forall i: nat | i < n
      ensures MadeAt(shorter, Front(steps), i)
    {
      assert MadeAt(trail, steps, i);
    }
    assert IsTrail(shorter, before, Front(steps), middle);
  }

  lemma RepMore(steps: seq<Step>, s: Step, x: nat)
    ensures Rep(steps + [s], x) == MovedBy(s, Rep(steps, x))
  {
    assert Front(steps + [s]) == steps;
  }

  lemma {:induction false} RepTogether(first: seq<Step>, more: seq<Step>, x: nat)
    ensures Rep(first + more, x) == Rep(more, Rep(first, x))
    decreases |more|
  {
    if more == [] {
      assert first + more == first;
    } else {
      assert Front(first + more) == first + Front(more);
      RepTogether(first, Front(more), x);
    }
  }

  /** The database before step `i`. */
  lemma ReachedAt(before: Db, steps: seq<Step>, after: Db, i: nat) returns (at: Db, next: Db)
    requires Reaches(before, steps, after) && i < |steps|
    ensures Reaches(before, steps[..i], at) && Makes(at, steps[i], next)
  {
    var trail :| IsTrail(trail, before, steps, after);
    var (shorter, early) := (trail[..i + 1], steps[..i]);
    at, next := trail[i], trail[i + 1];
    assert MadeAt(trail, steps, i);
    forall j: nat | j < i
      ensures MadeAt(shorter, early, j)
    {
      assert MadeAt(trail, steps, j);
    }
    assert IsTrail(shorter, before, early, at);
  }

  lemma {:induction false} ReachesOnce(before: Db, steps: seq<Step>, x: Db, y: Db)
    requires Reaches(before, steps, x) && Reaches(before, steps, y)
    ensures x == y
    decreases |steps|
  {
    if steps != [] {
      var u := LastStep(before, steps, x);
      var v := LastStep(before, steps, y);
      ReachesOnce(before, Front(steps), u, v);
    }
  }

  lemma Regroup(first: seq<Step>, more: seq<Step>)
    requires more != []
    ensures first + more == first + Front(more) + [Last(more)]
  {
  }

  lemma {:induction false} ReachesTogether(before: Db, first: seq<Step>, middle: Db, more: seq<Step>, after: Db)
    requires Reaches(before, first, middle) && Reaches(middle, more, after)
    ensures Reaches(before, first + more, after)
    decreases |more|
  {
    if more == [] {
      assert first + more == first;
    } else {
      var late := LastStep(middle, more, after);
      ReachesTogether(before, first, middle, Front(more), late);
      Regroup(first, more);
      ReachesMore(before, first + Front(more), late, Last(more), after);
    }
  }

  /** Exactly the items that stand for themselves survive, and every item has a survivor that stands for it. */
  lemma {:induction false} SurvivorsStandForAll(before: Db, steps: seq<Step>, after: Db, x: nat)
    requires Reaches(before, steps, after) && x in before.catalog.items
    ensures Rep(steps, x) in after.catalog.items
    ensures x in after.catalog.items <==> Rep(steps, x) == x
    ensures after.catalog.items.Keys <= before.catalog.items.Keys
    decreases |steps|
  {
    if steps != [] {
      var middle := LastStep(before, steps, after);
      SurvivorsStandForAll(before, Front(steps), middle, x);
    }
  }

  /** Every source reference survives under its representative. */
  lemma {:induction false} RefsSurvive(before: Db, steps: seq<Step>, after: Db)
    requires Reaches(before, steps, after)
    ensures after.catalog.refs == set r | r in before.catalog.refs :: r.(item := Rep(steps, r.item))
    ensures after.catalog.sources == before.catalog.sources
    decreases |steps|
  {
    if steps == [] {
      assert forall r :: r in before.catalog.refs ==> r.(item := Rep(steps, r.item)) == r;
    } else {
      var middle := LastStep(before, steps, after);
      RefsSurvive(before, Front(steps), middle);
      var goal := set r | r in before.catalog.refs :: r.(item := Rep(steps, r.item));
      if Last(steps).Into? {
        RefsMove(before.catalog.refs, steps, middle.catalog.refs);
      } else {
        assert forall r: Ref :: r.(item := Rep(steps, r.item)) == r.(item := Rep(Front(steps), r.item));
      }
    }
  }

  lemma RefsMove(refs: set<Ref>, steps: seq<Step>, middle: set<Ref>)
    requires steps != [] && Last(steps).Into?
    requires middle == set r | r in refs :: r.(item := Rep(Front(steps), r.item))
    ensures var s := Last(steps);
      MergedRefs(middle, s.winner, s.loser) == set r | r in refs :: r.(item := Rep(steps, r.item))
  {
    var s := Last(steps);
    forall r | r in refs
      ensures r.(item := Rep(steps, r.item)) in MergedRefs(middle, s.winner, s.loser)
    {
      var m := r.(item := Rep(Front(steps), r.item));
      assert m in middle && r.(item := Rep(steps, r.item)) == m.(item := Moved(m.item, s.winner, s.loser));
    }
    forall q | q in MergedRefs(middle, s.winner, s.loser)
      ensures exists r :: r in refs && q == r.(item := Rep(steps, r.item))
    {
      var m :| m in middle && q == m.(item := Moved(m.item, s.winner, s.loser));
      var r :| r in refs && m == r.(item := Rep(Front(steps), r.item));
      assert q == r.(item := Rep(steps, r.item));
    }
  }

  /** Every watch event survives in its place under its representative. */
  lemma {:induction false} EventsSurvive(before: Db, steps: seq<Step>, after: Db)
    requires Reaches(before, steps, after)
    ensures |after.events| == |before.events|
    ensures forall i :: 0 <= i < |before.events| ==>
      after.events[i] == before.events[i].(item := Rep(steps, before.events[i].item))
    decreases |steps|
  {
    if steps != [] {
      var middle := LastStep(before, steps, after);
      EventsSurvive(before, Front(steps), middle);
    }
  }

  // ----- Nothing dangles -----

  ghost predicate AttachedTo(rows: Attached, items: map<nat, Item>) {
    forall k :: k in rows ==> k.0 in items
  }

  ghost predicate Anchored(db: Db) {
    && WellFormed(db.catalog)
    && (forall i :: 0 <= i < |db.events| ==> db.events[i].item in db.catalog.items)
    && (forall k :: k in db.states ==> k.0 in db.catalog.items)
    && AttachedTo(db.genres, db.catalog.items) && AttachedTo(db.images, db.catalog.items)
    && AttachedTo(db.enrichment, db.catalog.items)
  }

  lemma MergeKeepsWellFormed(t: Identity, winner: nat, loser: nat)
    requires WellFormed(t) && winner != loser && winner in t.items && loser in t.items
    ensures WellFormed(t.(items := MergedItems(t.items, winner, loser), refs := MergedRefs(t.refs, winner, loser),
                          identifiers := MergedIdentifiers(t, winner, loser)))
  {
    var items := MergedItems(t.items, winner, loser);
    forall v | v in items && items[v].parent.Some?
      ensures items[v].parent.value in items
    {
      assert t.items[v].parent.Some?;
    }
  }

  lemma MergeKeepsAnchored(db: Db, winner: nat, loser: nat)
    requires Anchored(db) && winner != loser && winner in db.catalog.items && loser in db.catalog.items
    ensures Anchored(Merged(db, winner, loser))
  {
    MergeKeepsWellFormed(db.catalog, winner, loser);
    FoldKeepsOwners(db.states, winner, loser);
  }

  lemma FoldKeepsOwners(t: Table, winner: nat, loser: nat)
    ensures forall k :: k in Fold(t, winner, loser) ==> exists j :: j in t && k == Retarget(j, winner, loser)
  {
  }

  /** After any steps no row and no parent pointer names an item that is gone. */
  lemma {:induction false} NothingDangles(before: Db, steps: seq<Step>, after: Db)
    requires Reaches(before, steps, after) && Anchored(before)
    ensures Anchored(after)
    decreases |steps|
  {
    if steps != [] {
      var middle := LastStep(before, steps, after);
      NothingDangles(before, Front(steps), middle);
      if Last(steps).Into? {
        MergeKeepsAnchored(middle, Last(steps).winner, Last(steps).loser);
      } else {
        AdoptKeepsWellFormed(middle.catalog, Last(steps).child, Last(steps).parent);
      }
    }
  }

  lemma AdoptKeepsWellFormed(t: Identity, child: nat, parent: nat)
    requires WellFormed(t) && child in t.items && parent in t.items
    ensures WellFormed(t.(items := Adopted(t.items, child, parent)))
  {
    var items := Adopted(t.items, child, parent);
    forall v | v in items && items[v].parent.Some?
      ensures items[v].parent.value in items
    {
      assert v != child ==> t.items[v].parent.Some?;
    }
  }

  // ----- One id per stable provider -----

  ghost predicate Agree(i: Identifier, j: Identifier) {
    i.item == j.item && i.provider == j.provider && Stable(i.provider) ==> i.externalId == j.externalId
  }

  ghost predicate OneStableId(t: Identity) {
    forall i, j :: i in t.identifiers && j in t.identifiers ==> Agree(i, j)
  }

  lemma MergeKeepsOneStableId(t: Identity, winner: nat, loser: nat)
    requires OneStableId(t) && winner in t.items
    ensures forall i, j :: i in MergedIdentifiers(t, winner, loser) && j in MergedIdentifiers(t, winner, loser) ==> Agree(i, j)
  {
    forall i, j | i in MergedIdentifiers(t, winner, loser) && j in MergedIdentifiers(t, winner, loser)
      ensures Agree(i, j)
    {
      var x :| x in t.identifiers && !Dropped(t, winner, loser, x) && i == x.(item := Moved(x.item, winner, loser));
      var y :| y in t.identifiers && !Dropped(t, winner, loser, y) && j == y.(item := Moved(y.item, winner, loser));
      assert Agree(x, y);
    }
  }

  lemma {:induction false} StableIdsStayUnique(before: Db, steps: seq<Step>, after: Db)
    requires Reaches(before, steps, after) && OneStableId(before.catalog)
    ensures OneStableId(after.catalog)
    decreases |steps|
  {
    if steps != [] {
      var middle := LastStep(before, steps, after);
      StableIdsStayUnique(before, Front(steps), middle);
      if Last(steps).Into? {
        MergeKeepsOneStableId(middle.catalog, Last(steps).winner, Last(steps).loser);
      }
    }
  }

  // ----- What survives of the other tables -----

  /** A genre, image or enrichment record, or one of the same name, stays with the representative. */
  lemma {:induction false} AttachedSurvive(before: Db, steps: seq<Step>, after: Db, k: (nat, string))
    requires Reaches(before, steps, after)
    ensures k in before.genres ==> (Rep(steps, k.0), k.1) in after.genres
    ensures k in before.images ==> (Rep(steps, k.0), k.1) in after.images
    ensures k in before.enrichment ==> (Rep(steps, k.0), k.1) in after.enrichment
    decreases |steps|
  {
    if steps != [] {
      var middle := LastStep(before, steps, after);
      AttachedSurvive(before, Front(steps), middle, k);
      if Last(steps).Into? {
        var (w, l, j) := (Last(steps).winner, Last(steps).loser, (Rep(Front(steps), k.0), k.1));
        AttachedMoves(middle.genres, w, l, j);
        AttachedMoves(middle.images, w, l, j);
        AttachedMoves(middle.enrichment, w, l, j);
      }
    }
  }

  lemma AttachedMoves(rows: Attached, winner: nat, loser: nat, k: (nat, string))
    ensures k in rows ==> (Moved(k.0, winner, loser), k.1) in MergedAttached(rows, winner, loser)
  {
  }

  /** Confirmed matches and kinds never change, and while nothing is adopted parents only follow their representatives. */
  lemma {:induction false} ItemsKeepTheirPlace(before: Db, steps: seq<Step>, after: Db, x: nat)
    requires Reaches(before, steps, after) && x in after.catalog.items
    ensures x in before.catalog.items && Rep(steps, x) == x
    ensures after.catalog.items[x].manual == before.catalog.items[x].manual
    ensures after.catalog.items[x].kind == before.catalog.items[x].kind
    ensures (forall i :: 0 <= i < |steps| ==> steps[i].Into?) ==>
      var p := before.catalog.items[x].parent;
      after.catalog.items[x].parent == if p.Some? then Some(Rep(steps, p.value)) else None
    decreases |steps|
  {
    if steps != [] {
      var middle := LastStep(before, steps, after);
      ItemsKeepTheirPlace(before, Front(steps), middle, x);
      if Last(steps).Into? {
        assert after.catalog.items[x] == MergedItem(middle.catalog.items, Last(steps).winner, Last(steps).loser, x);
      }
    }
  }

  /** Every filled field of `a` is filled in `b`. */
  ghost predicate Filled(a: Item, b: Item) {
    a.details.Keys <= b.details.Keys && (a.year.Some? ==> b.year.Some?)
  }

  /** Every filled field of `a` has the same value in `b`. */
  ghost predicate Preserved(a: Item, b: Item) {
    (forall f :: f in a.details ==> f in b.details && b.details[f] == a.details[f]) && (a.year.Some? ==> b.year == a.year)
  }

  lemma StepKeepsFields(db: Db, s: Step, next: Db, x: nat)
    requires Makes(db, s, next) && x in db.catalog.items
    ensures MovedBy(s, x) in next.catalog.items && Filled(db.catalog.items[x], next.catalog.items[MovedBy(s, x)])
    ensures x in next.catalog.items ==> Preserved(db.catalog.items[x], next.catalog.items[x])
  {
  }

  /** No filled field of an item is lost, and a survivor keeps every value of its own. */
  lemma {:induction false} FieldsSurvive(before: Db, steps: seq<Step>, after: Db, x: nat)
    requires Reaches(before, steps, after) && x in before.catalog.items
    ensures Rep(steps, x) in after.catalog.items
    ensures Filled(before.catalog.items[x], after.catalog.items[Rep(steps, x)])
    ensures x in after.catalog.items ==> Preserved(before.catalog.items[x], after.catalog.items[x])
    decreases |steps|
  {
    if steps != [] {
      var middle := LastStep(before, steps, after);
      FieldsSurvive(before, Front(steps), middle, x);
      StepKeepsFields(middle, Last(steps), after, Rep(Front(steps), x));
      if x in after.catalog.items {
        assert x in middle.catalog.items;
        StepKeepsFields(middle, Last(steps), after, x);
      }
    }
  }

  /** The id stays with the representative, or gave way to one of the same stable provider, or to a confirmed match. */
  ghost predicate IdAccounted(before: Db, steps: seq<Step>, after: Db, i: Identifier) {
    var y := Rep(steps, i.item);
    || i.(item := y) in after.catalog.identifiers
    || (Stable(i.provider) && exists j :: j in after.catalog.identifiers && j.item == y && j.provider == i.provider)
    || (exists x :: x in before.catalog.items && Rep(steps, x) == y && before.catalog.items[x].manual != "")
  }

  lemma SurvivingId(t: Identity, winner: nat, loser: nat, i: Identifier)
    requires winner in t.items && winner != loser && i in t.identifiers
    ensures
      || i.(item := Moved(i.item, winner, loser)) in MergedIdentifiers(t, winner, loser)
      || (i.item == loser && t.items[winner].manual != "")
      || (i.item == loser && Stable(i.provider) &&
            exists j :: j in MergedIdentifiers(t, winner, loser) && j.item == winner && j.provider == i.provider)
  {
    if Dropped(t, winner, loser, i) && t.items[winner].manual == "" {
      var w :| w in t.identifiers && w.item == winner && w.provider == i.provider && w.externalId != i.externalId;
      assert w == w.(item := Moved(w.item, winner, loser)) && w in MergedIdentifiers(t, winner, loser);
    }
  }

  /** No id is lost without one of those reasons, whatever is merged into whatever. */
  lemma {:induction false} IdsAreAccounted(before: Db, steps: seq<Step>, after: Db, i: Identifier)
    requires Reaches(before, steps, after) && i in before.catalog.identifiers && WellFormed(before.catalog)
    ensures IdAccounted(before, steps, after, i)
    decreases |steps|
  {
    if steps == [] {
      assert i.(item := Rep(steps, i.item)) == i;
    } else {
      var middle := LastStep(before, steps, after);
      IdsAreAccounted(before, Front(steps), middle, i);
      if Last(steps).Into? {
        MergeAccountsForId(before, steps, middle, after, i);
      }
    }
  }

  lemma MergeAccountsForId(before: Db, steps: seq<Step>, middle: Db, after: Db, i: Identifier)
    requires steps != [] && Last(steps).Into? && Reaches(before, Front(steps), middle) && Makes(middle, Last(steps), after)
    requires IdAccounted(before, Front(steps), middle, i)
    ensures IdAccounted(before, steps, after, i)
  {
    var (w, l, y) := (Last(steps).winner, Last(steps).loser, Rep(Front(steps), i.item));
    ItemsKeepTheirPlace(before, Front(steps), middle, w);
    assert before.catalog.items[w].manual != "" ==> Rep(steps, w) == w;
    if i.(item := y) in middle.catalog.identifiers {
      SurvivingId(middle.catalog, w, l, i.(item := y));
    } else if x :| x in before.catalog.items && Rep(Front(steps), x) == y && before.catalog.items[x].manual != "" {
      assert Rep(steps, x) == Rep(steps, i.item);
    } else {
      var j :| j in middle.catalog.identifiers && j.item == y && j.provider == i.provider;
      SurvivingId(middle.catalog, w, l, j);
    }
  }

  // ----- Watch states are joins over everything an item stands for -----

  /** The rows of all items represented by `y`. */
  ghost function Sources(before: Table, steps: seq<Step>, y: nat, source: nat): set<Key> {
    set k | k in before && k.1 == source && Rep(steps, k.0) == y
  }

  ghost predicate LatestAmong(dates: set<Option<int>>, m: Option<int>) {
    (forall d :: d in dates ==> NotBefore(d, m)) && m in dates
  }

  ghost function WatchedDates(t: Table, keys: set<Key>): set<Option<int>>
    requires keys <= t.Keys
  {
    set k | k in keys :: t[k].lastWatched
  }

  ghost function PlayedDates(t: Table, keys: set<Key>): set<Option<int>>
    requires keys <= t.Keys
  {
    set k | k in keys :: t[k].lastPlayed
  }

  /** Every field but the resume position is the join of those rows. */
  ghost predicate IsJoin(t: Table, keys: set<Key>, s: State)
    requires keys <= t.Keys
  {
    && (forall k :: k in keys ==> t[k].viewCount <= s.viewCount) && (exists k :: k in keys && t[k].viewCount == s.viewCount)
    && (s.completed <==> exists k :: k in keys && t[k].completed)
    && LatestAmong(WatchedDates(t, keys), s.lastWatched) && LatestAmong(PlayedDates(t, keys), s.lastPlayed)
    && (forall k :: k in keys ==> t[k].observed <= s.observed) && (exists k :: k in keys && t[k].observed == s.observed)
  }

  lemma JoinOfBoth(t: Table, a: set<Key>, x: State, b: set<Key>, y: State)
    requires a <= t.Keys && b <= t.Keys && IsJoin(t, a, x) && IsJoin(t, b, y)
    ensures IsJoin(t, a + b, JoinStates(x, y))
  {
    assert WatchedDates(t, a + b) == WatchedDates(t, a) + WatchedDates(t, b);
    assert PlayedDates(t, a + b) == PlayedDates(t, a) + PlayedDates(t, b);
    var v, w :| v in a && w in b && t[v].viewCount == x.viewCount && t[w].viewCount == y.viewCount;
    assert v in a + b && w in a + b;
    var p, q :| p in a && q in b && t[p].observed == x.observed && t[q].observed == y.observed;
    assert p in a + b && q in a + b;
  }

  lemma JoinIsUniqueButProgress(t: Table, keys: set<Key>, x: State, y: State)
    requires keys <= t.Keys && IsJoin(t, keys, x) && IsJoin(t, keys, y)
    ensures x.(progress := y.progress) == y
  {
  }

  ghost predicate JoinedAt(before: Table, steps: seq<Step>, after: Table, k: Key) {
    var sources := Sources(before, steps, k.0, k.1);
    (k in after <==> sources != {}) && (k in after ==> IsJoin(before, sources, after[k]))
  }

  ghost predicate AllJoined(before: Table, steps: seq<Step>, after: Table) {
    forall k: Key :: JoinedAt(before, steps, after, k)
  }

  lemma SourcesMove(before: Table, steps: seq<Step>, y: nat, source: nat)
    requires steps != [] && Last(steps).Into? && Last(steps).winner != Last(steps).loser
    ensures var (w, l) := (Last(steps).winner, Last(steps).loser);
      Sources(before, steps, y, source) ==
        if y == l then {}
        else if y == w then Sources(before, Front(steps), w, source) + Sources(before, Front(steps), l, source)
        else Sources(before, Front(steps), y, source)
  {
  }

  lemma FoldedRowIs(t: Table, winner: nat, loser: nat, k: Key)
    requires winner != loser
    ensures k in Fold(t, winner, loser) <==> k.0 != loser && (k in t || (k.0 == winner && (loser, k.1) in t))
    ensures k in Fold(t, winner, loser) ==>
      Fold(t, winner, loser)[k] ==
        if k.0 != winner || (loser, k.1) !in t then t[k]
        else if k !in t then t[(loser, k.1)]
        else JoinStates(t[k], t[(loser, k.1)])
  {
    if k in t {
      assert Retarget(k, winner, loser) in FoldedKeys(t, winner, loser);
    }
    if (loser, k.1) in t {
      assert Retarget((loser, k.1), winner, loser) in FoldedKeys(t, winner, loser);
    }
  }

  lemma FoldJoins(before: Table, steps: seq<Step>, middle: Table, k: Key)
    requires steps != [] && Last(steps).Into? && Last(steps).winner != Last(steps).loser
    requires AllJoined(before, Front(steps), middle)
    ensures JoinedAt(before, steps, Fold(middle, Last(steps).winner, Last(steps).loser), k)
  {
    var (init, w, l) := (Front(steps), Last(steps).winner, Last(steps).loser);
    SourcesMove(before, steps, k.0, k.1);
    FoldedRowIs(middle, w, l, k);
    assert JoinedAt(before, init, middle, k) && JoinedAt(before, init, middle, (l, k.1));
    if k.0 == w {
      var (a, b) := (Sources(before, init, w, k.1), Sources(before, init, l, k.1));
      if k in middle && (l, k.1) in middle {
        JoinOfBoth(before, a, middle[k], b, middle[(l, k.1)]);
      } else {
        assert a + {} == a && {} + b == b;
      }
    }
  }

  /** Each surviving row is the join of the rows of all items it stands for, whatever the order of merging. */
  lemma {:induction false} StatesAreJoins(before: Db, steps: seq<Step>, after: Db, k: Key)
    requires Reaches(before, steps, after)
    ensures JoinedAt(before.states, steps, after.states, k)
    decreases |steps|
  {
    if steps == [] {
      assert Sources(before.states, steps, k.0, k.1) == if k in before.states then {k} else {};
    } else {
      var middle := LastStep(before, steps, after);
      if Last(steps).Into? {
        forall j: Key
          ensures JoinedAt(before.states, Front(steps), middle.states, j)
        {
          StatesAreJoins(before, Front(steps), middle, j);
        }
        FoldJoins(before.states, steps, middle.states, k);
      } else {
        StatesAreJoins(before, Front(steps), middle, k);
        assert Sources(before.states, steps, k.0, k.1) == Sources(before.states, Front(steps), k.0, k.1);
      }
    }
  }

  /** Two orders of merging that group the items alike leave the same states, up to resume positions. */
  lemma MergeOrderDoesNotMatter(before: Db, one: seq<Step>, x: Db, other: seq<Step>, y: Db, k: Key)
    requires Reaches(before, one, x) && Reaches(before, other, y)
    requires forall v :: v in before.catalog.items ==> Rep(one, v) == Rep(other, v)
    requires Anchored(before)
    ensures k in x.states <==> k in y.states
    ensures k in x.states ==> x.states[k].(progress := y.states[k].progress) == y.states[k]
  {
    StatesAreJoins(before, one, x, k);
    StatesAreJoins(before, other, y, k);
    assert Sources(before.states, one, k.0, k.1) == Sources(before.states, other, k.0, k.1);
    if k in x.states {
      JoinIsUniqueButProgress(before.states, Sources(before.states, one, k.0, k.1), x.states[k], y.states[k]);
    }
  }
}
