/**
 Catalog reconciliation: which duplicates may be folded, how a show's seasons and episodes follow,
 and why two live copies of one server never end up under one item.
 */
module Reconcile {
  import opened Catalog
  import opened Playback
  import opened WatchStates
  import opened Merge
  import Grouping
  import Hierarchy

  // ----- Levels -----

  /** What may stand directly below what. */
  predicate MayHold(parent: Kind, child: Kind) {
    match child
    case Season => parent == Show
    case Episode => parent == Season || parent == Show
    case Album => parent == Artist
    case Track => parent == Album || parent == Artist
    case _ => false
  }

  ghost predicate Placed(items: map<nat, Item>, x: nat)
    requires x in items
  {
    var p := items[x].parent;
    p.Some? ==> p.value in items && MayHold(items[p.value].kind, items[x].kind)
  }

  ghost predicate Leveled(items: map<nat, Item>) {
    forall x {:trigger Placed(items, x)} :: x in items ==> Placed(items, x)
  }

  function Level(kind: Kind): nat {
    match kind
    case Season => 1
    case Album => 1
    case Episode => 2
    case Track => 2
    case _ => 0
  }

  /** A leveled catalog is a forest of depth at most two, so every walk the projection makes is exact. */
  lemma LeveledIsShallow(items: map<nat, Item>)
    requires Leveled(items)
    ensures Hierarchy.Shallow(items, map x | x in items :: Level(items[x].kind))
  {
    var level := map x | x in items :: Level(items[x].kind);
    forall x | x in items
      ensures Hierarchy.Below(items, level, x)
    {
      assert Placed(items, x);
    }
  }

  lemma MergeKeepsLeveled(items: map<nat, Item>, winner: nat, loser: nat)
    requires Leveled(items) && winner in items && loser in items && winner != loser
    requires items[winner].kind == items[loser].kind
    ensures Leveled(MergedItems(items, winner, loser))
  {
    var next := MergedItems(items, winner, loser);
    forall x | x in next
      ensures Placed(next, x)
    {
      assert Placed(items, x) && next[x] == MergedItem(items, winner, loser, x);
    }
  }

  lemma AdoptKeepsLeveled(items: map<nat, Item>, child: nat, parent: nat)
    requires Leveled(items) && child in items && parent in items && MayHold(items[parent].kind, items[child].kind)
    ensures Leveled(Adopted(items, child, parent))
  {
    var next := Adopted(items, child, parent);
    forall x | x in next
      ensures Placed(next, x)
    {
      assert Placed(items, x);
    }
  }

  // ----- Live copies stay apart -----

  /**
   No two original items with a live reference on one source share a representative, seasons and
   the pairs in `allowed` aside.
   */
  ghost predicate Apart(t: Identity, steps: seq<Step>, allowed: set<(nat, nat)>, a: nat, b: nat) {
    && a in t.items && b in t.items && a != b && t.items[a].kind != Season
    && Rep(steps, a) == Rep(steps, b) && (a, b) !in allowed
    ==> LiveSources(t, a) !! LiveSources(t, b)
  }

  ghost predicate AllApart(t: Identity, steps: seq<Step>, allowed: set<(nat, nat)>) {
    forall a, b :: Apart(t, steps, allowed, a, b)
  }

  ghost predicate KindKept(before: Db, steps: seq<Step>, after: Db, x: nat) {
    x in before.catalog.items ==>
      Rep(steps, x) in after.catalog.items
      && after.catalog.items[Rep(steps, x)].kind == before.catalog.items[x].kind
  }

  ghost predicate KindsKept(before: Db, steps: seq<Step>, after: Db) {
    forall x: nat :: KindKept(before, steps, after, x)
  }

  /** A live reference stays live under the item that stands for its owner. */
  lemma LiveCarried(before: Db, steps: seq<Step>, after: Db, x: nat)
    requires Reaches(before, steps, after)
    ensures LiveSources(before.catalog, x) <= LiveSources(after.catalog, Rep(steps, x))
  {
    RefsSurvive(before, steps, after);
    forall s | s in LiveSources(before.catalog, x)
      ensures s in LiveSources(after.catalog, Rep(steps, x))
    {
      var r :| r in before.catalog.refs && r.item == x && r.available && r.source == s;
      assert r.(item := Rep(steps, r.item)) in after.catalog.refs;
    }
  }

  /** One of the two original items is represented by `x` and the other by `y`. */
  ghost predicate StandFor(steps: seq<Step>, x: nat, y: nat, a: nat, b: nat) {
    (Rep(steps, a) == x && Rep(steps, b) == y) || (Rep(steps, a) == y && Rep(steps, b) == x)
  }

  /** The pairs of original items that come together when `x` and `y` do. */
  ghost function Pairs(t: Identity, steps: seq<Step>, x: nat, y: nat): set<(nat, nat)> {
    set a, b | a in t.items && b in t.items && StandFor(steps, x, y, a, b) :: (a, b)
  }

  /** Why the two may be folded: nobody minds, no source knows both, or the files prove them one. */
  ghost predicate MayFold(origin: Db, steps: seq<Step>, allowed: set<(nat, nat)>, t: Identity, winner: nat, loser: nat) {
    && winner != loser && winner in t.items && loser in t.items && t.items[winner].kind == t.items[loser].kind
    && (t.items[winner].kind == Season || Pairs(origin.catalog, steps, winner, loser) <= allowed
        || LiveSources(t, winner) !! LiveSources(t, loser))
  }

  lemma IntoKeepsApart(before: Db, steps: seq<Step>, middle: Db, allowed: set<(nat, nat)>, winner: nat, loser: nat, a: nat, b: nat)
    requires Reaches(before, steps, middle) && AllApart(before.catalog, steps, allowed) && KindsKept(before, steps, middle)
    requires MayFold(before, steps, allowed, middle.catalog, winner, loser)
    ensures Apart(before.catalog, steps + [Into(winner, loser)], allowed, a, b)
  {
    RepMore(steps, Into(winner, loser), a);
    RepMore(steps, Into(winner, loser), b);
    assert Apart(before.catalog, steps, allowed, a, b);
    assert KindKept(before, steps, middle, a);
    LiveCarried(before, steps, middle, a);
    LiveCarried(before, steps, middle, b);
    if a in before.catalog.items && b in before.catalog.items && StandFor(steps, winner, loser, a, b) {
      assert (a, b) in Pairs(before.catalog, steps, winner, loser);
    }
  }

  lemma IntoKeepsHistory(before: Db, steps: seq<Step>, middle: Db, allowed: set<(nat, nat)>, winner: nat, loser: nat)
    requires Reaches(before, steps, middle) && AllApart(before.catalog, steps, allowed) && KindsKept(before, steps, middle)
    requires MayFold(before, steps, allowed, middle.catalog, winner, loser)
    ensures KindsKept(before, steps + [Into(winner, loser)], Merged(middle, winner, loser))
    ensures AllApart(before.catalog, steps + [Into(winner, loser)], allowed)
  {
    forall a, b
      ensures Apart(before.catalog, steps + [Into(winner, loser)], allowed, a, b)
    {
      IntoKeepsApart(before, steps, middle, allowed, winner, loser, a, b);
    }
    forall x: nat
      ensures KindKept(before, steps + [Into(winner, loser)], Merged(middle, winner, loser), x)
    {
      RepMore(steps, Into(winner, loser), x);
      assert KindKept(before, steps, middle, x);
    }
  }

  lemma AdoptKeepsApart(t: Identity, steps: seq<Step>, allowed: set<(nat, nat)>, child: nat, parent: nat, a: nat, b: nat)
    requires AllApart(t, steps, allowed)
    ensures Apart(t, steps + [Adopt(child, parent)], allowed, a, b)
  {
    RepMore(steps, Adopt(child, parent), a);
    RepMore(steps, Adopt(child, parent), b);
    assert Apart(t, steps, allowed, a, b);
  }

  // ----- When a fold brings live copies together -----

  /** No two original items that `y` stands for are live on one source. */
  ghost predicate ClassApart(t: Identity, steps: seq<Step>, y: nat) {
    forall a, b :: a in t.items && b in t.items && a != b && Rep(steps, a) == y && Rep(steps, b) == y ==>
      LiveSources(t, a) !! LiveSources(t, b)
  }

  /** An item is live where the items it stands for were, and nowhere else. */
  lemma LiveOfClass(before: Db, steps: seq<Step>, after: Db, y: nat, s: nat)
    requires Reaches(before, steps, after) && WellFormed(before.catalog)
    ensures s in LiveSources(after.catalog, y) <==>
      exists x :: x in before.catalog.items && Rep(steps, x) == y && s in LiveSources(before.catalog, x)
  {
    RefsSurvive(before, steps, after);
    if s in LiveSources(after.catalog, y) {
      var q :| q in after.catalog.refs && q.item == y && q.available && q.source == s;
      var r :| r in before.catalog.refs && q == r.(item := Rep(steps, r.item));
      assert s in LiveSources(before.catalog, r.item);
    }
    if x :| x in before.catalog.items && Rep(steps, x) == y && s in LiveSources(before.catalog, x) {
      LiveCarried(before, steps, after, x);
    }
  }

  /** Folding two items whose copies were apart keeps them apart exactly if the two have no live source in common. */
  lemma FoldKeepsApartIff(before: Db, steps: seq<Step>, middle: Db, winner: nat, loser: nat)
    requires Reaches(before, steps, middle) && WellFormed(before.catalog) && winner != loser
    requires ClassApart(before.catalog, steps, winner) && ClassApart(before.catalog, steps, loser)
    ensures ClassApart(before.catalog, steps + [Into(winner, loser)], winner) <==>
      LiveSources(middle.catalog, winner) !! LiveSources(middle.catalog, loser)
  {
    var more := steps + [Into(winner, loser)];
    forall x: nat
      ensures Rep(more, x) == winner <==> Rep(steps, x) == winner || Rep(steps, x) == loser
    {
      RepMore(steps, Into(winner, loser), x);
    }
    if s: nat :| s in LiveSources(middle.catalog, winner) && s in LiveSources(middle.catalog, loser) {
      LiveOfClass(before, steps, middle, winner, s);
      LiveOfClass(before, steps, middle, loser, s);
      var a, b :| a in before.catalog.items && b in before.catalog.items && Rep(steps, a) == winner && Rep(steps, b) == loser
        && s in LiveSources(before.catalog, a) && s in LiveSources(before.catalog, b);
      assert !ClassApart(before.catalog, more, winner);
    } else {
      forall a, b | a in before.catalog.items && b in before.catalog.items && a != b && Rep(more, a) == winner && Rep(more, b) == winner
        ensures LiveSources(before.catalog, a) !! LiveSources(before.catalog, b)
      {
        LiveCarried(before, steps, middle, a);
        LiveCarried(before, steps, middle, b);
      }
    }
  }

  ghost predicate SameKinds(items: map<nat, Item>, steps: seq<Step>) {
    forall i :: 0 <= i < |steps| && steps[i].Into? ==>
      steps[i].winner in items && steps[i].loser in items && items[steps[i].winner].kind == items[steps[i].loser].kind
  }

  lemma {:induction false} RepKeepsKind(items: map<nat, Item>, steps: seq<Step>, x: nat)
    requires SameKinds(items, steps) && x in items
    ensures Rep(steps, x) in items && items[Rep(steps, x)].kind == items[x].kind
    decreases |steps|
  {
    if steps != [] {
      RepKeepsKind(items, Front(steps), x);
      assert Last(steps) == steps[|steps| - 1];
    }
  }

  /** A history that keeps kinds has folded items of one kind only. */
  lemma KindsKeptMeansSameKinds(before: Db, steps: seq<Step>, after: Db)
    requires Reaches(before, steps, after) && KindsKept(before, steps, after)
    ensures SameKinds(before.catalog.items, steps)
  {
    forall i | 0 <= i < |steps| && steps[i].Into?
      ensures steps[i].winner in before.catalog.items && steps[i].loser in before.catalog.items
      ensures before.catalog.items[steps[i].winner].kind == before.catalog.items[steps[i].loser].kind
    {
      var at, next := ReachedAt(before, steps, after, i);
      FoldedTogether(before, steps, at, i);
      assert KindKept(before, steps, after, steps[i].winner) && KindKept(before, steps, after, steps[i].loser);
    }
  }

  lemma FoldedTogether(before: Db, steps: seq<Step>, at: Db, i: nat)
    requires i < |steps| && Reaches(before, steps[..i], at) && steps[i].Into? && Possible(at, steps[i])
    ensures steps[i].winner in before.catalog.items && steps[i].loser in before.catalog.items
    ensures Rep(steps, steps[i].winner) == Rep(steps, steps[i].loser)
  {
    var (w, l) := (steps[i].winner, steps[i].loser);
    ItemsKeepTheirPlace(before, steps[..i], at, w);
    ItemsKeepTheirPlace(before, steps[..i], at, l);
    RepMore(steps[..i], steps[i], w);
    RepMore(steps[..i], steps[i], l);
    RepTogether(steps[..i] + [steps[i]], steps[i + 1..], w);
    RepTogether(steps[..i] + [steps[i]], steps[i + 1..], l);
    assert steps == steps[..i] + [steps[i]] + steps[i + 1..];
  }

  /** No two original seasons with one representative are live on one source. */
  ghost predicate SeasonsApart(t: Identity, steps: seq<Step>) {
    forall a, b ::
      (a in t.items && b in t.items && a != b && t.items[a].kind == Season == t.items[b].kind && Rep(steps, a) == Rep(steps, b)) ==>
        LiveSources(t, a) !! LiveSources(t, b)
  }

  /** If step `i` folds seasons, they have no live source in common when their turn comes. */
  ghost predicate FoldApartAt(before: Db, steps: seq<Step>, i: nat) {
    i < |steps| && steps[i].Into? && steps[i].loser in before.catalog.items && before.catalog.items[steps[i].loser].kind == Season ==>
      forall at :: Reaches(before, steps[..i], at) ==>
        LiveSources(at.catalog, steps[i].winner) !! LiveSources(at.catalog, steps[i].loser)
  }

  ghost predicate SeasonFoldsApart(before: Db, steps: seq<Step>) {
    forall i: nat :: FoldApartAt(before, steps, i)
  }

  lemma FoldsApartGrow(before: Db, steps: seq<Step>, middle: Db, s: Step)
    requires Reaches(before, steps, middle)
    ensures SeasonFoldsApart(before, steps + [s]) <==>
      SeasonFoldsApart(before, steps)
      && (s.Into? && s.loser in before.catalog.items && before.catalog.items[s.loser].kind == Season ==>
            LiveSources(middle.catalog, s.winner) !! LiveSources(middle.catalog, s.loser))
  {
    var more := steps + [s];
    assert more[..|steps|] == steps;
    forall i: nat | i < |steps|
      ensures FoldApartAt(before, more, i) <==> FoldApartAt(before, steps, i)
    {
      assert more[..i] == steps[..i];
    }
    forall at | Reaches(before, steps, at)
      ensures at == middle
    {
      ReachesOnce(before, steps, at, middle);
    }
    assert FoldApartAt(before, more, |steps|) <==>
      (s.Into? && s.loser in before.catalog.items && before.catalog.items[s.loser].kind == Season ==>
         LiveSources(middle.catalog, s.winner) !! LiveSources(middle.catalog, s.loser));
    if SeasonFoldsApart(before, more) {
      forall i: nat
        ensures FoldApartAt(before, steps, i)
      {
        assert FoldApartAt(before, more, i);
      }
    } else if SeasonFoldsApart(before, steps) {
      var i: nat :| !FoldApartAt(before, more, i);
      assert FoldApartAt(before, steps, i);
    }
  }

  /** One more step keeps seasons apart exactly if it folds no two that share a live source. */
  lemma StepKeepsSeasonsApartIff(before: Db, steps: seq<Step>, middle: Db, s: Step)
    requires Reaches(before, steps, middle) && WellFormed(before.catalog) && Possible(middle, s)
    requires SameKinds(before.catalog.items, steps + [s]) && SeasonsApart(before.catalog, steps)
    ensures SeasonsApart(before.catalog, steps + [s]) <==>
      (s.Into? && s.loser in before.catalog.items && before.catalog.items[s.loser].kind == Season ==>
         LiveSources(middle.catalog, s.winner) !! LiveSources(middle.catalog, s.loser))
  {
    var (t, more) := (before.catalog, steps + [s]);
    assert s == more[|steps|] && forall i :: 0 <= i < |steps| ==> more[i] == steps[i];
    forall x: nat
      ensures Rep(more, x) == MovedBy(s, Rep(steps, x))
      ensures x in t.items ==> Rep(steps, x) in t.items && t.items[Rep(steps, x)].kind == t.items[x].kind
    {
      RepMore(steps, s, x);
      if x in t.items {
        RepKeepsKind(t.items, steps, x);
      }
    }
    if s.Into? && t.items[s.loser].kind == Season {
      FoldKeepsApartIff(before, steps, middle, s.winner, s.loser);
      assert SeasonsApart(t, more) <==> ClassApart(t, more, s.winner);
    }
  }

  /** Over every history: seasons stay apart exactly if no two were folded that shared a live source at their turn. */
  lemma {:induction false} SeasonsApartIff(before: Db, steps: seq<Step>, after: Db)
    requires Reaches(before, steps, after) && WellFormed(before.catalog) && SameKinds(before.catalog.items, steps)
    ensures SeasonsApart(before.catalog, steps) <==> SeasonFoldsApart(before, steps)
    decreases |steps|
  {
    if steps != [] {
      var (front, s) := (Front(steps), Last(steps));
      var middle := LastStep(before, steps, after);
      assert steps == front + [s];
      assert SameKinds(before.catalog.items, front);
      SeasonsApartIff(before, front, middle);
      FoldsApartGrow(before, front, middle, s);
      if SeasonsApart(before.catalog, front) {
        StepKeepsSeasonsApartIff(before, front, middle, s);
      } else if SeasonsApart(before.catalog, steps) {
        ApartBeforeFold(before.catalog, front, s);
      }
    }
  }

  lemma ApartBeforeFold(t: Identity, steps: seq<Step>, s: Step)
    requires SeasonsApart(t, steps + [s])
    ensures SeasonsApart(t, steps)
  {
    forall x: nat
      ensures Rep(steps + [s], x) == MovedBy(s, Rep(steps, x))
    {
      RepMore(steps, s, x);
    }
  }

  /** The database is what the steps made of the original; levels, kinds and live copies were respected. */
  ghost predicate ValidHistory(origin: Db, steps: seq<Step>, allowed: set<(nat, nat)>, db: Db) {
    && Reaches(origin, steps, db) && Leveled(db.catalog.items)
    && KindsKept(origin, steps, db) && AllApart(origin.catalog, steps, allowed)
    && (forall p :: p in allowed ==> p.0 in origin.catalog.items && origin.catalog.items[p.0].kind == Show)
  }

  lemma IntoKeepsValid(origin: Db, steps: seq<Step>, allowed: set<(nat, nat)>, db: Db, winner: nat, loser: nat)
    requires ValidHistory(origin, steps, allowed, db) && MayFold(origin, steps, allowed, db.catalog, winner, loser)
    ensures ValidHistory(origin, steps + [Into(winner, loser)], allowed, Merged(db, winner, loser))
  {
    MergeKeepsLeveled(db.catalog.items, winner, loser);
    IntoKeepsHistory(origin, steps, db, allowed, winner, loser);
    assert Makes(db, Into(winner, loser), Merged(db, winner, loser));
    ReachesMore(origin, steps, db, Into(winner, loser), Merged(db, winner, loser));
  }

  lemma AdoptKeepsValid(origin: Db, steps: seq<Step>, allowed: set<(nat, nat)>, db: Db, child: nat, parent: nat)
    requires ValidHistory(origin, steps, allowed, db) && child in db.catalog.items && parent in db.catalog.items
    requires MayHold(db.catalog.items[parent].kind, db.catalog.items[child].kind)
    ensures ValidHistory(origin, steps + [Adopt(child, parent)], allowed, Stepped(db, Adopt(child, parent)))
  {
    var next := Stepped(db, Adopt(child, parent));
    AdoptKeepsLeveled(db.catalog.items, child, parent);
    assert Makes(db, Adopt(child, parent), next);
    ReachesMore(origin, steps, db, Adopt(child, parent), next);
    forall x: nat
      ensures KindKept(origin, steps + [Adopt(child, parent)], next, x)
    {
      RepMore(steps, Adopt(child, parent), x);
      assert KindKept(origin, steps, db, x);
    }
    forall a, b
      ensures Apart(origin.catalog, steps + [Adopt(child, parent)], allowed, a, b)
    {
      AdoptKeepsApart(origin.catalog, steps, allowed, child, parent, a, b);
    }
  }

  // ----- The statements of one merge -----

  lemma AttachedRowIs(rows: Attached, winner: nat, loser: nat, k: (nat, string))
    requires winner != loser
    ensures var next := MergedAttached(rows, winner, loser);
      && (k in next <==> k.0 != loser && (k in rows || (k.0 == winner && (loser, k.1) in rows)))
      && (k in next ==> next[k] == if k in rows then rows[k] else rows[(loser, k.1)])
  {
    var keys := set j | j in rows :: (Moved(j.0, winner, loser), j.1);
    if k in rows {
      assert (Moved(k.0, winner, loser), k.1) in keys;
    }
    if (loser, k.1) in rows {
      assert (Moved(loser, winner, loser), k.1) in keys;
    }
  }

  /** What the DELETE leaves. */
  function Unshadowed(rows: Attached, winner: nat, loser: nat): Attached {
    map k | k in rows && !(k.0 == loser && (winner, k.1) in rows) :: rows[k]
  }

  /** Rows with new owners, name by name: the UPDATE, when it does not fail. */
  ghost predicate Reowned(rows: Attached, winner: nat, loser: nat, next: Attached) {
    && next.Keys == (set k | k in rows :: (Moved(k.0, winner, loser), k.1))
    && forall k :: k in rows ==> next[(Moved(k.0, winner, loser), k.1)] == rows[k]
  }

  lemma AttachedStatements(rows: Attached, winner: nat, loser: nat, next: Attached)
    requires winner != loser && Reowned(Unshadowed(rows, winner, loser), winner, loser, next)
    ensures next == MergedAttached(rows, winner, loser)
  {
    var kept := Unshadowed(rows, winner, loser);
    var goal := MergedAttached(rows, winner, loser);
    forall k: (nat, string)
      ensures (k in next <==> k in goal) && (k in next ==> next[k] == goal[k])
    {
      AttachedRowIs(rows, winner, loser, k);
      if k in rows && k.0 != loser {
        assert k in kept && (Moved(k.0, winner, loser), k.1) == k;
      }
      if k.0 == winner && (loser, k.1) in rows && k !in rows {
        assert (loser, k.1) in kept && (Moved(loser, winner, loser), k.1) == k;
      }
    }
  }

  /** After the DELETE the UPDATE cannot fail. */
  lemma DeleteMakesRoom(rows: Attached, winner: nat, loser: nat)
    requires winner != loser
    ensures Movable(Unshadowed(rows, winner, loser).Keys, winner, loser)
  {
    MovableIff(Unshadowed(rows, winner, loser).Keys, winner, loser);
  }

  /** An identifier row is unique as a whole. */
  ghost function IdKeys(ids: set<Identifier>): set<(nat, (Provider, string))> {
    set i | i in ids :: (i.item, (i.provider, i.externalId))
  }

  lemma IdsMovable(ids: set<Identifier>, winner: nat, loser: nat)
    requires winner != loser
    ensures Movable(IdKeys(set i | i in ids && !(i.item == loser && i.(item := winner) in ids)), winner, loser)
  {
    var unique := set i | i in ids && !(i.item == loser && i.(item := winner) in ids);
    MovableIff(IdKeys(unique), winner, loser);
    forall k
      ensures !Clashes(IdKeys(unique), winner, loser, k)
    {
      assert k in IdKeys(unique) && k.0 == loser ==> Identifier(winner, k.1.0, k.1.1) !in unique;
      assert (winner, k.1) in IdKeys(unique) ==> Identifier(winner, k.1.0, k.1.1) in unique;
    }
  }

  /** The history a database carries is ghost: what it was, and every step since. */
  class MediaDatabase {
    var catalog: Identity
    var events: seq<WatchEvent>
    var states: Table
    var genres: Attached
    var images: Attached
    var enrichment: Attached
    ghost var origin: Db
    ghost var steps: seq<Step>
    ghost var allowed: set<(nat, nat)>

    ghost function Now(): Db
      reads this
    {
      Db(catalog, events, states, genres, images, enrichment)
    }

    ghost predicate Valid()
      reads this
    {
      ValidHistory(origin, steps, allowed, Now())
    }

    constructor (db: Db)
      requires Leveled(db.catalog.items)
      ensures Valid() && Now() == db == origin && steps == [] && allowed == {}
    {
      catalog, events, states := db.catalog, db.events, db.states;
      genres, images, enrichment := db.genres, db.images, db.enrichment;
      origin, steps, allowed := db, [], {};
      new;
      ReachesNothing(db);
      forall a, b
        ensures Apart(origin.catalog, steps, allowed, a, b)
      {
      }
      forall x: nat
        ensures KindKept(origin, steps, Now(), x)
      {
      }
    }

    /** UPDATE of the owner; it fails unless every new key is free. */
    static method MoveRows(rows: Attached, winner: nat, loser: nat) returns (next: Attached)
      requires winner != loser && Movable(rows.Keys, winner, loser)
      ensures Reowned(rows, winner, loser, next)
    {
      next := MergedAttached(rows, winner, loser);
      forall k | k in rows
        ensures next[(Moved(k.0, winner, loser), k.1)] == rows[k]
      {
        AttachedRowIs(rows, winner, loser, (Moved(k.0, winner, loser), k.1));
        assert k == (k.0, k.1);
      }
    }

    /** Deletes the loser's rows the winner has under the same name, then moves the rest. */
    static method MergeAttached(rows: Attached, winner: nat, loser: nat) returns (next: Attached)
      requires winner != loser
      ensures next == MergedAttached(rows, winner, loser)
    {
      var kept := Unshadowed(rows, winner, loser);
      DeleteMakesRoom(rows, winner, loser);
      next := MoveRows(kept, winner, loser);
      AttachedStatements(rows, winner, loser, next);
    }

    static method MoveIds(ids: set<Identifier>, winner: nat, loser: nat) returns (next: set<Identifier>)
      requires winner != loser && Movable(IdKeys(ids), winner, loser)
      ensures next == set i | i in ids :: i.(item := Moved(i.item, winner, loser))
    {
      next := set i | i in ids :: i.(item := Moved(i.item, winner, loser));
    }

    /** Ids the winner contradicts go, all of the loser's go under a confirmed match, the rest move. */
    static method MergeIdentifiers(t: Identity, winner: nat, loser: nat) returns (next: set<Identifier>)
      requires winner in t.items && winner != loser
      ensures next == MergedIdentifiers(t, winner, loser)
      ensures OneStableId(t) ==> forall i, j :: i in next && j in next ==> Agree(i, j)
    {
      next := set i | i in t.identifiers &&
        !(i.item == loser && Stable(i.provider) &&
          exists w :: w in t.identifiers && w.item == winner && w.provider == i.provider && w.externalId != i.externalId);
      if t.items[winner].manual != "" {
        next := set i | i in next && i.item != loser;
      }
      ghost var kept := next;
      IdsMovable(kept, winner, loser);
      next := set i | i in next && !(i.item == loser && i.(item := winner) in next);
      ghost var unique := next;
      next := MoveIds(next, winner, loser);
      assert kept == set i | i in t.identifiers && !Dropped(t, winner, loser, i);
      assert next == MergedIdentifiers(t, winner, loser) by {
        forall i | i in kept
          ensures i.(item := Moved(i.item, winner, loser)) in next
        {
          if i !in unique {
            assert i.(item := winner) in unique;
          }
        }
      }
      if OneStableId(t) {
        MergeKeepsOneStableId(t, winner, loser);
      }
    }

    /** Fill what the winner lacks, re-parent the loser's children, delete the loser. */
    static method MergeRows(rows: map<nat, Item>, winner: nat, loser: nat) returns (items: map<nat, Item>)
      requires winner in rows && loser in rows && winner != loser
      ensures items == MergedItems(rows, winner, loser)
    {
      items := rows;
      if items[winner].year.None? {
        items := items[winner := items[winner].(year := items[loser].year)];
      }
      items := items[winner := items[winner].(details := items[loser].details + items[winner].details)];
      items := map x | x in items :: if items[x].parent == Some(loser) then items[x].(parent := Some(winner)) else items[x];
      items := items - {loser};
    }

    /** One item is folded into another of its kind. */
    method MergeItem(winner: nat, loser: nat)
      requires Valid() && MayFold(origin, steps, allowed, catalog, winner, loser)
      modifies `catalog, `events, `states, `genres, `images, `enrichment, `steps
      ensures Valid() && Now() == Merged(old(Now()), winner, loser)
      ensures steps == old(steps) + [Into(winner, loser)]
    {
      ghost var before := Now();
      var items := MergeRows(catalog.items, winner, loser);
      var identifiers := MergeIdentifiers(catalog, winner, loser);
      genres := MergeAttached(genres, winner, loser);
      images := MergeAttached(images, winner, loser);
      enrichment := MergeAttached(enrichment, winner, loser);
      states := FoldRows(states, winner, loser);
      events := MergedEvents(events, winner, loser);
      catalog := catalog.(items := items, refs := MergedRefs(catalog.refs, winner, loser), identifiers := identifiers);
      IntoKeepsValid(origin, steps, allowed, before, winner, loser);
      steps := steps + [Into(winner, loser)];
    }

    method AdoptChild(child: nat, parent: nat)
      requires Valid() && child in catalog.items && parent in catalog.items
      requires MayHold(catalog.items[parent].kind, catalog.items[child].kind)
      modifies `catalog, `steps
      ensures Valid() && Now() == old(Now()).(catalog := catalog)
      ensures catalog == old(catalog).(items := Adopted(old(catalog).items, child, parent))
      ensures steps == old(steps) + [Adopt(child, parent)]
    {
      AdoptKeepsValid(origin, steps, allowed, Now(), child, parent);
      catalog := catalog.(items := catalog.items[child := catalog.items[child].(parent := Some(parent))]);
      steps := steps + [Adopt(child, parent)];
    }
  }
}
