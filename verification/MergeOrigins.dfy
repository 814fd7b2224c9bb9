/**
 The other side of "nothing is lost": merges invent nothing, survivors keep their own records, and the
 ids of a confirmed item are left alone.
 */
module MergeOrigins {
  import opened Catalog
  import opened Merge

  /** What stands for itself after one more merge did so before. */
  lemma StoodForItself(before: Db, steps: seq<Step>, middle: Db, s: Step, x: nat)
    requires Reaches(before, steps, middle) && Possible(middle, s) && Rep(steps + [s], x) == x
    ensures Rep(steps, x) == x
    ensures s.Into? ==> x != s.loser
  {
    RepMore(steps, s, x);
    if s.Into? && s.winner == x {
      NobodyNew(before, steps, middle, x);
    }
  }

  lemma {:induction false} NobodyNew(before: Db, steps: seq<Step>, after: Db, x: nat)
    requires Reaches(before, steps, after) && x in after.catalog.items
    ensures x in before.catalog.items && Rep(steps, x) == x
  {
    ItemsKeepTheirPlace(before, steps, after, x);
  }

  // ----- Records by name -----

  ghost predicate ComesFrom(before: Attached, steps: seq<Step>, k: (nat, string), value: nat, x: nat) {
    Rep(steps, x) == k.0 && (x, k.1) in before && before[(x, k.1)] == value
  }

  /** Every record was one of an item that its owner stands for, and owners keep their own. */
  ghost predicate RecordsTold(before: Attached, steps: seq<Step>, after: Attached) {
    && (forall k :: k in after ==> exists x: nat :: ComesFrom(before, steps, k, after[k], x))
    && (forall k :: k in before && Rep(steps, k.0) == k.0 ==> k in after && after[k] == before[k])
  }

  lemma MergedRecord(rows: Attached, winner: nat, loser: nat, k: (nat, string))
    requires winner != loser && k in MergedAttached(rows, winner, loser)
    ensures k.0 != loser
    ensures var next := MergedAttached(rows, winner, loser);
      if k in rows then next[k] == rows[k] else k.0 == winner && (loser, k.1) in rows && next[k] == rows[(loser, k.1)]
  {
  }

  lemma MergeTellsRecords(before: Attached, steps: seq<Step>, middle: Attached, winner: nat, loser: nat)
    requires RecordsTold(before, steps, middle) && winner != loser
    requires forall x :: Rep(steps + [Into(winner, loser)], x) == x ==> Rep(steps, x) == x && x != loser
    ensures RecordsTold(before, steps + [Into(winner, loser)], MergedAttached(middle, winner, loser))
  {
    var (more, after) := (steps + [Into(winner, loser)], MergedAttached(middle, winner, loser));
    forall k | k in after
      ensures exists x: nat :: ComesFrom(before, more, k, after[k], x)
    {
      MergedRecord(middle, winner, loser, k);
      var origin := if k in middle then k else (loser, k.1);
      var x: nat :| ComesFrom(before, steps, origin, middle[origin], x);
      RepMore(steps, Into(winner, loser), x);
      assert ComesFrom(before, more, k, after[k], x);
    }
    forall k | k in before && Rep(more, k.0) == k.0
      ensures k in after && after[k] == before[k]
    {
      AttachedMoves(middle, winner, loser, k);
      MergedRecord(middle, winner, loser, k);
    }
  }

  /** Genres, images and enrichment records, over any merges: none is invented, and no survivor loses or changes its own. */
  lemma {:induction false} RecordsAreTold(before: Db, steps: seq<Step>, after: Db)
    requires Reaches(before, steps, after)
    ensures RecordsTold(before.genres, steps, after.genres)
    ensures RecordsTold(before.images, steps, after.images)
    ensures RecordsTold(before.enrichment, steps, after.enrichment)
    decreases |steps|
  {
    if steps == [] {
      NothingTold(before.genres);
      NothingTold(before.images);
      NothingTold(before.enrichment);
    } else {
      var (front, s) := (Front(steps), Last(steps));
      var middle := LastStep(before, steps, after);
      assert steps == front + [s];
      RecordsAreTold(before, front, middle);
      if s.Into? {
        forall x | Rep(steps, x) == x
          ensures Rep(front, x) == x && x != s.loser
        {
          StoodForItself(before, front, middle, s, x);
        }
        MergeTellsRecords(before.genres, front, middle.genres, s.winner, s.loser);
        MergeTellsRecords(before.images, front, middle.images, s.winner, s.loser);
        MergeTellsRecords(before.enrichment, front, middle.enrichment, s.winner, s.loser);
      } else {
        AdoptionTells(before.genres, front, middle.genres, s);
        AdoptionTells(before.images, front, middle.images, s);
        AdoptionTells(before.enrichment, front, middle.enrichment, s);
      }
    }
  }

  lemma NothingTold(rows: Attached)
    ensures RecordsTold(rows, [], rows)
  {
    forall k | k in rows
      ensures exists x: nat :: ComesFrom(rows, [], k, rows[k], x)
    {
      assert ComesFrom(rows, [], k, rows[k], k.0);
    }
  }

  lemma AdoptionTells(before: Attached, steps: seq<Step>, after: Attached, s: Step)
    requires RecordsTold(before, steps, after) && s.Adopt?
    ensures RecordsTold(before, steps + [s], after)
  {
    forall x: nat
      ensures Rep(steps + [s], x) == Rep(steps, x)
    {
      RepMore(steps, s, x);
    }
    forall k | k in after
      ensures exists x: nat :: ComesFrom(before, steps + [s], k, after[k], x)
    {
      var x: nat :| ComesFrom(before, steps, k, after[k], x);
      assert ComesFrom(before, steps + [s], k, after[k], x);
    }
  }

  // ----- External ids -----

  /** One item that this one stands for had the id. */
  ghost predicate IdComesFrom(before: Identity, steps: seq<Step>, i: Identifier) {
    exists j :: j in before.identifiers && Rep(steps, j.item) == i.item && j.provider == i.provider && j.externalId == i.externalId
  }

  lemma MergedIdOrigin(t: Identity, winner: nat, loser: nat, i: Identifier) returns (j: Identifier)
    requires winner in t.items && i in MergedIdentifiers(t, winner, loser)
    ensures j in t.identifiers && i == j.(item := Moved(j.item, winner, loser))
    ensures j.item == loser ==>
      && t.items[winner].manual == ""
      && (Stable(j.provider) ==>
            forall w :: w in t.identifiers && w.item == winner && w.provider == j.provider ==> w.externalId == j.externalId)
  {
    j :| j in t.identifiers && !Dropped(t, winner, loser, j) && i == j.(item := Moved(j.item, winner, loser));
  }

  /** No id is invented. */
  lemma {:induction false} IdsAreNotInvented(before: Db, steps: seq<Step>, after: Db, i: Identifier)
    requires Reaches(before, steps, after) && i in after.catalog.identifiers
    ensures IdComesFrom(before.catalog, steps, i)
    decreases |steps|
  {
    if steps == [] {
      assert Rep(steps, i.item) == i.item;
    } else {
      var (front, s) := (Front(steps), Last(steps));
      var middle := LastStep(before, steps, after);
      var m := i;
      if s.Into? {
        m := MergedIdOrigin(middle.catalog, s.winner, s.loser, i);
      }
      IdsAreNotInvented(before, front, middle, m);
      var j :| j in before.catalog.identifiers && Rep(front, j.item) == m.item && j.provider == m.provider && j.externalId == m.externalId;
      assert Rep(steps, j.item) == i.item;
    }
  }

  /** A survivor keeps every id of its own. */
  lemma {:induction false} OwnIdsStay(before: Db, steps: seq<Step>, after: Db, i: Identifier)
    requires Reaches(before, steps, after) && i in before.catalog.identifiers && Rep(steps, i.item) == i.item
    ensures i in after.catalog.identifiers
    decreases |steps|
  {
    if steps != [] {
      var (front, s) := (Front(steps), Last(steps));
      var middle := LastStep(before, steps, after);
      assert steps == front + [s];
      StoodForItself(before, front, middle, s, i.item);
      OwnIdsStay(before, front, middle, i);
      if s.Into? {
        assert !Dropped(middle.catalog, s.winner, s.loser, i) && i == i.(item := Moved(i.item, s.winner, s.loser));
      }
    }
  }

  /** A confirmed item that survives has exactly the ids it had: old metadata brings none back. */
  lemma {:induction false} ConfirmedIdsAreLeftAlone(before: Db, steps: seq<Step>, after: Db, i: Identifier)
    requires Reaches(before, steps, after) && i.item in after.catalog.items && after.catalog.items[i.item].manual != ""
    ensures i in after.catalog.identifiers <==> i in before.catalog.identifiers
    decreases |steps|
  {
    NobodyNew(before, steps, after, i.item);
    if i in before.catalog.identifiers {
      OwnIdsStay(before, steps, after, i);
    }
    if steps != [] && i in after.catalog.identifiers {
      var (front, s) := (Front(steps), Last(steps));
      var middle := LastStep(before, steps, after);
      assert steps == front + [s];
      StoodForItself(before, front, middle, s, i.item);
      StillConfirmed(middle, s, after, i.item);
      if s.Into? {
        var j := MergedIdOrigin(middle.catalog, s.winner, s.loser, i);
        assert j == i;
      }
      ConfirmedIdsAreLeftAlone(before, front, middle, i);
    }
  }

  lemma StillConfirmed(middle: Db, s: Step, after: Db, x: nat)
    requires Makes(middle, s, after) && x in after.catalog.items
    ensures x in middle.catalog.items && middle.catalog.items[x].manual == after.catalog.items[x].manual
  {
  }

  // ----- Fields -----

  /** Every filled field of an item is one of an item that it stands for. */
  ghost predicate FieldComesFrom(before: Db, steps: seq<Step>, y: nat, name: string, value: string) {
    exists x :: x in before.catalog.items && Rep(steps, x) == y && name in before.catalog.items[x].details
      && before.catalog.items[x].details[name] == value
  }

  ghost predicate YearComesFrom(before: Db, steps: seq<Step>, y: nat, year: nat) {
    exists x :: x in before.catalog.items && Rep(steps, x) == y && before.catalog.items[x].year == Some(year)
  }

  lemma MergedField(items: map<nat, Item>, winner: nat, loser: nat, y: nat)
    requires winner != loser && winner in items && loser in items && y in MergedItems(items, winner, loser)
    ensures y in items && y != loser
    ensures var next := MergedItems(items, winner, loser)[y];
      && (forall f :: f in next.details ==>
            (f in items[y].details && next.details[f] == items[y].details[f])
            || (y == winner && f in items[loser].details && next.details[f] == items[loser].details[f]))
      && (next.year == items[y].year || (y == winner && next.year == items[loser].year))
  {
  }

  lemma {:induction false} FieldsAreNotInvented(before: Db, steps: seq<Step>, after: Db, y: nat)
    requires Reaches(before, steps, after) && y in after.catalog.items
    ensures forall f :: f in after.catalog.items[y].details ==> FieldComesFrom(before, steps, y, f, after.catalog.items[y].details[f])
    ensures after.catalog.items[y].year.Some? ==> YearComesFrom(before, steps, y, after.catalog.items[y].year.value)
    decreases |steps|
  {
    if steps == [] {
      assert Rep(steps, y) == y;
    } else {
      var (front, s) := (Front(steps), Last(steps));
      var middle := LastStep(before, steps, after);
      assert steps == front + [s];
      forall x: nat
        ensures Rep(steps, x) == MovedBy(s, Rep(front, x))
      {
        RepMore(front, s, x);
      }
      if s.Into? {
        MergedField(middle.catalog.items, s.winner, s.loser, y);
        FieldsAreNotInvented(before, front, middle, s.loser);
      }
      FieldsAreNotInvented(before, front, middle, y);
    }
  }
}
