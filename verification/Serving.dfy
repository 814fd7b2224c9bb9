/**
 What every write and every serving of the catalog makes of the stored projection, told from the rows:
 markers, dirty items, cascades, and which entries change.
 */
module Serving {
  import opened Catalog
  import opened Playback
  import opened Hierarchy
  import opened Projection
  import opened Grouping
  import opened Refresh
  import opened CardContents
  import opened Store

  /** Playback rows make their items dirty and the projection stale, unless it is to be rebuilt for its identity anyway. */
  lemma PlaybackWriteDecides(run: seq<Snapshot>, ops: seq<Op>, i: nat)
    requires IsRun(run, ops) && i < |ops| && ops[i].WritePlayback?
    ensures var (s, next, touched) := (run[i], run[i + 1], ops[i].touched);
      && next.tables == s.tables && next.members == s.members && next.entries == s.entries
      && (forall x :: x in next.dirty <==> x in s.dirty || x in touched)
      && (touched == {} ==> next == s)
      && (touched != {} ==>
            match s.marker
            case None => next.marker == None
            case Some(IdentityChanged) => next.marker == Some(IdentityChanged)
            case Some(_) => next.marker == Some(PlaybackChanged))
  {
    assert StepAt(run, ops, i);
  }

  /** The rows of the items that are kept. */
  function Thinned(rows: seq<Contribution>, kept: set<nat>): seq<Contribution> {
    if rows == [] then [] else (if rows[0].item in kept then [rows[0]] else []) + Thinned(rows[1..], kept)
  }

  lemma {:induction false} ThinnedTally(rows: seq<Contribution>, kept: set<nat>, items: set<nat>)
    requires items <= kept
    ensures Tally(Thinned(rows, kept), items) == Tally(rows, items)
  {
    if rows != [] {
      var (row, rest) := (rows[0], Thinned(rows[1..], kept));
      ThinnedTally(rows[1..], kept, items);
      if row.item in kept {
        assert ([row] + rest)[1..] == rest;
      } else {
        assert Thinned(rows, kept) == rest;
        CombineNothing(Tally(rows[1..], items));
      }
    }
  }

  lemma ThinnedFirst(row: Contribution, rows: seq<Contribution>, kept: set<nat>)
    ensures Thinned([row] + rows, kept) == (if row.item in kept then [row] else []) + Thinned(rows, kept)
  {
    assert ([row] + rows)[1..] == rows;
  }

  lemma {:induction false} EventsKept(events: seq<WatchEvent>, kept: set<nat>)
    ensures forall e :: e in EventsOf(events, kept) <==> e in events && e.item in kept
  {
    if events != [] {
      EventsKept(events[1..], kept);
    }
  }

  lemma {:induction false} StatesKept(states: seq<WatchState>, kept: set<nat>)
    ensures forall w :: w in StatesOf(states, kept) <==> w in states && w.item in kept
  {
    if states != [] {
      StatesKept(states[1..], kept);
    }
  }

  lemma {:induction false} EventRowsThinned(events: seq<WatchEvent>, kept: set<nat>)
    ensures EventRows(EventsOf(events, kept)) == Thinned(EventRows(events), kept)
  {
    if events != [] {
      var (e, rest) := (events[0], EventsOf(events[1..], kept));
      EventRowsThinned(events[1..], kept);
      var (head, rows) := (if e.completed then [EventContribution(e)] else [], EventRows(events[1..]));
      ThinnedFirst(EventContribution(e), rows, kept);
      assert EventRows(events) == head + rows && [] + rows == rows;
      assert EventsOf(events, kept) == (if e.item in kept then [e] else []) + rest;
      if e.item in kept {
        assert ([e] + rest)[1..] == rest && EventRows([e] + rest) == head + EventRows(rest);
      } else {
        assert [] + rest == rest && Thinned(rows, kept) == [] + Thinned(rows, kept);
      }
    }
  }

  lemma {:induction false} StateRowsThinned(states: seq<WatchState>, kept: set<nat>)
    ensures StateRows(StatesOf(states, kept)) == Thinned(StateRows(states), kept)
  {
    if states != [] {
      var (w, rest) := (states[0], StatesOf(states[1..], kept));
      StateRowsThinned(states[1..], kept);
      var rows := StateRows(states[1..]);
      ThinnedFirst(StateContribution(w), rows, kept);
      assert StateRows(states) == [StateContribution(w)] + rows;
      assert StatesOf(states, kept) == (if w.item in kept then [w] else []) + rest;
      if w.item in kept {
        assert ([w] + rest)[1..] == rest && StateRows([w] + rest) == [StateContribution(w)] + StateRows(rest);
      } else {
        assert [] + rest == rest && Thinned(rows, kept) == [] + Thinned(rows, kept);
      }
    }
  }

  /** Deleted items take their playback rows, their entries and the members of these along; nothing else is lost. */
  lemma IdentityWriteDecides(run: seq<Snapshot>, ops: seq<Op>, i: nat)
    requires IsRun(run, ops) && i < |ops| && ops[i].WriteIdentity?
    ensures var (s, next) := (run[i], run[i + 1]);
      && next.tables == ops[i].next
      && (next.marker == if s.marker == None then None else Some(IdentityChanged))
      && (forall v :: v in next.activity.events <==> v in s.activity.events && v.item in next.tables.items)
      && (forall w :: w in next.activity.states <==> w in s.activity.states && w.item in next.tables.items)
      && (forall items :: items <= next.tables.items.Keys ==> ActivityTally(next.activity, items) == ActivityTally(s.activity, items))
      && (forall e :: e in next.entries <==> e in s.entries && e in next.tables.items)
      && (forall e :: e in next.entries ==> next.entries[e] == s.entries[e])
      && (forall x :: x in next.members <==> x in s.members && x in next.tables.items && s.members[x] in next.tables.items)
      && (forall x :: x in next.members ==> next.members[x] == s.members[x])
      && (forall x :: x in next.dirty <==>
            x in s.dirty
            || (exists v :: v in s.activity.events && v.item == x && x !in next.tables.items)
            || (exists w :: w in s.activity.states && w.item == x && x !in next.tables.items))
  {
    assert StepAt(run, ops, i);
    var (s, kept) := (run[i], ops[i].next.items.Keys);
    EventsKept(s.activity.events, kept);
    StatesKept(s.activity.states, kept);
    EventRowsThinned(s.activity.events, kept);
    StateRowsThinned(s.activity.states, kept);
    forall items | items <= kept
      ensures ActivityTally(run[i + 1].activity, items) == ActivityTally(s.activity, items)
    {
      ThinnedTally(EventRows(s.activity.events), kept, items);
      ThinnedTally(StateRows(s.activity.states), kept, items);
    }
  }

  /** Nothing that was played lies below the card. */
  ghost predicate Undisturbed(t: Identity, cards: Cards, dirty: set<nat>, e: nat) {
    forall d :: d in dirty && d in t.items ==> d !in MembersAndBelow(t, cards, e)
  }

  lemma LineIsAbove(items: Items, x: nat, y: nat, depth: nat)
    requires y in Line(items, items.Keys, x, depth)
    ensures Above(items, x, y)
    decreases depth
  {
    if y == x {
      assert Climbs(items, [x], x, x);
    } else {
      var up := Up(items, items.Keys, x).value;
      LineIsAbove(items, up, y, depth - 1);
      var path :| Climbs(items, path, up, y);
      ClimbFurther(items, x, up, path, y);
    }
  }

  lemma ImpactedIsDisturbed(t: Identity, cards: Cards, dirty: set<nat>, e: nat)
    requires e in Impacted(t, cards, dirty) && forall x :: x in cards ==> x in t.items
    ensures !Undisturbed(t, cards, dirty, e)
  {
    var d, x :| d in dirty && d in t.items && x in Line(t.items, t.items.Keys, d, MAX_DEPTH) && x in cards && cards[x] == e;
    LineIsAbove(t.items, d, x, MAX_DEPTH);
    assert x in Members(t, cards, e);
    assert d in MembersAndBelow(t, cards, e);
  }

  /**
   Serving a clean projection changes nothing; one with played items keeps its cards and every entry
   that none of them lies below; any other is told anew from the rows. Afterwards it is clean.
   */
  lemma ServingDecides(run: seq<Snapshot>, ops: seq<Op>, i: nat)
    requires IsRun(run, ops) && i < |ops| && ops[i].Ensure?
    ensures var (s, next) := (run[i], run[i + 1]);
      var served := s.entries != map[] || forall x :: x in s.tables.items ==> s.tables.items[x].kind == Season;
      && next.tables == s.tables && next.activity == s.activity && next.marker == Some(UpToDate)
      && if s.marker == Some(UpToDate) && served then next == s
         else if s.marker == Some(PlaybackChanged) && s.entries != map[] && s.dirty != {} then
           && next.members == s.members && next.entries.Keys == s.entries.Keys && next.dirty == {}
           && ((forall x :: x in s.members ==> x in s.tables.items) ==>
                 forall e :: e in s.entries && Undisturbed(s.tables, s.members, s.dirty, e) ==> next.entries[e] == s.entries[e])
         else next.members == CardOf(s.tables) && EntriesTold(next) && next.dirty == {}
  {
    assert StepAt(run, ops, i);
    var (s, next) := (run[i], run[i + 1]);
    SeasonsOnly(s.tables);
    if RefreshDue(s) && !NothingToDo(s) {
      forall e | e in s.entries && (forall x :: x in s.members ==> x in s.tables.items) && Undisturbed(s.tables, s.members, s.dirty, e)
        ensures next.entries[e] == s.entries[e]
      {
        if e in Impacted(s.tables, s.members, s.dirty) {
          ImpactedIsDisturbed(s.tables, s.members, s.dirty, e);
          assert false;
        }
        assert Renewed(s.tables, s.activity, s.members, s.entries, s.dirty, e, next.entries[e]);
      }
    } else if !NothingToDo(s) {
      FreshIsTold(next);
    }
  }

  lemma SeasonsOnly(t: Identity)
    ensures CatalogIds(t) == {} <==> forall x :: x in t.items ==> t.items[x].kind == Season
  {
    if x :| x in t.items && t.items[x].kind != Season {
      assert x in CatalogIds(t);
    }
  }
}
