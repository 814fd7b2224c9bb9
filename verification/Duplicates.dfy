/**
 The reconciliation run: the safety test of a group, the choice of the winner, and the merge of
 each loser with its seasons and episodes.
 */
module Duplicates {
  import opened Catalog
  import opened Merge
  import opened Reconcile
  import Grouping

  // ----- The safety test -----

  ghost predicate Known(t: Identity, items: seq<nat>) {
    forall i :: 0 <= i < |items| ==> items[i] in t.items
  }

  ghost predicate ManualsAgree(t: Identity, items: seq<nat>)
    requires Known(t, items)
  {
    forall i, j :: 0 <= i < j < |items| ==>
      var (a, b) := (t.items[items[i]].manual, t.items[items[j]].manual);
      a == "" || b == "" || a == b
  }

  ghost predicate PathsAgree(t: Identity, items: seq<nat>) {
    forall i, j :: 0 <= i < j < |items| ==>
      var (a, b) := (LivePaths(t, items[i]), LivePaths(t, items[j]));
      a == {} || b == {} || a * b != {}
  }

  ghost predicate BothLive(t: Identity, items: seq<nat>, s: nat, i: nat, j: nat)
    requires i < |items| && j < |items|
  {
    s in LiveSources(t, items[i]) && s in LiveSources(t, items[j])
  }

  ghost predicate Shared(t: Identity, items: seq<nat>, s: nat) {
    exists i: nat, j: nat :: i < j < |items| && BothLive(t, items, s, i, j)
  }

  /** The live episode references of a show on one source. */
  function EpisodeRefs(t: Identity, show: nat, source: nat): set<Ref> {
    set r | r in t.refs && r.available && r.source == source && r.item in t.items && t.items[r.item].kind == Episode
      && t.items[r.item].parent.Some? && t.items[r.item].parent.value in t.items
      && t.items[t.items[r.item].parent.value].parent == Some(show)
  }

  function PathsOf(refs: set<Ref>): set<string> {
    set r, p | r in refs && p in r.paths :: p
  }

  predicate FullyMapped(refs: set<Ref>) {
    refs != {} && forall r :: r in refs ==> r.paths != {}
  }

  /** Source `s` knows show `a` only, and maps all these files to it. */
  predicate AnchorsAt(t: Identity, a: nat, b: nat, s: nat, paths: set<string>) {
    EpisodeRefs(t, b, s) == {} && FullyMapped(EpisodeRefs(t, a, s)) && paths <= PathsOf(EpisodeRefs(t, a, s))
  }

  /** Another source maps all files of both shows to exactly one of them. */
  predicate FileAnchor(t: Identity, a: nat, b: nat, source: nat) {
    var (ours, theirs) := (EpisodeRefs(t, a, source), EpisodeRefs(t, b, source));
    var paths := PathsOf(ours) + PathsOf(theirs);
    FullyMapped(ours) && FullyMapped(theirs)
    && exists s :: s in t.sources && s != source && (AnchorsAt(t, a, b, s, paths) || AnchorsAt(t, b, a, s, paths))
  }

  /** A server may split one show in two when the files prove it. */
  predicate SplitShow(t: Identity, items: seq<nat>, physical: bool, source: nat) {
    physical && |items| == 2 && items[0] in t.items && t.items[items[0]].kind == Show
    && FileAnchor(t, items[0], items[1], source)
  }

  ghost predicate Safe(t: Identity, items: seq<nat>, physical: bool)
    requires Known(t, items)
  {
    && ManualsAgree(t, items)
    && (items != [] && t.items[items[0]].kind in {Movie, Track} ==> PathsAgree(t, items))
    && (exists i :: 0 <= i < |items| && AllSources(t, items[i]) != {})
    && (forall s: nat :: Shared(t, items, s) ==> SplitShow(t, items, physical, s))
  }

  /** Source 1 has a show in two halves, file by file; source 2 has both files under the first half. */
  const HALVES := Identity(
    map[1 := Plain(Show, "", None), 2 := Plain(Show, "", None), 3 := Plain(Season, "", Some(1)), 4 := Plain(Season, "", Some(2)),
        5 := Plain(Episode, "", Some(3)), 6 := Plain(Episode, "", Some(4))],
    {Ref(1, 1, 1, true, {}), Ref(2, 2, 1, true, {}), Ref(3, 5, 1, true, {"x"}), Ref(4, 6, 1, true, {"y"}),
     Ref(5, 5, 2, true, {"x", "y"})},
    {}, map[1 := Plex, 2 := Jellyfin])

  lemma HalvesAreAnchored()
    ensures SplitShow(HALVES, [1, 2], true, 1)
  {
    var (ours, theirs, anchor) := ({Ref(3, 5, 1, true, {"x"})}, {Ref(4, 6, 1, true, {"y"})}, {Ref(5, 5, 2, true, {"x", "y"})});
    assert EpisodeRefs(HALVES, 1, 1) == ours && EpisodeRefs(HALVES, 2, 1) == theirs;
    assert EpisodeRefs(HALVES, 2, 2) == {} && EpisodeRefs(HALVES, 1, 2) == anchor;
    forall p | p in PathsOf(ours) + PathsOf(theirs)
      ensures p in PathsOf(anchor)
    {
      assert Ref(5, 5, 2, true, {"x", "y"}) in anchor && p in {"x", "y"};
    }
    assert 2 in HALVES.sources && AnchorsAt(HALVES, 1, 2, 2, PathsOf(ours) + PathsOf(theirs));
  }

  lemma SharedByTwo(t: Identity, a: nat, b: nat, s: nat)
    ensures Shared(t, [a, b], s) <==> s in LiveSources(t, a) && s in LiveSources(t, b)
  {
    assert BothLive(t, [a, b], s, 0, 1) <==> s in LiveSources(t, a) && s in LiveSources(t, b);
    if Shared(t, [a, b], s) {
      var i: nat, j: nat :| i < j < |[a, b]| && BothLive(t, [a, b], s, i, j);
      assert i == 0 && j == 1;
    }
  }

  ghost predicate TwoLiveShows(t: Identity, a: nat, b: nat, s: nat) {
    && a in t.items && b in t.items && t.items[a].kind == Show && t.items[a].manual == "" && AllSources(t, a) != {}
    && LiveSources(t, a) == {s} == LiveSources(t, b)
  }

  lemma HalvesAreLive()
    ensures TwoLiveShows(HALVES, 1, 2, 1)
  {
    assert Ref(1, 1, 1, true, {}) in HALVES.refs && Ref(2, 2, 1, true, {}) in HALVES.refs;
    assert 1 in AllSources(HALVES, 1);
  }

  /** Safe and not safe, from what two shows of one kind share. */
  lemma SafeByFilesOnly(t: Identity, a: nat, b: nat, s: nat)
    requires TwoLiveShows(t, a, b, s) && SplitShow(t, [a, b], true, s)
    ensures Known(t, [a, b]) && Safe(t, [a, b], true) && !Safe(t, [a, b], false)
  {
    var items := [a, b];
    assert AllSources(t, items[0]) != {};
    SharedByTwo(t, a, b, s);
    forall x: nat | Shared(t, items, x)
      ensures SplitShow(t, items, true, x)
    {
      SharedByTwo(t, a, b, x);
    }
  }

  /** Two shows live on one source that are safe as a physical group, and not as a group by identifier. */
  lemma HalvesAreSafeByFilesOnly()
    ensures Known(HALVES, [1, 2]) && Safe(HALVES, [1, 2], true) && !Safe(HALVES, [1, 2], false)
  {
    HalvesAreAnchored();
    HalvesAreLive();
    SafeByFilesOnly(HALVES, 1, 2, 1);
  }

  /** How many items are live on the source. */
  method CountOwners(t: Identity, items: seq<nat>, s: nat) returns (count: nat)
    ensures count > 1 <==> Shared(t, items, s)
  {
    count := 0;
    ghost var first: nat := 0;
    for k := 0 to |items|
      invariant count == 0 ==> forall i :: 0 <= i < k ==> s !in LiveSources(t, items[i])
      invariant count > 0 ==> first < k && s in LiveSources(t, items[first])
      invariant count == 1 ==> forall i :: 0 <= i < k && i != first ==> s !in LiveSources(t, items[i])
      invariant count > 1 ==> Shared(t, items, s)
    {
      if s in LiveSources(t, items[k]) {
        count := count + 1;
        if count == 1 {
          first := k;
        } else {
          assert BothLive(t, items, s, first, k);
        }
      }
    }
  }

  method OwnedSources(t: Identity, items: seq<nat>) returns (sources: set<nat>)
    ensures sources != {} <==> exists i :: 0 <= i < |items| && AllSources(t, items[i]) != {}
    ensures forall i :: 0 <= i < |items| ==> LiveSources(t, items[i]) <= sources
  {
    sources := {};
    for k := 0 to |items|
      invariant sources != {} <==> exists i :: 0 <= i < k && AllSources(t, items[i]) != {}
      invariant forall i :: 0 <= i < k ==> LiveSources(t, items[i]) <= sources
    {
      assert LiveSources(t, items[k]) <= AllSources(t, items[k]);
      sources := sources + AllSources(t, items[k]);
    }
  }

  method SafeSources(t: Identity, items: seq<nat>, physical: bool) returns (safe: bool)
    requires Known(t, items)
    ensures safe <==> Safe(t, items, physical)
  {
    assert Grouping.Elements(items) <= t.items.Keys;
    var manuals := Grouping.AtMostOneManual(t, items);
    if !manuals {
      return false;
    }
    if items != [] && t.items[items[0]].kind in {Movie, Track} {
      var paths := Grouping.PathsOverlap(t, items);
      if !paths {
        return false;
      }
    }
    var sources := OwnedSources(t, items);
    if sources == {} {
      return false;
    }
    ghost var all := sources;
    while sources != {}
      invariant sources <= all
      invariant forall s: nat :: s in all - sources && Shared(t, items, s) ==> SplitShow(t, items, physical, s)
      decreases sources
    {
      var s: nat :| s in sources;
      var owners := CountOwners(t, items, s);
      if owners > 1 && !SplitShow(t, items, physical, s) {
        return false;
      }
      sources := sources - {s};
    }
    return true;
  }

  // ----- The winner -----

  predicate HasActivePlexRef(t: Identity, v: nat) {
    exists r :: r in t.refs && r.item == v && r.available && r.source in t.sources && t.sources[r.source] == Plex
  }

  /** Confirmed matches first, then items live on Plex, then items known to Plex, then the smallest id. */
  predicate Preferred(t: Identity, a: nat, b: nat)
    requires a in t.items && b in t.items
  {
    var (manualA, manualB) := (t.items[a].manual != "", t.items[b].manual != "");
    var (liveA, liveB) := (HasActivePlexRef(t, a), HasActivePlexRef(t, b));
    var (plexA, plexB) := (HasPlexRef(t, a), HasPlexRef(t, b));
    if manualA != manualB then manualA
    else if liveA != liveB then liveA
    else if plexA != plexB then plexA
    else a < b
  }

  /** What an item must have if another one has it and is no better in what counts before. */
  ghost predicate NoWorse(t: Identity, c: nat, x: nat) {
    && (Confirmed(t, x) ==> Confirmed(t, c))
    && ((Confirmed(t, c) ==> Confirmed(t, x)) ==>
          && (OnPlex(t, x, true) ==> OnPlex(t, c, true))
          && ((OnPlex(t, c, true) ==> OnPlex(t, x, true)) ==>
                && (OnPlex(t, x, false) ==> OnPlex(t, c, false))
                && ((OnPlex(t, c, false) ==> OnPlex(t, x, false)) ==> c <= x)))
  }

  /** Confirmed, else live on Plex, else known to Plex, else of the smallest id: that is the one that is preferred. */
  lemma PreferredIsNoWorse(t: Identity, c: nat, x: nat)
    requires c in t.items && x in t.items
    ensures NoWorse(t, c, x) <==> c == x || Preferred(t, c, x)
  {
    forall v: nat
      ensures HasActivePlexRef(t, v) <==> OnPlex(t, v, true)
      ensures HasPlexRef(t, v) <==> OnPlex(t, v, false)
    {
    }
  }

  method ChooseWinner(t: Identity, items: seq<nat>) returns (c: nat)
    requires Known(t, items) && items != []
    ensures c in items && c in t.items
    ensures forall i :: 0 <= i < |items| && items[i] != c ==> Preferred(t, c, items[i])
    ensures forall x :: x in items ==> NoWorse(t, c, x)
  {
    c := items[0];
    for k := 1 to |items|
      invariant c in items[..k] && c in t.items
      invariant forall i :: 0 <= i < k && items[i] != c ==> Preferred(t, c, items[i])
    {
      if Preferred(t, items[k], c) {
        c := items[k];
      }
    }
    forall x | x in items
      ensures NoWorse(t, c, x)
    {
      PreferredIsNoWorse(t, c, x);
    }
  }

  // ----- Seasons and episodes -----

  function SeasonsOf(items: map<nat, Item>, show: nat): set<nat> {
    set x | x in items && items[x].kind == Season && items[x].parent == Some(show)
  }

  function EpisodesOf(items: map<nat, Item>, season: nat): set<nat> {
    set x | x in items && items[x].kind == Episode && items[x].parent == Some(season)
  }

  function Numbers(items: map<nat, Item>, show: nat): set<Option<nat>> {
    set x | x in SeasonsOf(items, show) :: items[x].season
  }

  ghost predicate DistinctNumbers(items: map<nat, Item>, show: nat) {
    forall a, b :: a in SeasonsOf(items, show) && b in SeasonsOf(items, show) && items[a].season == items[b].season ==> a == b
  }

  /** Children of the season that share an external id with the episode. */
  function SameIds(t: Identity, season: nat, e: nat): set<nat> {
    set i, j | i in t.identifiers && j in t.identifiers && i.provider == j.provider && i.externalId == j.externalId
      && j.item == e && i.item in t.items && t.items[i.item].parent == Some(season) :: i.item
  }

  /** Children with the same numbers whose file another server reports for the episode. */
  function SameFiles(t: Identity, season: nat, e: nat): set<nat>
    requires e in t.items
  {
    set w, l | w in t.refs && l in t.refs && w.available && l.available && l.item == e && l.source != w.source
      && w.paths * l.paths != {} && w.item in t.items && t.items[w.item].parent == Some(season)
      && t.items[e].season.Some? && t.items[w.item].season == t.items[e].season
      && t.items[e].episode.Some? && t.items[w.item].episode == t.items[e].episode :: w.item
  }

  function SameNumber(t: Identity, season: nat, e: nat): set<nat>
    requires e in t.items
  {
    set x | x in EpisodesOf(t.items, season) && t.items[x].episode == t.items[e].episode
  }

  /** By id, else by file, else by number when the only match or the episode itself has no stable id. */
  ghost function Candidates(t: Identity, season: nat, e: nat): set<nat>
    requires e in t.items
  {
    if SameIds(t, season, e) != {} then SameIds(t, season, e)
    else if SameFiles(t, season, e) != {} then SameFiles(t, season, e)
    else if t.items[e].episode.Some? && |SameNumber(t, season, e)| == 1
            && (!HasStableId(t, e) || forall c :: c in SameNumber(t, season, e) ==> !HasStableId(t, c))
      then SameNumber(t, season, e)
    else {}
  }

  method EpisodeCandidates(t: Identity, season: nat, e: nat) returns (candidates: set<nat>)
    requires e in t.items
    ensures candidates == Candidates(t, season, e)
    ensures forall c :: c in candidates ==> c in t.items && t.items[c].parent == Some(season)
  {
    candidates := SameIds(t, season, e);
    if candidates == {} {
      candidates := SameFiles(t, season, e);
    }
    if candidates == {} && t.items[e].episode.Some? {
      var numbered := SameNumber(t, season, e);
      if |numbered| == 1 {
        var c :| c in numbered;
        OnlyMember(numbered, c);
        if !HasStableId(t, c) || !HasStableId(t, e) {
          candidates := {c};
        }
      }
    }
  }

  lemma OnlyMember(s: set<nat>, c: nat)
    requires |s| == 1 && c in s
    ensures s == {c}
  {
    assert |s - {c}| == 0;
  }

  /** Same row, up to optional fields filled in. */
  ghost predicate SameRow(a: Item, b: Item) {
    a == b.(year := a.year, details := a.details)
  }

  ghost predicate KeptWhole(t: Identity, u: Identity, x: nat) {
    x in t.items ==> x in u.items && u.items[x] == t.items[x] && LiveSources(u, x) == LiveSources(t, x)
  }

  lemma LiveUnaffected(t: Identity, u: Identity, winner: nat, loser: nat, x: nat)
    requires u.refs == MergedRefs(t.refs, winner, loser) && x != winner && x != loser
    ensures LiveSources(u, x) == LiveSources(t, x)
  {
    forall s | s in LiveSources(t, x)
      ensures s in LiveSources(u, x)
    {
      var r :| r in t.refs && r.item == x && r.available && r.source == s;
      assert r.(item := Moved(r.item, winner, loser)) == r;
    }
  }

  /** Nothing stands below an episode, so folding one moves no item. */
  lemma EpisodeHasNoChildren(items: map<nat, Item>, e: nat, x: nat)
    requires Leveled(items) && e in items && items[e].kind == Episode && x in items
    ensures items[x].parent != Some(e)
  {
    assert Placed(items, x);
  }

  lemma ChildOfSeasonIsEpisode(items: map<nat, Item>, season: nat, x: nat)
    requires Leveled(items) && season in items && items[season].kind == Season && x in items && items[x].parent == Some(season)
    ensures items[x].kind == Episode
  {
    assert Placed(items, x);
  }

  // ----- One episode -----

  /** The episode may be folded into `c`: its only candidate in the season, and safe. */
  ghost predicate Twin(t: Identity, season: nat, e: nat, c: nat) {
    c in t.items && e in t.items && Candidates(t, season, e) == {c} && Safe(t, [c, e], false)
  }

  /** Folded into its twin, or handed to the season if it has none. */
  ghost predicate EpisodeStep(t: Identity, season: nat, e: nat, step: Step) {
    match step
    case Into(winner, loser) => loser == e && Twin(t, season, e, winner)
    case Adopt(child, parent) => child == e && parent == season && forall c: nat :: !Twin(t, season, e, c)
  }

  // ----- What twins have in common -----

  ghost predicate Child(t: Identity, season: nat, x: nat) {
    x in t.items && t.items[x].parent == Some(season)
  }

  /** Equal season and episode numbers, and one file that two different sources have live. */
  ghost predicate ShareFile(t: Identity, x: nat, e: nat) {
    && x in t.items && e in t.items
    && t.items[x].season.Some? && t.items[x].season == t.items[e].season
    && t.items[x].episode.Some? && t.items[x].episode == t.items[e].episode
    && exists r, l, p :: r in t.refs && l in t.refs && r.available && l.available && r.item == x && l.item == e
         && r.source != l.source && p in r.paths && p in l.paths
  }

  ghost predicate SharesNumber(t: Identity, season: nat, x: nat, e: nat) {
    && e in t.items && t.items[e].episode.Some?
    && Child(t, season, x) && t.items[x].kind == Episode && t.items[x].episode == t.items[e].episode
  }

  /**
   Of the children of the season, `c` alone shares an id with the episode; or none does and `c` alone
   shares a file; or none does either, `c` alone has its number, and one of the two has no stable id.
   */
  ghost predicate OnlyMatch(t: Identity, season: nat, e: nat, c: nat) {
    && e in t.items && Child(t, season, c)
    && if exists x :: Child(t, season, x) && ShareId(t.identifiers, x, e) then
         ShareId(t.identifiers, c, e) && forall x :: Child(t, season, x) && ShareId(t.identifiers, x, e) ==> x == c
       else if exists x :: Child(t, season, x) && ShareFile(t, x, e) then
         ShareFile(t, c, e) && forall x :: Child(t, season, x) && ShareFile(t, x, e) ==> x == c
       else
         && SharesNumber(t, season, c, e) && (forall x :: SharesNumber(t, season, x, e) ==> x == c)
         && (!HasStableId(t, c) || !HasStableId(t, e))
  }

  lemma SameIdsShareId(t: Identity, season: nat, e: nat, x: nat)
    ensures x in SameIds(t, season, e) <==> Child(t, season, x) && ShareId(t.identifiers, x, e)
  {
  }

  lemma SameFilesShareFile(t: Identity, season: nat, e: nat, x: nat)
    requires e in t.items
    ensures x in SameFiles(t, season, e) <==> Child(t, season, x) && ShareFile(t, x, e)
  {
    if Child(t, season, x) && ShareFile(t, x, e) {
      var r, l, p :| r in t.refs && l in t.refs && r.available && l.available && r.item == x && l.item == e
        && r.source != l.source && p in r.paths && p in l.paths;
      assert p in r.paths * l.paths;
    }
    if x in SameFiles(t, season, e) {
      var r, l :| r in t.refs && l in t.refs && r.available && l.available && l.item == e && l.source != r.source
        && r.paths * l.paths != {} && r.item == x;
      var p :| p in r.paths * l.paths;
    }
  }

  lemma OneElement(s: set<nat>, c: nat)
    ensures s == {c} <==> c in s && forall x :: x in s ==> x == c
  {
  }

  lemma OnlyCandidateIff(t: Identity, season: nat, e: nat, c: nat)
    requires e in t.items
    ensures Candidates(t, season, e) == {c} <==> OnlyMatch(t, season, e, c)
  {
    forall x: nat
      ensures x in SameIds(t, season, e) <==> Child(t, season, x) && ShareId(t.identifiers, x, e)
      ensures x in SameFiles(t, season, e) <==> Child(t, season, x) && ShareFile(t, x, e)
      ensures t.items[e].episode.Some? ==> (x in SameNumber(t, season, e) <==> SharesNumber(t, season, x, e))
    {
      SameIdsShareId(t, season, e, x);
      SameFilesShareFile(t, season, e, x);
    }
    if SameIds(t, season, e) != {} {
      OneElement(SameIds(t, season, e), c);
    } else if SameFiles(t, season, e) != {} {
      OneElement(SameFiles(t, season, e), c);
    } else {
      OnlyNumbered(t, season, e, c);
    }
  }

  lemma OnlyNumbered(t: Identity, season: nat, e: nat, c: nat)
    requires e in t.items && SameIds(t, season, e) == {} && SameFiles(t, season, e) == {}
    ensures Candidates(t, season, e) == {c} <==>
      && SharesNumber(t, season, c, e) && (forall x: nat :: SharesNumber(t, season, x, e) ==> x == c)
      && (!HasStableId(t, c) || !HasStableId(t, e))
  {
    var numbered := SameNumber(t, season, e);
    OneElement(Candidates(t, season, e), c);
    OneElement(numbered, c);
    if t.items[e].episode.Some? {
      assert forall x: nat :: x in numbered <==> SharesNumber(t, season, x, e);
      if |numbered| == 1 {
        var only :| only in numbered;
        OnlyMember(numbered, only);
        assert (forall x :: x in numbered ==> !HasStableId(t, x)) <==> !HasStableId(t, only);
      } else {
        assert |{c}| == 1;
      }
    }
  }

  /** Folded into its only match when they are safe together, and handed over otherwise. */
  ghost predicate MatchedStep(t: Identity, season: nat, e: nat, step: Step) {
    match step
    case Into(winner, loser) => loser == e && OnlyMatch(t, season, e, winner) && Safe(t, [winner, e], false)
    case Adopt(child, parent) =>
      child == e && parent == season && forall c: nat :: OnlyMatch(t, season, e, c) ==> !Safe(t, [c, e], false)
  }

  lemma EpisodeStepIsMatched(t: Identity, season: nat, e: nat, step: Step)
    requires e in t.items
    ensures EpisodeStep(t, season, e, step) <==> MatchedStep(t, season, e, step)
  {
    forall c: nat
      ensures Twin(t, season, e, c) <==> OnlyMatch(t, season, e, c) && Safe(t, [c, e], false)
    {
      OnlyCandidateIff(t, season, e, c);
    }
  }

  lemma TwinIsApart(t: Identity, season: nat, e: nat, c: nat)
    requires Leveled(t.items) && season in t.items && t.items[season].kind == Season && Twin(t, season, e, c)
    ensures c in EpisodesOf(t.items, season) && LiveSources(t, c) !! LiveSources(t, e)
  {
    assert c in Candidates(t, season, e);
    ChildOfSeasonIsEpisode(t.items, season, c);
    forall s: nat
      ensures s !in LiveSources(t, c) || s !in LiveSources(t, e)
    {
      assert BothLive(t, [c, e], s, 0, 1) ==> Shared(t, [c, e], s);
    }
  }

  method MergeEpisode(db: MediaDatabase, w: nat, e: nat) returns (ghost step: Step, merged: nat)
    requires db.Valid() && w in db.catalog.items && e in db.catalog.items && db.catalog.items[w].kind == Season
    requires db.catalog.items[e].kind == Episode && db.catalog.items[e].parent != Some(w)
    modifies db
    ensures db.Valid() && db.origin == old(db.origin) && db.allowed == old(db.allowed)
    ensures db.steps == old(db.steps) + [step] && Makes(old(db.Now()), step, db.Now())
    ensures EpisodeStep(old(db.catalog), w, e, step) && merged == if step.Into? then 1 else 0
    ensures MatchedStep(old(db.catalog), w, e, step)
  {
    EpisodeStepIsMatched(db.catalog, w, e, Adopt(e, w));
    var candidates := EpisodeCandidates(db.catalog, w, e);
    merged := 0;
    if |candidates| == 1 {
      var only :| only in candidates;
      OnlyMember(candidates, only);
      var safe := SafeSources(db.catalog, [only, e], false);
      if safe {
        step := Into(only, e);
        EpisodeStepIsMatched(db.catalog, w, e, step);
        TwinIsApart(db.catalog, w, e, only);
        db.MergeItem(only, e);
        merged := 1;
        return;
      }
    }
    step := Adopt(e, w);
    db.AdoptChild(e, w);
  }

  /** At its turn within the steps, the episode was folded into its twin in the season, or handed over. */
  ghost predicate Decided(before: Db, steps: seq<Step>, season: nat, e: nat) {
    exists i: nat, at: Db :: DecidedAt(before, steps, season, e, i, at)
  }

  ghost predicate DecidedAt(before: Db, steps: seq<Step>, season: nat, e: nat, i: nat, at: Db) {
    i < |steps| && Reaches(before, steps[..i], at) && EpisodeStep(at.catalog, season, e, steps[i])
    && MatchedStep(at.catalog, season, e, steps[i]) && Rep(steps, e) == MovedBy(steps[i], e)
  }

  lemma DecidedNow(before: Db, steps: seq<Step>, now: Db, season: nat, e: nat, step: Step)
    requires Reaches(before, steps, now) && EpisodeStep(now.catalog, season, e, step) && Rep(steps, e) == e
    requires e in now.catalog.items
    ensures Decided(before, steps + [step], season, e)
  {
    EpisodeStepIsMatched(now.catalog, season, e, step);
    RepMore(steps, step, e);
    assert (steps + [step])[..|steps|] == steps;
    assert DecidedAt(before, steps + [step], season, e, |steps|, now);
  }

  lemma DecidedLasts(before: Db, steps: seq<Step>, season: nat, e: nat, more: seq<Step>)
    requires Decided(before, steps, season, e) && Rep(more, Rep(steps, e)) == Rep(steps, e)
    ensures Decided(before, steps + more, season, e)
  {
    var i: nat, at: Db :| DecidedAt(before, steps, season, e, i, at);
    RepTogether(steps, more, e);
    assert (steps + more)[..i] == steps[..i];
    assert DecidedAt(before, steps + more, season, e, i, at);
  }

  lemma DecidedSince(before: Db, first: seq<Step>, middle: Db, more: seq<Step>, season: nat, e: nat)
    requires Reaches(before, first, middle) && Rep(first, e) == e && Decided(middle, more, season, e)
    ensures Decided(before, first + more, season, e)
  {
    var i: nat, at: Db :| DecidedAt(middle, more, season, e, i, at);
    RepTogether(first, more, e);
    ReachesTogether(before, first, middle, more[..i], at);
    assert (first + more)[..|first| + i] == first + more[..i];
    assert DecidedAt(before, first + more, season, e, |first| + i, at);
  }

  lemma OneStepRep(s: Step, x: nat)
    ensures Rep([s], x) == MovedBy(s, x)
  {
    RepMore([], s, x);
    assert [] + [s] == [s];
  }

  // ----- One season into another -----

  /** A former episode of the loser is now below the winner, itself or by the episode it was folded into. */
  ghost predicate Rehomed(t: Identity, u: Identity, w: nat, e: nat, steps: seq<Step>) {
    Rep(steps, e) in EpisodesOf(u.items, w) && (e in u.items <==> Rep(steps, e) == e)
    && (e in u.items ==> e in t.items && SameRow(u.items[e], t.items[e].(parent := Some(w))))
  }

  ghost predicate Bystander(t: Identity, u: Identity, l: nat, x: nat) {
    x in t.items && x !in EpisodesOf(t.items, l) ==>
      && x in u.items && SameRow(u.items[x], t.items[x])
      && (t.items[x].kind != Episode ==> KeptWhole(t, u, x))
  }

  /** Season `l` has handed every episode in `done` to season `w`, and nothing else has changed. */
  ghost predicate SeasonEmptied(t: Identity, u: Identity, w: nat, l: nat, done: set<nat>, steps: seq<Step>) {
    && u.items.Keys <= t.items.Keys && done <= EpisodesOf(t.items, l)
    && (forall x: nat :: Bystander(t, u, l, x))
    && (forall e: nat {:trigger Rehomed(t, u, w, e, steps)} :: e in done ==> Rehomed(t, u, w, e, steps))
    && (forall e: nat :: e in EpisodesOf(t.items, l) && e !in done ==> e in u.items && u.items[e] == t.items[e])
  }

  lemma FoldedEpisode(t: Identity, u: Identity, v: Identity, w: nat, l: nat, done: set<nat>, steps: seq<Step>, c: nat, e: nat)
    requires SeasonEmptied(t, u, w, l, done, steps) && Leveled(u.items) && w != l && Rep(steps, e) == e
    requires e in EpisodesOf(t.items, l) && e !in done && c in EpisodesOf(u.items, w)
    requires v.items == MergedItems(u.items, c, e) && v.refs == MergedRefs(u.refs, c, e)
    ensures SeasonEmptied(t, v, w, l, done + {e}, steps + [Into(c, e)])
  {
    var more := steps + [Into(c, e)];
    forall x: nat
      ensures Bystander(t, v, l, x)
    {
      assert Bystander(t, u, l, x);
      if x in u.items && x != e {
        EpisodeHasNoChildren(u.items, e, x);
        assert v.items[x] == MergedItem(u.items, c, e, x);
        if x != c {
          LiveUnaffected(u, v, c, e, x);
        }
      }
    }
    forall d: nat | d in done + {e}
      ensures Rehomed(t, v, w, d, more)
    {
      RepMore(steps, Into(c, e), d);
      assert v.items[c] == MergedItem(u.items, c, e, c);
      EpisodeHasNoChildren(u.items, e, c);
      if d != e {
        assert Rehomed(t, u, w, d, steps);
        EpisodeHasNoChildren(u.items, e, Rep(steps, d));
        assert v.items[Rep(steps, d)] == MergedItem(u.items, c, e, Rep(steps, d));
      }
    }
    forall d: nat | d in EpisodesOf(t.items, l) && d !in done + {e}
      ensures d in v.items && v.items[d] == t.items[d]
    {
      EpisodeHasNoChildren(u.items, e, d);
      assert v.items[d] == MergedItem(u.items, c, e, d);
    }
  }

  lemma HandedEpisode(t: Identity, u: Identity, v: Identity, w: nat, l: nat, done: set<nat>, steps: seq<Step>, e: nat)
    requires SeasonEmptied(t, u, w, l, done, steps) && w != l && Rep(steps, e) == e
    requires e in EpisodesOf(t.items, l) && e !in done
    requires v == u.(items := Adopted(u.items, e, w))
    ensures SeasonEmptied(t, v, w, l, done + {e}, steps + [Adopt(e, w)])
  {
    forall x: nat
      ensures Bystander(t, v, l, x)
    {
      assert Bystander(t, u, l, x);
      HandedOnKeepsBystander(t, u, w, l, e, x);
    }
    forall d: nat | d in done + {e}
      ensures Rehomed(t, v, w, d, steps + [Adopt(e, w)])
    {
      assert d != e ==> Rehomed(t, u, w, d, steps);
      HandedOnIsRehomed(t, u, w, e, steps, d);
    }
  }

  lemma HandedOnKeepsBystander(t: Identity, u: Identity, w: nat, l: nat, e: nat, x: nat)
    requires Bystander(t, u, l, x) && e in EpisodesOf(t.items, l) && e in u.items
    ensures Bystander(t, u.(items := Adopted(u.items, e, w)), l, x)
  {
    assert LiveSources(u.(items := Adopted(u.items, e, w)), x) == LiveSources(u, x);
  }

  lemma HandedOnIsRehomed(t: Identity, u: Identity, w: nat, e: nat, steps: seq<Step>, d: nat)
    requires e in t.items && e in u.items && u.items[e] == t.items[e] && u.items[e].kind == Episode && Rep(steps, e) == e
    requires u.items[e].parent != Some(w) && (d != e ==> Rehomed(t, u, w, d, steps))
    ensures Rehomed(t, u.(items := Adopted(u.items, e, w)), w, d, steps + [Adopt(e, w)])
  {
    RepMore(steps, Adopt(e, w), d);
  }

  ghost predicate AllDecided(before: Db, steps: seq<Step>, season: nat, done: set<nat>) {
    forall e :: e in done ==> Decided(before, steps, season, e)
  }

  /** The episodes in `done` have gone from season `l` to season `w`, each as it was decided at its turn. */
  ghost predicate SeasonMerged(before: Db, steps: seq<Step>, after: Db, w: nat, l: nat, done: set<nat>) {
    && Reaches(before, steps, after) && SeasonEmptied(before.catalog, after.catalog, w, l, done, steps)
    && AllDecided(before, steps, w, done)
  }

  /** One more episode: the state and the decisions after it. */
  lemma EpisodeMoves(start: Db, steps: seq<Step>, u: Db, v: Db, w: nat, l: nat, done: set<nat>, e: nat, step: Step)
    requires SeasonMerged(start, steps, u, w, l, done) && Makes(u, step, v) && EpisodeStep(u.catalog, w, e, step)
    requires Leveled(u.catalog.items) && w != l && w in u.catalog.items && u.catalog.items[w].kind == Season
    requires e in EpisodesOf(start.catalog.items, l) && e !in done
    ensures SeasonMerged(start, steps + [step], v, w, l, done + {e})
  {
    SurvivorsStandForAll(start, steps, u, e);
    ReachesMore(start, steps, u, step, v);
    forall d | d in done + {e}
      ensures Decided(start, steps + [step], w, d)
    {
      if d == e {
        DecidedNow(start, steps, u, w, e, step);
      } else {
        assert Rehomed(start.catalog, u.catalog, w, d, steps);
        OneStepRep(step, Rep(steps, d));
        DecidedLasts(start, steps, w, d, [step]);
      }
    }
    match step
    case Into(c, _) =>
      TwinIsApart(u.catalog, w, e, c);
      FoldedEpisode(start.catalog, u.catalog, v.catalog, w, l, done, steps, c, e);
    case Adopt(_, _) => HandedEpisode(start.catalog, u.catalog, v.catalog, w, l, done, steps, e);
  }

  /** Every episode of the loser is folded into its twin, or handed to the winner. */
  method MergeSeason(db: MediaDatabase, w: nat, l: nat) returns (ghost more: seq<Step>, merged: nat)
    requires db.Valid() && w != l && w in db.catalog.items && l in db.catalog.items
    requires db.catalog.items[w].kind == Season && db.catalog.items[l].kind == Season
    modifies db
    ensures db.Valid() && db.origin == old(db.origin) && db.allowed == old(db.allowed)
    ensures db.steps == old(db.steps) + more
    ensures SeasonMerged(old(db.Now()), more, db.Now(), w, l, EpisodesOf(old(db.catalog.items), l))
  {
    ghost var start := db.Now();
    merged := 0;
    more := [];
    ReachesNothing(start);
    var pending := EpisodesOf(db.catalog.items, l);
    ghost var done: set<nat> := {};
    while pending != {}
      invariant db.Valid() && db.origin == old(db.origin) && db.allowed == old(db.allowed)
      invariant db.steps == old(db.steps) + more && SeasonMerged(start, more, db.Now(), w, l, done)
      invariant done !! pending && done + pending == EpisodesOf(start.catalog.items, l)
      decreases pending
    {
      var e :| e in pending;
      ghost var before := db.Now();
      assert Bystander(start.catalog, before.catalog, l, w);
      ghost var step;
      var count;
      step, count := MergeEpisode(db, w, e);
      EpisodeMoves(start, more, before, db.Now(), w, l, done, e, step);
      more := more + [step];
      merged := merged + count;
      pending := pending - {e};
      done := done + {e};
    }
    assert done == EpisodesOf(start.catalog.items, l);
  }

  // ----- One show into another -----

  ghost predicate Outsider(t: Identity, u: Identity, x: nat) {
    x in t.items && t.items[x].kind != Season && t.items[x].kind != Episode ==> KeptWhole(t, u, x)
  }

  ghost predicate Stays(t: Identity, u: Identity, s: nat, x: nat) {
    x in t.items && x != s && x !in EpisodesOf(t.items, s) ==> x in u.items && SameRow(u.items[x], t.items[x])
  }

  ghost predicate NowBelow(u: Identity, c: nat, e: nat, steps: seq<Step>) {
    Rep(steps, e) in EpisodesOf(u.items, c) && (e in u.items <==> Rep(steps, e) == e)
  }

  /** Season `s` is gone; its episodes are below season `c`; everything else is where it was. */
  ghost predicate SeasonFolded(t: Identity, u: Identity, c: nat, s: nat, steps: seq<Step>) {
    && u.items.Keys <= t.items.Keys && s !in u.items && Rep(steps, s) == c
    && (forall x: nat :: Outsider(t, u, x)) && (forall x: nat :: Stays(t, u, s, x))
    && (forall e: nat :: e in EpisodesOf(t.items, s) ==> NowBelow(u, c, e, steps))
  }

  lemma EmptiedSeasonFolds(t: Identity, m: Identity, u: Identity, c: nat, s: nat, steps: seq<Step>)
    requires SeasonEmptied(t, m, c, s, EpisodesOf(t.items, s), steps) && Leveled(m.items) && c != s && Rep(steps, s) == s
    requires c in m.items && s in m.items && m.items[c].kind == Season && m.items[s].kind == Season
    requires u.items == MergedItems(m.items, c, s) && u.refs == MergedRefs(m.refs, c, s)
    ensures SeasonFolded(t, u, c, s, steps + [Into(c, s)])
  {
    RepMore(steps, Into(c, s), s);
    forall x: nat
      ensures Outsider(t, u, x) && Stays(t, u, s, x)
    {
      assert Bystander(t, m, s, x);
      if x in m.items && x != s {
        assert u.items[x] == MergedItem(m.items, c, s, x);
        NoChildLeft(t, m, c, s, steps, x);
        if x != c {
          LiveUnaffected(m, u, c, s, x);
        }
      }
    }
    forall e: nat | e in EpisodesOf(t.items, s)
      ensures NowBelow(u, c, e, steps + [Into(c, s)])
    {
      RepMore(steps, Into(c, s), e);
      assert Rehomed(t, m, c, e, steps);
      assert u.items[Rep(steps, e)] == MergedItem(m.items, c, s, Rep(steps, e));
    }
  }

  /** An emptied season has no children of any kind. */
  lemma NoChildLeft(t: Identity, m: Identity, c: nat, s: nat, steps: seq<Step>, x: nat)
    requires SeasonEmptied(t, m, c, s, EpisodesOf(t.items, s), steps) && Leveled(m.items) && c != s
    requires s in m.items && m.items[s].kind == Season && x in m.items
    ensures m.items[x].parent != Some(s)
  {
    if x in EpisodesOf(t.items, s) {
      assert Rehomed(t, m, c, x, steps);
    } else {
      assert Bystander(t, m, s, x);
      if m.items[x].parent == Some(s) {
        ChildOfSeasonIsEpisode(m.items, s, x);
      }
    }
  }

  /** The season's own fold decides nothing about its episodes. */
  lemma SeasonFoldKeepsDecisions(start: Db, steps: seq<Step>, m: Identity, c: nat, s: nat)
    requires SeasonEmptied(start.catalog, m, c, s, EpisodesOf(start.catalog.items, s), steps)
    requires s in m.items && m.items[s].kind == Season
    requires AllDecided(start, steps, c, EpisodesOf(start.catalog.items, s))
    ensures AllDecided(start, steps + [Into(c, s)], c, EpisodesOf(start.catalog.items, s))
  {
    forall e | e in EpisodesOf(start.catalog.items, s)
      ensures Decided(start, steps + [Into(c, s)], c, e)
    {
      assert Rehomed(start.catalog, m, c, e, steps);
      OneStepRep(Into(c, s), Rep(steps, e));
      DecidedLasts(start, steps, c, e, [Into(c, s)]);
    }
  }

  /** Season `s` was folded into season `c`, and its episodes were decided one by one. */
  ghost predicate SeasonGone(before: Db, steps: seq<Step>, after: Db, c: nat, s: nat) {
    && Reaches(before, steps, after) && SeasonFolded(before.catalog, after.catalog, c, s, steps)
    && AllDecided(before, steps, c, EpisodesOf(before.catalog.items, s))
  }

  lemma EmptiedSeasonGoes(start: Db, steps: seq<Step>, m: Db, v: Db, c: nat, s: nat)
    requires SeasonMerged(start, steps, m, c, s, EpisodesOf(start.catalog.items, s))
    requires Leveled(m.catalog.items) && Makes(m, Into(c, s), v)
    requires c != s && c in start.catalog.items && s in start.catalog.items
    requires start.catalog.items[c].kind == Season && start.catalog.items[s].kind == Season
    ensures SeasonGone(start, steps + [Into(c, s)], v, c, s)
  {
    assert Bystander(start.catalog, m.catalog, s, c) && Bystander(start.catalog, m.catalog, s, s);
    SurvivorsStandForAll(start, steps, m, s);
    EmptiedSeasonFolds(start.catalog, m.catalog, v.catalog, c, s, steps);
    SeasonFoldKeepsDecisions(start, steps, m.catalog, c, s);
    ReachesMore(start, steps, m, Into(c, s), v);
  }

  method FoldSeason(db: MediaDatabase, c: nat, s: nat) returns (ghost more: seq<Step>, merged: nat)
    requires db.Valid() && c != s && c in db.catalog.items && s in db.catalog.items
    requires db.catalog.items[c].kind == Season && db.catalog.items[s].kind == Season
    modifies db
    ensures db.Valid() && db.origin == old(db.origin) && db.allowed == old(db.allowed)
    ensures db.steps == old(db.steps) + more && SeasonGone(old(db.Now()), more, db.Now(), c, s)
    ensures ClassApart(old(db.catalog), more, c) <==> LiveSources(old(db.catalog), c) !! LiveSources(old(db.catalog), s)
  {
    ghost var start := db.Now();
    more, merged := MergeSeason(db, c, s);
    ghost var emptied := db.Now();
    assert Bystander(start.catalog, emptied.catalog, s, c) && Bystander(start.catalog, emptied.catalog, s, s);
    db.MergeItem(c, s);
    merged := merged + 1;
    EmptiedSeasonGoes(start, more, emptied, db.Now(), c, s);
    more := more + [Into(c, s)];
    SeasonFoldApartIff(start, more, db.Now(), c, s);
  }

  /** Season `c` stands for itself and for `s`, and for nothing else that was there. */
  lemma ClassOfFoldedSeason(start: Db, steps: seq<Step>, after: Db, c: nat, s: nat, x: nat)
    requires SeasonGone(start, steps, after, c, s) && c != s && c in start.catalog.items && s in start.catalog.items
    requires start.catalog.items[c].kind == Season && start.catalog.items[s].kind == Season && x in start.catalog.items
    ensures Rep(steps, x) == c <==> x == c || x == s
  {
    SurvivorsStandForAll(start, steps, after, x);
    SurvivorsStandForAll(start, steps, after, c);
    assert Stays(start.catalog, after.catalog, s, x) && Stays(start.catalog, after.catalog, s, c);
    assert x in EpisodesOf(start.catalog.items, s) ==> NowBelow(after.catalog, c, x, steps);
  }

  /** Seasons are folded by number, whatever their sources: live copies stay apart exactly if no source has both live. */
  lemma SeasonFoldApartIff(start: Db, steps: seq<Step>, after: Db, c: nat, s: nat)
    requires SeasonGone(start, steps, after, c, s) && c != s && c in start.catalog.items && s in start.catalog.items
    requires start.catalog.items[c].kind == Season && start.catalog.items[s].kind == Season
    ensures ClassApart(start.catalog, steps, c) <==> LiveSources(start.catalog, c) !! LiveSources(start.catalog, s)
  {
    forall x | x in start.catalog.items
      ensures Rep(steps, x) == c <==> x == c || x == s
    {
      ClassOfFoldedSeason(start, steps, after, c, s, x);
    }
  }

  /** Season `s` of the loser is now, itself or folded, the winner's season of that number. */
  ghost predicate SeasonHoused(t: Identity, u: Identity, w: nat, s: nat, steps: seq<Step>) {
    s in t.items && Rep(steps, s) in SeasonsOf(u.items, w) && u.items[Rep(steps, s)].season == t.items[s].season
  }

  /** Episode `e` of the loser's season `s` is, itself or folded, below the season that stands for `s`. */
  ghost predicate Housed(u: Identity, s: nat, e: nat, steps: seq<Step>) {
    Rep(steps, e) in EpisodesOf(u.items, Rep(steps, s))
  }

  /** A season handed over keeps its episodes; those of a folded season were decided one by one. */
  ghost predicate Accounted(before: Db, steps: seq<Step>, s: nat, e: nat) {
    if Rep(steps, s) == s then Rep(steps, e) == e else Decided(before, steps, Rep(steps, s), e)
  }

  ghost predicate Untouched(t: Identity, u: Identity, s: nat) {
    s in t.items && s in u.items && SameRow(u.items[s], t.items[s]) && EpisodesOf(u.items, s) == EpisodesOf(t.items, s)
  }

  ghost function NumbersIn(items: map<nat, Item>, seasons: set<nat>): set<Option<nat>> {
    set s | s in seasons && s in items :: items[s].season
  }

  /** The seasons in `done` have moved from show `l` to show `w`; numbers stay distinct and none is lost. */
  ghost predicate ShowHalfway(start: Db, u: Identity, w: nat, l: nat, done: set<nat>, steps: seq<Step>) {
    var t := start.catalog;
    && SeasonsOf(u.items, l) == SeasonsOf(t.items, l) - done
    && DistinctNumbers(u.items, w) && Numbers(u.items, w) == Numbers(t.items, w) + NumbersIn(t.items, done)
    && (forall s: nat {:trigger Untouched(t, u, s)} :: s in SeasonsOf(t.items, l) && s !in done ==> Untouched(t, u, s))
    && (forall s: nat {:trigger SeasonHoused(t, u, w, s, steps)} :: s in done ==> SeasonHoused(t, u, w, s, steps))
    && (forall s: nat, e: nat {:trigger Housed(u, s, e, steps)} ::
          s in done && e in EpisodesOf(t.items, s) ==> Housed(u, s, e, steps) && Accounted(start, steps, s, e))
  }

  lemma FoldedSeasonsOf(u: Identity, v: Identity, c: nat, s: nat, steps: seq<Step>, show: nat)
    requires SeasonFolded(u, v, c, s, steps) && s in u.items && u.items[s].kind == Season
    ensures SeasonsOf(v.items, show) == SeasonsOf(u.items, show) - {s}
    ensures forall x :: x in SeasonsOf(v.items, show) ==> v.items[x].season == u.items[x].season
  {
    forall x: nat
      ensures x in SeasonsOf(v.items, show) <==> x in SeasonsOf(u.items, show) - {s}
      ensures x in SeasonsOf(v.items, show) ==> v.items[x].season == u.items[x].season
    {
      assert Stays(u, v, s, x);
      if x in EpisodesOf(u.items, s) && x in v.items {
        assert NowBelow(v, c, x, steps);
      }
    }
  }

  lemma FoldLeavesSeason(t: Identity, u: Identity, v: Identity, c: nat, s: nat, more: seq<Step>, other: nat)
    requires Untouched(t, u, other) && SeasonFolded(u, v, c, s, more) && other != s && other != c
    requires t.items[other].kind == Season && s in u.items && u.items[s].kind == Season
    ensures Untouched(t, v, other)
  {
    assert Stays(u, v, s, other);
    forall x: nat
      ensures x in EpisodesOf(v.items, other) <==> x in EpisodesOf(u.items, other)
    {
      assert Stays(u, v, s, x);
      if x in EpisodesOf(u.items, s) {
        assert NowBelow(v, c, x, more);
      }
    }
  }

  /** Later steps leave alone what they do not fold, and so what was settled. */
  lemma AccountedLasts(before: Db, steps: seq<Step>, more: seq<Step>, s: nat, e: nat)
    requires Accounted(before, steps, s, e)
    requires Rep(more, Rep(steps, s)) == Rep(steps, s) && Rep(more, Rep(steps, e)) == Rep(steps, e)
    ensures Accounted(before, steps + more, s, e)
    ensures Rep(steps + more, s) == Rep(steps, s) && Rep(steps + more, e) == Rep(steps, e)
  {
    RepTogether(steps, more, s);
    RepTogether(steps, more, e);
    if Rep(steps, s) != s {
      DecidedLasts(before, steps, Rep(steps, s), e, more);
    }
  }

  lemma FoldKeepsHoused(start: Db, steps: seq<Step>, u: Db, v: Db, w: nat, c: nat, s: nat, more: seq<Step>, other: nat, e: nat)
    requires Reaches(u, more, v) && SeasonFolded(u.catalog, v.catalog, c, s, more) && s !in SeasonsOf(u.catalog.items, w)
    requires s in u.catalog.items && u.catalog.items[s].kind == Season
    requires SeasonHoused(start.catalog, u.catalog, w, other, steps)
    requires Housed(u.catalog, other, e, steps) && Accounted(start, steps, other, e)
    ensures Housed(v.catalog, other, e, steps + more) && Accounted(start, steps + more, other, e)
  {
    var (x, y) := (Rep(steps, other), Rep(steps, e));
    assert Stays(u.catalog, v.catalog, s, x) && Stays(u.catalog, v.catalog, s, y);
    SurvivorsStandForAll(u, more, v, x);
    SurvivorsStandForAll(u, more, v, y);
    AccountedLasts(start, steps, more, other, e);
  }

  lemma FoldKeepsSeasonHoused(start: Db, steps: seq<Step>, u: Db, v: Db, w: nat, c: nat, s: nat, more: seq<Step>, other: nat)
    requires Reaches(u, more, v) && SeasonFolded(u.catalog, v.catalog, c, s, more) && s !in SeasonsOf(u.catalog.items, w)
    requires s in u.catalog.items && u.catalog.items[s].kind == Season
    requires SeasonHoused(start.catalog, u.catalog, w, other, steps)
    ensures SeasonHoused(start.catalog, v.catalog, w, other, steps + more)
  {
    assert Stays(u.catalog, v.catalog, s, Rep(steps, other));
    SurvivorsStandForAll(u, more, v, Rep(steps, other));
    RepTogether(steps, more, other);
  }

  lemma FoldHouses(start: Db, steps: seq<Step>, u: Db, v: Db, w: nat, c: nat, s: nat, more: seq<Step>)
    requires Reaches(start, steps, u) && Untouched(start.catalog, u.catalog, s)
    requires SeasonFolded(u.catalog, v.catalog, c, s, more)
    requires c in SeasonsOf(u.catalog.items, w) && c != s && u.catalog.items[s].kind == Season
    requires u.catalog.items[c].season == start.catalog.items[s].season
    ensures SeasonHoused(start.catalog, v.catalog, w, s, steps + more) && Rep(steps + more, s) == c
  {
    SurvivorsStandForAll(start, steps, u, s);
    RepTogether(steps, more, s);
    FoldedSeasonsOf(u.catalog, v.catalog, c, s, more, w);
  }

  lemma FoldAccounts(start: Db, steps: seq<Step>, u: Db, v: Db, c: nat, s: nat, more: seq<Step>, e: nat)
    requires Reaches(start, steps, u) && Untouched(start.catalog, u.catalog, s) && e in EpisodesOf(start.catalog.items, s)
    requires SeasonFolded(u.catalog, v.catalog, c, s, more) && c != s && Rep(steps + more, s) == c
    requires AllDecided(u, more, c, EpisodesOf(u.catalog.items, s))
    ensures Housed(v.catalog, s, e, steps + more) && Accounted(start, steps + more, s, e)
  {
    assert e in EpisodesOf(u.catalog.items, s);
    SurvivorsStandForAll(start, steps, u, e);
    RepTogether(steps, more, e);
    assert NowBelow(v.catalog, c, e, more);
    DecidedSince(start, steps, u, more, c, e);
  }

  lemma FoldKeepsNumbers(t: Identity, u: Identity, v: Identity, w: nat, l: nat, done: set<nat>, c: nat, s: nat, more: seq<Step>)
    requires SeasonFolded(u, v, c, s, more) && w != l && DistinctNumbers(u.items, w)
    requires Numbers(u.items, w) == Numbers(t.items, w) + NumbersIn(t.items, done)
    requires s in SeasonsOf(u.items, l) && s in t.items && c in SeasonsOf(u.items, w) && u.items[c].season == t.items[s].season
    ensures DistinctNumbers(v.items, w) && Numbers(v.items, w) == Numbers(t.items, w) + NumbersIn(t.items, done + {s})
  {
    FoldedSeasonsOf(u, v, c, s, more, w);
    assert SeasonsOf(v.items, w) == SeasonsOf(u.items, w);
    assert Numbers(v.items, w) == Numbers(u.items, w);
    assert NumbersIn(t.items, done + {s}) == NumbersIn(t.items, done) + {t.items[s].season};
    assert t.items[s].season in Numbers(u.items, w);
  }

  lemma FoldMovesOn(start: Db, steps: seq<Step>, u: Db, v: Db, w: nat, l: nat, done: set<nat>, c: nat, s: nat, more: seq<Step>)
    requires Reaches(start, steps, u) && Reaches(u, more, v) && w != l
    requires ShowHalfway(start, u.catalog, w, l, done, steps) && SeasonFolded(u.catalog, v.catalog, c, s, more)
    requires AllDecided(u, more, c, EpisodesOf(u.catalog.items, s))
    requires done <= SeasonsOf(start.catalog.items, l) && s in SeasonsOf(start.catalog.items, l) && s !in done
    requires c in SeasonsOf(u.catalog.items, w) && u.catalog.items[c].season == start.catalog.items[s].season
    ensures ShowHalfway(start, v.catalog, w, l, done + {s}, steps + more)
  {
    var t := start.catalog;
    assert Untouched(t, u.catalog, s);
    FoldedSeasonsOf(u.catalog, v.catalog, c, s, more, l);
    FoldKeepsNumbers(t, u.catalog, v.catalog, w, l, done, c, s, more);
    FoldHouses(start, steps, u, v, w, c, s, more);
    forall other: nat | other in SeasonsOf(t.items, l) && other !in done + {s}
      ensures Untouched(t, v.catalog, other)
    {
      assert Untouched(t, u.catalog, other);
      FoldLeavesSeason(t, u.catalog, v.catalog, c, s, more, other);
    }
    forall other: nat | other in done
      ensures SeasonHoused(t, v.catalog, w, other, steps + more)
    {
      assert SeasonHoused(t, u.catalog, w, other, steps);
      FoldKeepsSeasonHoused(start, steps, u, v, w, c, s, more, other);
    }
    forall other: nat, e: nat | other in done + {s} && e in EpisodesOf(t.items, other)
      ensures Housed(v.catalog, other, e, steps + more) && Accounted(start, steps + more, other, e)
    {
      if other == s {
        FoldAccounts(start, steps, u, v, c, s, more, e);
      } else {
        assert SeasonHoused(t, u.catalog, w, other, steps) && Housed(u.catalog, other, e, steps);
        FoldKeepsHoused(start, steps, u, v, w, c, s, more, other, e);
      }
    }
  }

  lemma AdoptKeepsNumbers(t: Identity, u: Identity, v: Identity, w: nat, l: nat, done: set<nat>, s: nat)
    requires DistinctNumbers(u.items, w) && Numbers(u.items, w) == Numbers(t.items, w) + NumbersIn(t.items, done)
    requires w != l && s in SeasonsOf(u.items, l) && s in t.items && u.items[s].season == t.items[s].season
    requires v.items == Adopted(u.items, s, w) && SameNumbered(u.items, w, s) == {}
    ensures SeasonsOf(v.items, w) == SeasonsOf(u.items, w) + {s} && SeasonsOf(v.items, l) == SeasonsOf(u.items, l) - {s}
    ensures DistinctNumbers(v.items, w) && Numbers(v.items, w) == Numbers(t.items, w) + NumbersIn(t.items, done + {s})
  {
    assert forall c :: c in SeasonsOf(u.items, w) ==> c !in SameNumbered(u.items, w, s);
    assert SeasonsOf(v.items, w) == SeasonsOf(u.items, w) + {s};
    assert Numbers(v.items, w) == Numbers(u.items, w) + {t.items[s].season};
    assert NumbersIn(t.items, done + {s}) == NumbersIn(t.items, done) + {t.items[s].season};
  }

  lemma AdoptAccounts(start: Db, steps: seq<Step>, u: Db, v: Identity, w: nat, s: nat, other: nat, e: nat)
    requires Reaches(start, steps, u) && s in u.catalog.items && u.catalog.items[s].kind == Season
    requires v == u.catalog.(items := Adopted(u.catalog.items, s, w)) && e in EpisodesOf(start.catalog.items, other)
    requires if other == s then Untouched(start.catalog, u.catalog, s)
             else Housed(u.catalog, other, e, steps) && Accounted(start, steps, other, e)
    ensures Housed(v, other, e, steps + [Adopt(s, w)]) && Accounted(start, steps + [Adopt(s, w)], other, e)
  {
    var more := [Adopt(s, w)];
    if other == s {
      assert e in EpisodesOf(u.catalog.items, s);
      SurvivorsStandForAll(start, steps, u, s);
      SurvivorsStandForAll(start, steps, u, e);
    }
    OneStepRep(Adopt(s, w), Rep(steps, other));
    OneStepRep(Adopt(s, w), Rep(steps, e));
    AccountedLasts(start, steps, more, other, e);
  }

  lemma AdoptLeavesSeason(t: Identity, u: Identity, w: nat, s: nat, other: nat)
    requires Untouched(t, u, other) && s in u.items && u.items[s].kind == Season && other != s
    ensures Untouched(t, u.(items := Adopted(u.items, s, w)), other)
  {
    assert EpisodesOf(Adopted(u.items, s, w), other) == EpisodesOf(u.items, other);
  }

  lemma AdoptMovesOn(start: Db, steps: seq<Step>, u: Db, v: Db, w: nat, l: nat, done: set<nat>, s: nat)
    requires Reaches(start, steps, u) && ShowHalfway(start, u.catalog, w, l, done, steps) && w != l
    requires done <= SeasonsOf(start.catalog.items, l) && s in SeasonsOf(start.catalog.items, l) && s !in done
    requires s in u.catalog.items && SameNumbered(u.catalog.items, w, s) == {}
    requires v.catalog == u.catalog.(items := Adopted(u.catalog.items, s, w))
    ensures ShowHalfway(start, v.catalog, w, l, done + {s}, steps + [Adopt(s, w)])
  {
    var t := start.catalog;
    assert Untouched(t, u.catalog, s);
    AdoptKeepsNumbers(t, u.catalog, v.catalog, w, l, done, s);
    SurvivorsStandForAll(start, steps, u, s);
    forall other: nat | other in SeasonsOf(t.items, l) && other !in done + {s}
      ensures Untouched(t, v.catalog, other)
    {
      AdoptLeavesSeason(t, u.catalog, w, s, other);
    }
    forall other: nat | other in done + {s}
      ensures SeasonHoused(t, v.catalog, w, other, steps + [Adopt(s, w)])
    {
      RepMore(steps, Adopt(s, w), other);
      if other != s {
        assert SeasonHoused(t, u.catalog, w, other, steps);
      }
    }
    forall other: nat, e: nat | other in done + {s} && e in EpisodesOf(t.items, other)
      ensures Housed(v.catalog, other, e, steps + [Adopt(s, w)]) && Accounted(start, steps + [Adopt(s, w)], other, e)
    {
      assert other != s ==> Housed(u.catalog, other, e, steps);
      AdoptAccounts(start, steps, u, v.catalog, w, s, other, e);
    }
  }

  datatype Fate = FoldedInto(season: nat) | Handed | Left

  function SameNumbered(items: map<nat, Item>, w: nat, s: nat): set<nat>
    requires s in items
  {
    set c | c in SeasonsOf(items, w) && items[c].season == items[s].season
  }

  /** What happened to one season, as the database states before and after it show. */
  ghost predicate MoveMade(u: Db, v: Db, w: nat, s: nat, fate: Fate, more: seq<Step>)
    requires s in u.catalog.items
  {
    var found := SameNumbered(u.catalog.items, w, s);
    match fate
    case FoldedInto(c) => found == {c} && SeasonGone(u, more, v, c, s)
    case Handed => found == {} && more == [Adopt(s, w)] && Makes(u, Adopt(s, w), v)
    case Left => found != {} && (forall c: nat :: found != {c}) && more == [] && v == u
  }

  /** One season: folded into the winner's only season of that number, handed over if there is none. */
  method MoveSeason(db: MediaDatabase, w: nat, s: nat) returns (ghost fate: Fate, ghost more: seq<Step>, merged: nat)
    requires db.Valid() && w in db.catalog.items && s in db.catalog.items && db.catalog.items[w].kind == Show
    requires db.catalog.items[s].kind == Season && s !in SeasonsOf(db.catalog.items, w)
    modifies db
    ensures db.Valid() && db.origin == old(db.origin) && db.allowed == old(db.allowed)
    ensures db.steps == old(db.steps) + more && Reaches(old(db.Now()), more, db.Now())
    ensures MoveMade(old(db.Now()), db.Now(), w, s, fate, more)
  {
    ghost var start := db.Now();
    var candidates := SameNumbered(db.catalog.items, w, s);
    merged := 0;
    ReachesNothing(start);
    if |candidates| == 1 {
      var c :| c in candidates;
      OnlyMember(candidates, c);
      more, merged := FoldSeason(db, c, s);
      fate := FoldedInto(c);
    } else if candidates == {} {
      fate, more := Handed, [Adopt(s, w)];
      db.AdoptChild(s, w);
      ReachesMore(start, [], start, Adopt(s, w), db.Now());
      assert [] + [Adopt(s, w)] == more;
    } else {
      fate, more := Left, [];
      assert forall c: nat :: candidates == {c} ==> |candidates| == 1;
    }
  }

  /** The row is neither a season of the show nor an episode in one. */
  ghost predicate Elsewhere(items: map<nat, Item>, show: nat, x: nat) {
    x in items && x !in SeasonsOf(items, show)
    && !(items[x].kind == Episode && items[x].parent.Some? && items[x].parent.value in SeasonsOf(items, show))
  }

  ghost predicate StaysHome(t: Identity, u: Identity, l: nat, x: nat) {
    Elsewhere(t.items, l, x) ==> x in u.items && SameRow(u.items[x], t.items[x])
  }

  ghost predicate Waiting(t: Identity, u: Identity, s: nat) {
    s in t.items && s in u.items && SameRow(u.items[s], t.items[s])
  }

  /** Everything a show merge must leave alone, and the seasons still to come. */
  ghost predicate ShowPending(t: Identity, u: Identity, l: nat, pending: set<nat>) {
    && u.items.Keys <= t.items.Keys
    && (forall x: nat :: Outsider(t, u, x)) && (forall x: nat :: StaysHome(t, u, l, x))
    && (forall s: nat :: s in pending ==> Waiting(t, u, s))
  }

  lemma FoldKeepsPending(t: Identity, u: Identity, v: Identity, l: nat, c: nat, s: nat, more: seq<Step>, pending: set<nat>)
    requires ShowPending(t, u, l, pending) && SeasonFolded(u, v, c, s, more) && s !in pending && s in SeasonsOf(t.items, l)
    requires pending <= SeasonsOf(t.items, l)
    ensures ShowPending(t, v, l, pending)
  {
    forall x: nat
      ensures Outsider(t, v, x) && StaysHome(t, v, l, x)
    {
      assert Outsider(t, u, x) && Outsider(u, v, x);
      assert StaysHome(t, u, l, x) && Stays(u, v, s, x);
    }
    forall x: nat | x in pending
      ensures Waiting(t, v, x)
    {
      assert Waiting(t, u, x) && Stays(u, v, s, x);
    }
  }

  lemma AdoptKeepsPending(t: Identity, u: Identity, l: nat, w: nat, s: nat, pending: set<nat>)
    requires ShowPending(t, u, l, pending) && s in u.items && s !in pending && s in SeasonsOf(t.items, l)
    ensures ShowPending(t, u.(items := Adopted(u.items, s, w)), l, pending)
  {
    var v := u.(items := Adopted(u.items, s, w));
    forall x: nat
      ensures Outsider(t, v, x) && StaysHome(t, v, l, x)
    {
      assert Outsider(t, u, x) && StaysHome(t, u, l, x) && LiveSources(v, x) == LiveSources(u, x);
    }
    forall x: nat | x in pending
      ensures Waiting(t, v, x)
    {
      assert Waiting(t, u, x);
    }
  }

  /** Every season of the losing show, with its episodes, goes to the winning show. */
  method MergeHierarchy(db: MediaDatabase, w: nat, l: nat) returns (ghost more: seq<Step>, merged: nat)
    requires db.Valid() && w != l && w in db.catalog.items && l in db.catalog.items
    modifies db
    ensures db.Valid() && db.origin == old(db.origin) && db.allowed == old(db.allowed)
    ensures db.steps == old(db.steps) + more && HierarchyMerged(old(db.Now()), more, db.Now(), w, l)
  {
    ghost var start := db.Now();
    more := [];
    merged := 0;
    if db.catalog.items[w].kind != Show {
      return;
    }
    HierarchyStarts(start, w, l);
    var pending := SeasonsOf(db.catalog.items, l);
    ghost var done: set<nat> := {};
    while pending != {}
      invariant db.Valid() && db.origin == old(db.origin) && db.allowed == old(db.allowed)
      invariant db.steps == old(db.steps) + more
      invariant HierarchyAt(start, more, db.Now(), w, l, done, pending)
      decreases pending
    {
      var s :| s in pending;
      ghost var before := db.Now();
      SeasonIsNext(start, more, before, w, l, done, pending, s);
      pending := pending - {s};
      ghost var fate, made;
      var count;
      fate, made, count := MoveSeason(db, w, s);
      merged := merged + count;
      SeasonMoved(start, more, before, db.Now(), w, l, done, pending, s, fate, made);
      more := more + made;
      done := done + {s};
    }
    assert done == SeasonsOf(start.catalog.items, l);
  }

  lemma HierarchyStarts(start: Db, w: nat, l: nat)
    ensures HierarchyAt(start, [], start, w, l, {}, SeasonsOf(start.catalog.items, l))
  {
    ReachesNothing(start);
    assert NumbersIn(start.catalog.items, {}) == {};
  }

  /** Shows: every season of the loser has moved. Other kinds have no hierarchy. */
  ghost predicate HierarchyMerged(before: Db, steps: seq<Step>, after: Db, w: nat, l: nat) {
    if w in before.catalog.items && before.catalog.items[w].kind == Show
    then HierarchyAt(before, steps, after, w, l, SeasonsOf(before.catalog.items, l), {})
    else steps == [] && after == before
  }

  lemma HierarchyLeavesOthers(before: Db, steps: seq<Step>, after: Db, w: nat, l: nat)
    requires HierarchyMerged(before, steps, after, w, l)
    ensures Reaches(before, steps, after) && ShowPending(before.catalog, after.catalog, l, {})
  {
    ReachesNothing(before);
  }

  /** The seasons in `done` have moved, those in `pending` are waiting, and nothing else has changed. */
  ghost predicate HierarchyAt(start: Db, steps: seq<Step>, now: Db, w: nat, l: nat, done: set<nat>, pending: set<nat>) {
    && Reaches(start, steps, now) && done !! pending && done + pending == SeasonsOf(start.catalog.items, l)
    && ShowPending(start.catalog, now.catalog, l, pending)
    && (DistinctNumbers(start.catalog.items, w) ==> ShowHalfway(start, now.catalog, w, l, done, steps))
  }

  lemma SeasonIsNext(start: Db, steps: seq<Step>, now: Db, w: nat, l: nat, done: set<nat>, pending: set<nat>, s: nat)
    requires HierarchyAt(start, steps, now, w, l, done, pending) && w != l && s in pending
    requires w in start.catalog.items && start.catalog.items[w].kind == Show
    ensures w in now.catalog.items && now.catalog.items[w].kind == Show
    ensures s in now.catalog.items && now.catalog.items[s].kind == Season && s !in SeasonsOf(now.catalog.items, w)
  {
    assert Waiting(start.catalog, now.catalog, s) && Outsider(start.catalog, now.catalog, w);
  }

  lemma SeasonMoved(start: Db, steps: seq<Step>, u: Db, v: Db, w: nat, l: nat, done: set<nat>, pending: set<nat>,
                    s: nat, fate: Fate, more: seq<Step>)
    requires HierarchyAt(start, steps, u, w, l, done, pending + {s}) && s !in pending && w != l
    requires s in u.catalog.items && Reaches(u, more, v) && MoveMade(u, v, w, s, fate, more)
    ensures HierarchyAt(start, steps + more, v, w, l, done + {s}, pending)
  {
    ReachesTogether(start, steps, u, more, v);
    assert s in pending + {s} && Waiting(start.catalog, u.catalog, s);
    match fate
    case FoldedInto(c) =>
      assert c in SameNumbered(u.catalog.items, w, s);
      FoldKeepsPending(start.catalog, u.catalog, v.catalog, l, c, s, more, pending);
      if DistinctNumbers(start.catalog.items, w) {
        FoldMovesOn(start, steps, u, v, w, l, done, c, s, more);
      }
    case Handed =>
      AdoptKeepsPending(start.catalog, u.catalog, l, w, s, pending);
      if DistinctNumbers(start.catalog.items, w) {
        AdoptMovesOn(start, steps, u, v, w, l, done, s);
      }
    case Left =>
      if DistinctNumbers(start.catalog.items, w) {
        OnlyOneOfThatNumber(u.catalog.items, w, s);
      }
  }

  lemma OnlyOneOfThatNumber(items: map<nat, Item>, w: nat, s: nat)
    requires s in items && DistinctNumbers(items, w)
    ensures SameNumbered(items, w, s) == {} || exists c: nat :: SameNumbered(items, w, s) == {c}
  {
    if c :| c in SameNumbered(items, w, s) {
      assert SameNumbered(items, w, s) == {c};
    }
  }

  // ----- One loser -----

  /** Groups are formed among movies, shows, artists, albums and tracks. */
  predicate Grouped(kind: Kind) {
    kind != Season && kind != Episode
  }

  ghost predicate AllDistinct(items: map<nat, Item>) {
    forall show: nat :: DistinctNumbers(items, show)
  }

  /** The seasons and episodes of show `l` after it was folded into show `w`. */
  ghost predicate ShowMerged(start: Db, u: Identity, w: nat, l: nat, steps: seq<Step>) {
    var t := start.catalog;
    && DistinctNumbers(u.items, w) && Numbers(u.items, w) == Numbers(t.items, w) + Numbers(t.items, l)
    && (forall s: nat {:trigger SeasonHoused(t, u, w, s, steps)} ::
          s in SeasonsOf(t.items, l) ==> SeasonHoused(t, u, w, s, steps))
    && (forall s: nat, e: nat {:trigger Housed(u, s, e, steps)} ::
          s in SeasonsOf(t.items, l) && e in EpisodesOf(t.items, s) ==> Housed(u, s, e, steps) && Accounted(start, steps, s, e))
  }

  /** Rows that are not seasons of the loser, nor episodes in one, stay; children follow their parent. */
  ghost predicate ComesAlong(t: Identity, u: Identity, w: nat, l: nat, x: nat) {
    Elsewhere(t.items, l, x) && x != l ==>
      x in u.items && SameRow(u.items[x], t.items[x].(parent := if t.items[x].parent == Some(l) then Some(w) else t.items[x].parent))
  }

  lemma MergedShowIsHoused(start: Db, m: Identity, u: Identity, w: nat, l: nat, steps: seq<Step>, s: nat, e: nat)
    requires w != l && w in m.items && l in m.items && m.items[l].kind == Show && u.items == MergedItems(m.items, w, l)
    requires SeasonHoused(start.catalog, m, w, s, steps)
    ensures SeasonHoused(start.catalog, u, w, s, steps + [Into(w, l)])
    ensures Housed(m, s, e, steps) && Accounted(start, steps, s, e) ==>
      Housed(u, s, e, steps + [Into(w, l)]) && Accounted(start, steps + [Into(w, l)], s, e)
  {
    RepMore(steps, Into(w, l), s);
    RepMore(steps, Into(w, l), e);
    assert u.items[Rep(steps, s)] == MergedItem(m.items, w, l, Rep(steps, s));
    if Housed(m, s, e, steps) && Accounted(start, steps, s, e) {
      assert u.items[Rep(steps, e)] == MergedItem(m.items, w, l, Rep(steps, e));
      OneStepRep(Into(w, l), Rep(steps, s));
      OneStepRep(Into(w, l), Rep(steps, e));
      AccountedLasts(start, steps, [Into(w, l)], s, e);
    }
  }

  lemma MergedShowKeepsSeasons(start: Db, m: Identity, u: Identity, w: nat, l: nat, steps: seq<Step>)
    requires ShowHalfway(start, m, w, l, SeasonsOf(start.catalog.items, l), steps) && w != l && w in m.items && l in m.items
    requires m.items[w].kind == Show && m.items[l].kind == Show
    requires u.items == MergedItems(m.items, w, l)
    ensures ShowMerged(start, u, w, l, steps + [Into(w, l)])
  {
    var t := start.catalog;
    forall x: nat
      ensures x in SeasonsOf(u.items, w) <==> x in SeasonsOf(m.items, w)
      ensures x in SeasonsOf(m.items, w) ==> u.items[x].season == m.items[x].season
    {
      assert SeasonsOf(m.items, l) == {};
      if x in u.items {
        assert u.items[x] == MergedItem(m.items, w, l, x);
        assert x !in SeasonsOf(m.items, l);
      }
    }
    assert NumbersIn(t.items, SeasonsOf(t.items, l)) == Numbers(t.items, l);
    assert Numbers(u.items, w) == Numbers(m.items, w);
    forall s: nat | s in SeasonsOf(t.items, l)
      ensures SeasonHoused(t, u, w, s, steps + [Into(w, l)])
    {
      assert SeasonHoused(t, m, w, s, steps);
      MergedShowIsHoused(start, m, u, w, l, steps, s, s);
    }
    forall s: nat, e: nat | s in SeasonsOf(t.items, l) && e in EpisodesOf(t.items, s)
      ensures Housed(u, s, e, steps + [Into(w, l)]) && Accounted(start, steps + [Into(w, l)], s, e)
    {
      assert SeasonHoused(t, m, w, s, steps) && Housed(m, s, e, steps);
      MergedShowIsHoused(start, m, u, w, l, steps, s, e);
    }
  }

  /** What a merge leaves of another grouped item: itself, with its live sources. */
  ghost predicate Remains(t: Identity, u: Identity, w: nat, l: nat, x: nat) {
    x in t.items && Grouped(t.items[x].kind) && x != l ==>
      && x in u.items && u.items[x].kind == t.items[x].kind
      && LiveSources(u, x) == LiveSources(t, x) + if x == w then LiveSources(t, l) else {}
  }

  lemma LiveOfWinner(t: Identity, u: Identity, w: nat, l: nat)
    requires u.refs == MergedRefs(t.refs, w, l) && w != l
    ensures LiveSources(u, w) == LiveSources(t, w) + LiveSources(t, l)
  {
    forall s | s in LiveSources(t, w) + LiveSources(t, l)
      ensures s in LiveSources(u, w)
    {
      var r :| r in t.refs && (r.item == w || r.item == l) && r.available && r.source == s;
      assert r.(item := Moved(r.item, w, l)) in u.refs;
    }
  }

  lemma MergeLeavesOthers(t: Identity, m: Identity, u: Identity, w: nat, l: nat, x: nat)
    requires ShowPending(t, m, l, {}) && w != l && w in t.items && l in t.items
    requires Grouped(t.items[w].kind) && Grouped(t.items[l].kind) && w in m.items && l in m.items
    requires u.items == MergedItems(m.items, w, l) && u.refs == MergedRefs(m.refs, w, l)
    ensures Remains(t, u, w, l, x) && ComesAlong(t, u, w, l, x)
  {
    assert Outsider(t, m, x) && StaysHome(t, m, l, x);
    assert Outsider(t, m, w) && Outsider(t, m, l);
    if x in m.items && x != l {
      assert u.items[x] == MergedItem(m.items, w, l, x);
      if x == w {
        LiveOfWinner(m, u, w, l);
      } else {
        LiveUnaffected(m, u, w, l, x);
      }
    }
  }

  /** Seasons below a surviving parent that is not the winner are as they were. */
  lemma MergeKeepsDistinct(start: Db, steps: seq<Step>, after: Db, w: nat, l: nat)
    requires Reaches(start, steps, after) && Leveled(start.catalog.items) && AllDistinct(start.catalog.items)
    requires w in start.catalog.items && l in start.catalog.items && start.catalog.items[w].kind == start.catalog.items[l].kind
    requires Grouped(start.catalog.items[w].kind)
    requires forall x: nat :: ComesAlong(start.catalog, after.catalog, w, l, x)
    requires start.catalog.items[w].kind == Show ==> ShowMerged(start, after.catalog, w, l, steps)
    ensures AllDistinct(after.catalog.items)
  {
    var (t, u) := (start.catalog, after.catalog);
    forall show: nat
      ensures DistinctNumbers(u.items, show)
    {
      if show != w || t.items[w].kind != Show {
        forall y | y in SeasonsOf(u.items, show)
          ensures y in SeasonsOf(t.items, show) && u.items[y].season == t.items[y].season
        {
          SeasonWasThere(start, steps, after, w, l, show, y);
        }
        assert DistinctNumbers(t.items, show);
      }
    }
  }

  lemma SeasonWasThere(start: Db, steps: seq<Step>, after: Db, w: nat, l: nat, show: nat, y: nat)
    requires Reaches(start, steps, after) && Leveled(start.catalog.items)
    requires w in start.catalog.items && l in start.catalog.items && start.catalog.items[w].kind == start.catalog.items[l].kind
    requires Grouped(start.catalog.items[w].kind)
    requires forall x: nat :: ComesAlong(start.catalog, after.catalog, w, l, x)
    requires start.catalog.items[w].kind == Show ==> show != w && ShowMerged(start, after.catalog, w, l, steps)
    requires y in SeasonsOf(after.catalog.items, show)
    ensures y in SeasonsOf(start.catalog.items, show) && after.catalog.items[y].season == start.catalog.items[y].season
  {
    var (t, u) := (start.catalog, after.catalog);
    ItemsKeepTheirPlace(start, steps, after, y);
    assert ComesAlong(t, u, w, l, y) && Placed(t.items, y);
    assert t.items[w].kind == Show && y in SeasonsOf(t.items, l) ==> SeasonHoused(t, u, w, y, steps);
  }

  /**
   The loser is gone and represented by the winner; other items stay, with their live sources, and
   children follow; a show's seasons and episodes are settled as its numbers demand.
   */
  ghost predicate LoserFolded(before: Db, steps: seq<Step>, after: Db, w: nat, l: nat) {
    && Reaches(before, steps, after) && l !in after.catalog.items && Rep(steps, l) == w && w in before.catalog.items
    && (forall x: nat :: Remains(before.catalog, after.catalog, w, l, x))
    && (forall x: nat :: ComesAlong(before.catalog, after.catalog, w, l, x))
    && (before.catalog.items[w].kind == Show && DistinctNumbers(before.catalog.items, w) ==>
          ShowMerged(before, after.catalog, w, l, steps))
    && (AllDistinct(before.catalog.items) ==> AllDistinct(after.catalog.items))
  }

  /** One loser: its seasons and episodes first, then everything it owns. */
  method MergeInto(db: MediaDatabase, w: nat, l: nat) returns (ghost more: seq<Step>, merged: nat)
    requires db.Valid() && MayFold(db.origin, db.steps, db.allowed, db.catalog, w, l) && Grouped(db.catalog.items[w].kind)
    modifies db
    ensures db.Valid() && db.origin == old(db.origin) && db.allowed == old(db.allowed)
    ensures db.steps == old(db.steps) + more && merged >= 1
    ensures LoserFolded(old(db.Now()), more, db.Now(), w, l)
  {
    ghost var start := db.Now();
    ghost var (origin, steps) := (db.origin, db.steps);
    more, merged := MergeHierarchy(db, w, l);
    ghost var middle := db.Now();
    HierarchyKeepsFoldable(origin, steps, start, db.allowed, more, middle, w, l);
    db.MergeItem(w, l);
    merged := merged + 1;
    LoserIsFolded(start, more, middle, db.Now(), w, l);
    more := more + [Into(w, l)];
  }

  lemma LoserIsFolded(start: Db, steps: seq<Step>, middle: Db, after: Db, w: nat, l: nat)
    requires HierarchyMerged(start, steps, middle, w, l) && Makes(middle, Into(w, l), after) && Leveled(start.catalog.items)
    requires w in start.catalog.items && l in start.catalog.items && w != l && Grouped(start.catalog.items[w].kind)
    requires start.catalog.items[w].kind == start.catalog.items[l].kind
    ensures LoserFolded(start, steps + [Into(w, l)], after, w, l)
  {
    HierarchyLeavesOthers(start, steps, middle, w, l);
    assert Outsider(start.catalog, middle.catalog, w) && Outsider(start.catalog, middle.catalog, l);
    SurvivorsStandForAll(start, steps, middle, l);
    RepMore(steps, Into(w, l), l);
    ReachesMore(start, steps, middle, Into(w, l), after);
    forall x: nat
      ensures Remains(start.catalog, after.catalog, w, l, x) && ComesAlong(start.catalog, after.catalog, w, l, x)
    {
      MergeLeavesOthers(start.catalog, middle.catalog, after.catalog, w, l, x);
    }
    if start.catalog.items[w].kind == Show && DistinctNumbers(start.catalog.items, w) {
      MergedShowKeepsSeasons(start, middle.catalog, after.catalog, w, l, steps);
    }
    if AllDistinct(start.catalog.items) {
      assert DistinctNumbers(start.catalog.items, w);
      MergeKeepsDistinct(start, steps + [Into(w, l)], after, w, l);
    }
  }

  /** Moving seasons and episodes changes neither who stands for a show nor where it is live. */
  lemma HierarchyKeepsFoldable(origin: Db, steps: seq<Step>, start: Db, allowed: set<(nat, nat)>,
                               more: seq<Step>, middle: Db, w: nat, l: nat)
    requires ValidHistory(origin, steps, allowed, start) && HierarchyMerged(start, more, middle, w, l)
    requires MayFold(origin, steps, allowed, start.catalog, w, l) && Grouped(start.catalog.items[w].kind)
    requires ValidHistory(origin, steps + more, allowed, middle)
    ensures MayFold(origin, steps + more, allowed, middle.catalog, w, l)
  {
    HierarchyLeavesOthers(start, more, middle, w, l);
    assert Outsider(start.catalog, middle.catalog, w) && Outsider(start.catalog, middle.catalog, l);
    forall a, b | (a, b) in Pairs(origin.catalog, steps + more, w, l)
      ensures (a, b) in Pairs(origin.catalog, steps, w, l)
    {
      SameRepBefore(origin, steps, start, allowed, more, middle, a);
      SameRepBefore(origin, steps, start, allowed, more, middle, b);
    }
  }

  lemma SameRepBefore(origin: Db, steps: seq<Step>, start: Db, allowed: set<(nat, nat)>, more: seq<Step>, middle: Db, a: nat)
    requires ValidHistory(origin, steps, allowed, start) && ValidHistory(origin, steps + more, allowed, middle)
    requires Reaches(start, more, middle) && (forall x: nat :: Outsider(start.catalog, middle.catalog, x))
    requires a in origin.catalog.items && Rep(steps + more, a) in middle.catalog.items
    ensures Grouped(middle.catalog.items[Rep(steps + more, a)].kind) ==> Rep(steps + more, a) == Rep(steps, a)
  {
    RepTogether(steps, more, a);
    assert KindKept(origin, steps, start, a) && KindKept(origin, steps + more, middle, a);
    assert Outsider(start.catalog, middle.catalog, Rep(steps, a));
    SurvivorsStandForAll(start, more, middle, Rep(steps, a));
  }

  // ----- One group -----

  /** One kind throughout, as the queries that form the groups see to it. */
  ghost predicate OneKind(items: map<nat, Item>, ids: seq<nat>) {
    && Grouping.Distinct(ids)
    && (forall i :: 0 <= i < |ids| && ids[i] in items ==> Grouped(items[ids[i]].kind))
    && (forall i, j :: 0 <= i < j < |ids| && ids[i] in items && ids[j] in items ==> items[ids[i]].kind == items[ids[j]].kind)
  }

  /** The items of the group that are still there. */
  function Present(items: map<nat, Item>, ids: seq<nat>): seq<nat> {
    if ids == [] then []
    else Present(items, ids[..|ids| - 1]) + if ids[|ids| - 1] in items then [ids[|ids| - 1]] else []
  }

  lemma {:induction false} PresentIs(items: map<nat, Item>, ids: seq<nat>)
    requires OneKind(items, ids)
    ensures OneKind(items, Present(items, ids)) && forall x :: x in Present(items, ids) <==> x in ids && x in items
  {
    if ids != [] {
      var (front, last) := (ids[..|ids| - 1], ids[|ids| - 1]);
      PresentIs(items, front);
      assert ids == front + [last];
      assert last !in front;
      assert forall i :: 0 <= i < |Present(items, front)| ==> Present(items, front)[i] in front;
    }
  }

  method StillThere(items: map<nat, Item>, ids: seq<nat>) returns (found: seq<nat>)
    ensures found == Present(items, ids)
  {
    found := [];
    for k := 0 to |ids|
      invariant found == Present(items, ids[..k])
    {
      assert ids[..k + 1][..k] == ids[..k];
      if ids[k] in items {
        found := found + [ids[k]];
      }
    }
    assert ids[..|ids|] == ids;
  }

  ghost predicate StrictlySafe(t: Identity, items: seq<nat>) {
    forall s: nat :: !Shared(t, items, s)
  }

  ghost predicate NoneShared(t: Identity, a: nat, b: nat) {
    LiveSources(t, a) !! LiveSources(t, b)
  }

  lemma StrictlySafeIsDisjoint(t: Identity, items: seq<nat>, i: nat, j: nat)
    requires StrictlySafe(t, items) && i < j < |items|
    ensures NoneShared(t, items[i], items[j])
  {
    forall s: nat
      ensures s !in LiveSources(t, items[i]) || s !in LiveSources(t, items[j])
    {
      assert BothLive(t, items, s, i, j) ==> Shared(t, items, s);
    }
  }

  /** The items still to fold are there, of the winner's kind, and apart from it and from each other. */
  ghost predicate ToFold(t: Identity, items: seq<nat>, k: nat, c: nat, strict: bool) {
    && c in t.items && Grouped(t.items[c].kind)
    && (forall i: nat :: k <= i < |items| ==> items[i] in t.items && t.items[items[i]].kind == t.items[c].kind)
    && (strict ==> forall i: nat :: k <= i < |items| && items[i] != c ==> NoneShared(t, c, items[i]))
    && (strict ==> forall i: nat, j: nat :: k <= i < j < |items| ==> NoneShared(t, items[i], items[j]))
  }

  lemma FoldOne(t: Identity, u: Identity, items: seq<nat>, k: nat, c: nat, strict: bool)
    requires ToFold(t, items, k, c, strict) && k < |items| && items[k] != c && Grouping.Distinct(items)
    requires forall x: nat :: Remains(t, u, c, items[k], x)
    ensures ToFold(u, items, k + 1, c, strict)
  {
    var l := items[k];
    assert Remains(t, u, c, l, c);
    forall i: nat | k + 1 <= i < |items|
      ensures items[i] in u.items && u.items[items[i]].kind == u.items[c].kind
      ensures strict && items[i] != c ==> NoneShared(u, c, items[i])
    {
      assert Remains(t, u, c, l, items[i]);
      assert strict ==> NoneShared(t, l, items[i]);
    }
    forall i: nat, j: nat | strict && k + 1 <= i < j < |items|
      ensures NoneShared(u, items[i], items[j])
    {
      assert Remains(t, u, c, l, items[i]) && Remains(t, u, c, l, items[j]);
      assert NoneShared(t, items[i], items[j]) && NoneShared(t, l, items[i]) && NoneShared(t, l, items[j]);
    }
  }

  /** Among the steps are those that folded this loser, with its seasons and episodes, as they must. */
  ghost predicate FoldMade(start: Db, steps: seq<Step>, c: nat, l: nat) {
    exists a: nat, b: nat, before: Db, after: Db :: FoldMadeAt(start, steps, c, l, a, b, before, after)
  }

  ghost predicate FoldMadeAt(start: Db, steps: seq<Step>, c: nat, l: nat, a: nat, b: nat, before: Db, after: Db) {
    a <= b <= |steps| && Reaches(start, steps[..a], before) && LoserFolded(before, steps[a..b], after, c, l)
  }

  lemma FoldMadeLasts(start: Db, steps: seq<Step>, more: seq<Step>, c: nat, l: nat)
    requires FoldMade(start, steps, c, l)
    ensures FoldMade(start, steps + more, c, l)
  {
    var a: nat, b: nat, before: Db, after: Db :| FoldMadeAt(start, steps, c, l, a, b, before, after);
    assert (steps + more)[..a] == steps[..a] && (steps + more)[a..b] == steps[a..b];
    assert FoldMadeAt(start, steps + more, c, l, a, b, before, after);
  }

  lemma FoldMadeNow(start: Db, steps: seq<Step>, u: Db, more: seq<Step>, v: Db, c: nat, l: nat)
    requires Reaches(start, steps, u) && LoserFolded(u, more, v, c, l)
    ensures FoldMade(start, steps + more, c, l)
  {
    var all := steps + more;
    assert all[..|steps|] == steps && all[|steps|..|all|] == more;
    assert FoldMadeAt(start, all, c, l, |steps|, |all|, u, v);
  }

  /** The first `k` items have been folded into the winner; the others, and items outside the group, are there. */
  ghost predicate FoldedUpTo(start: Db, steps: seq<Step>, now: Db, items: seq<nat>, k: nat, c: nat) {
    && Reaches(start, steps, now) && c in items
    && (forall i: nat :: i < k && i < |items| ==> Rep(steps, items[i]) == c)
    && (forall i: nat {:trigger FoldMade(start, steps, c, items[i])} ::
          i < k && i < |items| && items[i] != c ==> FoldMade(start, steps, c, items[i]))
    && (forall x: nat :: x in start.catalog.items && x !in items && Grouped(start.catalog.items[x].kind) ==>
          x in now.catalog.items && now.catalog.items[x].kind == start.catalog.items[x].kind)
    && (AllDistinct(start.catalog.items) ==> AllDistinct(now.catalog.items))
  }

  lemma OneMoreFolded(start: Db, steps: seq<Step>, u: Db, more: seq<Step>, v: Db, items: seq<nat>, k: nat, c: nat, strict: bool)
    requires FoldedUpTo(start, steps, u, items, k, c) && ToFold(u.catalog, items, k, c, strict) && k < |items| && items[k] != c
    requires Grouping.Distinct(items)
    requires LoserFolded(u, more, v, c, items[k])
    ensures FoldedUpTo(start, steps + more, v, items, k + 1, c) && ToFold(v.catalog, items, k + 1, c, strict)
  {
    FoldOne(u.catalog, v.catalog, items, k, c, strict);
    ReachesTogether(start, steps, u, more, v);
    assert Remains(u.catalog, v.catalog, c, items[k], c);
    SurvivorsStandForAll(u, more, v, c);
    ItemsKeepTheirPlace(start, steps, u, items[k]);
    forall i: nat | i < k + 1
      ensures Rep(steps + more, items[i]) == c
      ensures items[i] != c ==> FoldMade(start, steps + more, c, items[i])
    {
      RepTogether(steps, more, items[i]);
      if i == k {
        FoldMadeNow(start, steps, u, more, v, c, items[k]);
      } else if items[i] != c {
        assert FoldMade(start, steps, c, items[i]);
        FoldMadeLasts(start, steps, more, c, items[i]);
      }
    }
    forall x: nat | x in start.catalog.items && x !in items && Grouped(start.catalog.items[x].kind)
      ensures x in v.catalog.items && v.catalog.items[x].kind == start.catalog.items[x].kind
    {
      assert x in u.catalog.items && Remains(u.catalog, v.catalog, c, items[k], x);
    }
  }

  /** What lets a group be folded: no live source in common, or a pair that is allowed to have one. */
  ghost predicate GroupAllowed(db: Db, origin: Db, steps: seq<Step>, allowed: set<(nat, nat)>, items: seq<nat>, c: nat, strict: bool) {
    && Grouping.Distinct(items) && c in items && ToFold(db.catalog, items, 0, c, strict)
    && (strict || PairAllowed(origin, steps, allowed, items))
  }

  /** How many of the first `k` items were folded: all but the winner. */
  function FoldedCount(items: seq<nat>, k: nat, c: nat): int
    requires k <= |items|
  {
    k - if c in items[..k] then 1 else 0
  }

  lemma FoldedCountGrows(items: seq<nat>, k: nat, c: nat)
    requires k < |items| && Grouping.Distinct(items)
    ensures FoldedCount(items, k + 1, c) == FoldedCount(items, k, c) + if items[k] == c then 0 else 1
  {
    assert items[..k + 1] == items[..k] + [items[k]];
  }

  /** Where the folding of a group stands before its item `k`. */
  ghost predicate Folding(start: Db, done: seq<Step>, now: Db, items: seq<nat>, k: nat, c: nat, strict: bool) {
    && k <= |items| && Grouping.Distinct(items) && c in start.catalog.items
    && FoldedUpTo(start, done, now, items, k, c) && ToFold(now.catalog, items, k, c, strict)
    && (FoldedCount(items, k, c) == 0 ==> done == [])
  }

  lemma FoldingStarts(start: Db, items: seq<nat>, c: nat, strict: bool)
    requires Grouping.Distinct(items) && c in items && ToFold(start.catalog, items, 0, c, strict)
    ensures Folding(start, [], start, items, 0, c, strict)
  {
    ReachesNothing(start);
  }

  ghost predicate PairAllowed(origin: Db, steps: seq<Step>, allowed: set<(nat, nat)>, items: seq<nat>) {
    |items| == 2 && Pairs(origin.catalog, steps, items[0], items[1]) <= allowed
  }

  /** The next item of the group is folded. */
  method FoldMember(db: MediaDatabase, items: seq<nat>, k: nat, c: nat, ghost strict: bool, ghost start: Db,
                    ghost steps: seq<Step>, ghost done: seq<Step>)
      returns (ghost more: seq<Step>, merged: nat)
    requires db.Valid() && k < |items| && items[k] != c && db.steps == steps + done
    requires Folding(start, done, db.Now(), items, k, c, strict)
    requires strict || PairAllowed(db.origin, steps, db.allowed, items)
    modifies db
    ensures db.Valid() && db.origin == old(db.origin) && db.allowed == old(db.allowed) && merged >= 1
    ensures db.steps == steps + (done + more) && Folding(start, done + more, db.Now(), items, k + 1, c, strict)
  {
    ghost var before := db.Now();
    MayFoldNext(start, before, db.origin, steps, db.allowed, items, c, strict, k, done);
    more, merged := MergeInto(db, c, items[k]);
    FoldingGrows(start, done, before, more, db.Now(), items, k, c, strict);
  }

  lemma FoldingGrows(start: Db, done: seq<Step>, u: Db, more: seq<Step>, v: Db, items: seq<nat>, k: nat, c: nat, strict: bool)
    requires Folding(start, done, u, items, k, c, strict) && k < |items| && items[k] != c
    requires LoserFolded(u, more, v, c, items[k])
    ensures Folding(start, done + more, v, items, k + 1, c, strict)
  {
    OneMoreFolded(start, done, u, more, v, items, k, c, strict);
    FoldedCountGrows(items, k, c);
  }

  /** Folds every item of a safe group into the winner. */
  method FoldGroup(db: MediaDatabase, items: seq<nat>, c: nat, ghost strict: bool)
      returns (ghost more: seq<Step>, merged: nat, hierarchy: nat)
    requires db.Valid() && GroupAllowed(db.Now(), db.origin, db.steps, db.allowed, items, c, strict)
    modifies db
    ensures db.Valid() && db.origin == old(db.origin) && db.allowed == old(db.allowed) && merged == |items| - 1
    ensures db.steps == old(db.steps) + more && FoldedUpTo(old(db.Now()), more, db.Now(), items, |items|, c)
  {
    ghost var (start, steps) := (db.Now(), db.steps);
    more := [];
    FoldingStarts(start, items, c, strict);
    merged, hierarchy := 0, 0;
    for k := 0 to |items|
      invariant db.Valid() && db.origin == old(db.origin) && db.allowed == old(db.allowed)
      invariant db.steps == steps + more && Folding(start, more, db.Now(), items, k, c, strict)
      invariant merged == FoldedCount(items, k, c)
    {
      FoldedCountGrows(items, k, c);
      if items[k] == c {
        WinnerPasses(start, more, db.Now(), items, k, c, strict);
      } else {
        ghost var made;
        var count;
        made, count := FoldMember(db, items, k, c, strict, start, steps, more);
        more := more + made;
        merged := merged + 1;
        hierarchy := hierarchy + count - 1;
      }
    }
    assert items[..|items|] == items;
  }

  lemma WinnerPasses(start: Db, done: seq<Step>, now: Db, items: seq<nat>, k: nat, c: nat, strict: bool)
    requires Folding(start, done, now, items, k, c, strict) && k < |items| && items[k] == c
    ensures Folding(start, done, now, items, k + 1, c, strict)
  {
    FoldedCountGrows(items, k, c);
    SurvivorsStandForAll(start, done, now, c);
  }

  lemma MayFoldNext(start: Db, now: Db, origin: Db, steps: seq<Step>, allowed: set<(nat, nat)>, items: seq<nat>, c: nat,
                    strict: bool, k: nat, done: seq<Step>)
    requires Folding(start, done, now, items, k, c, strict) && k < |items| && items[k] != c
    requires strict || PairAllowed(origin, steps, allowed, items)
    ensures MayFold(origin, steps + done, allowed, now.catalog, c, items[k]) && Grouped(now.catalog.items[c].kind)
  {
    if strict {
      assert NoneShared(now.catalog, c, items[k]);
    } else {
      assert k == 0 ==> items[1] == c;
      assert k == 1 ==> items[..1] == [items[0]] && items[0] == c;
      assert steps + done == steps;
      assert Pairs(origin.catalog, steps, c, items[k]) == Pairs(origin.catalog, steps, items[0], items[1]);
    }
  }

  datatype Verdict = TooFew | Unsafe | Folded

  /** From now on the originals behind these two shows may come together. */
  ghost method AllowSplitShow(db: MediaDatabase, x: nat, y: nat)
    requires db.Valid() && x in db.catalog.items && db.catalog.items[x].kind == Show
    requires y in db.catalog.items && db.catalog.items[y].kind == Show
    modifies db`allowed
    ensures db.Valid() && db.allowed == old(db.allowed) + Pairs(db.origin.catalog, db.steps, x, y)
  {
    var pairs := Pairs(db.origin.catalog, db.steps, x, y);
    forall a, b
      ensures Apart(db.origin.catalog, db.steps, db.allowed + pairs, a, b)
    {
      assert Apart(db.origin.catalog, db.steps, db.allowed, a, b);
    }
    forall p | p in pairs
      ensures p.0 in db.origin.catalog.items && db.origin.catalog.items[p.0].kind == Show
    {
      assert KindKept(db.origin, db.steps, db.Now(), p.0);
    }
    db.allowed := db.allowed + pairs;
  }

  /** The history and the database when a group's turn comes. */
  datatype Turn = Turn(steps: seq<Step>, db: Db)

  ghost predicate Foldable(t: Identity, ids: seq<nat>, physical: bool) {
    var items := Present(t.items, ids);
    |items| >= 2 && Known(t, items) && Safe(t, items, physical)
  }

  ghost predicate BestOf(t: Identity, items: seq<nat>, c: nat)
    requires Known(t, items)
  {
    c in items && c in t.items && forall i :: 0 <= i < |items| && items[i] != c ==> Preferred(t, c, items[i])
  }

  /** A safe group of at least two is folded into its best item and touches no other group; any other changes nothing. */
  ghost predicate GroupHandled(before: Turn, after: Turn, ids: seq<nat>, physical: bool) {
    var t := before.db.catalog;
    var items := Present(t.items, ids);
    if Foldable(t, ids, physical) then
      exists more, c ::
        after.steps == before.steps + more && BestOf(t, items, c) && FoldedUpTo(before.db, more, after.db, items, |items|, c)
    else after == before
  }

  /** The group came down to two shows that stand for these originals, and the files prove them one on that source. */
  ghost predicate SplitAllowed(turn: Turn, ids: seq<nat>, a: nat, b: nat, s: nat) {
    var items := Present(turn.db.catalog.items, ids);
    && |items| == 2 && StandFor(turn.steps, items[0], items[1], a, b)
    && SplitShow(turn.db.catalog, items, true, s)
  }

  /** Why a pair was added: its turn, and everything two such shows have in common is allowed. */
  ghost predicate AllowedAt(turn: Turn, ids: seq<nat>, physical: bool, p: (nat, nat)) {
    var items := Present(turn.db.catalog.items, ids);
    physical && |items| == 2 && StandFor(turn.steps, items[0], items[1], p.0, p.1) && Foldable(turn.db.catalog, ids, physical)
  }

  /** One group, as it stands when its turn comes. */
  method ReconcileGroup(db: MediaDatabase, ids: seq<nat>, physical: bool)
      returns (verdict: Verdict, merged: nat, hierarchy: nat)
    requires db.Valid() && OneKind(db.catalog.items, ids)
    modifies db
    ensures db.Valid() && db.origin == old(db.origin)
    ensures verdict == TooFew <==> |Present(old(db.catalog.items), ids)| < 2
    ensures verdict == Folded <==> Foldable(old(db.catalog), ids, physical)
    ensures GroupHandled(Turn(old(db.steps), old(db.Now())), Turn(db.steps, db.Now()), ids, physical)
    ensures merged == if verdict == Folded then |Present(old(db.catalog.items), ids)| - 1 else 0
    ensures forall p :: p in db.allowed && p !in old(db.allowed) ==> AllowedAt(Turn(old(db.steps), old(db.Now())), ids, physical, p)
  {
    merged, hierarchy := 0, 0;
    var items := StillThere(db.catalog.items, ids);
    PresentIs(db.catalog.items, ids);
    PresentIsKnown(db.catalog, items);
    if |items| < 2 {
      return TooFew, 0, 0;
    }
    var safe := SafeSources(db.catalog, items, physical);
    if !safe {
      return Unsafe, 0, 0;
    }
    var winner := ChooseWinner(db.catalog, items);
    ghost var strict := AllowGroup(db, items, physical, winner);
    ghost var more;
    more, merged, hierarchy := FoldGroup(db, items, winner, strict);
    verdict := Folded;
  }

  /** A safe group shares no live source, or is one split show, which is allowed from now on. */
  ghost method AllowGroup(db: MediaDatabase, items: seq<nat>, physical: bool, c: nat) returns (strict: bool)
    requires db.Valid() && Known(db.catalog, items) && OneKind(db.catalog.items, items) && |items| >= 2
    requires Safe(db.catalog, items, physical) && c in items
    modifies db`allowed
    ensures db.Valid() && GroupAllowed(db.Now(), db.origin, db.steps, db.allowed, items, c, strict)
    ensures old(db.allowed) <= db.allowed
    ensures forall p :: p in db.allowed && p !in old(db.allowed) ==>
      physical && |items| == 2 && StandFor(db.steps, items[0], items[1], p.0, p.1)
  {
    strict := StrictlySafe(db.catalog, items);
    GroupIsToFold(db.catalog, items, c);
    if !strict {
      OnlySplitShowsShare(db.catalog, items, physical);
      AllowSplitShow(db, items[0], items[1]);
    }
  }

  lemma PresentIsKnown(t: Identity, items: seq<nat>)
    requires forall x :: x in items ==> x in t.items
    ensures Known(t, items)
  {
    forall i | 0 <= i < |items|
      ensures items[i] in t.items
    {
      assert items[i] in items;
    }
  }

  lemma GroupIsToFold(t: Identity, items: seq<nat>, c: nat)
    requires Known(t, items) && OneKind(t.items, items) && c in items
    ensures ToFold(t, items, 0, c, StrictlySafe(t, items))
  {
    var at: nat :| at < |items| && items[at] == c;
    if StrictlySafe(t, items) {
      forall i: nat, j: nat | i < j < |items|
        ensures NoneShared(t, items[i], items[j])
      {
        StrictlySafeIsDisjoint(t, items, i, j);
      }
    }
  }

  /** Only a pair of shows confirmed by its files may share a live source. */
  lemma OnlySplitShowsShare(t: Identity, items: seq<nat>, physical: bool)
    requires Known(t, items) && OneKind(t.items, items) && Safe(t, items, physical) && !StrictlySafe(t, items)
    ensures physical && |items| == 2 && t.items[items[0]].kind == Show && t.items[items[1]].kind == Show
  {
    var s: nat :| Shared(t, items, s);
    assert SplitShow(t, items, physical, s);
  }

  // ----- All groups -----

  lemma OneKindLasts(before: Db, steps: seq<Step>, after: Db, ids: seq<nat>)
    requires Reaches(before, steps, after) && KindsKept(before, steps, after) && OneKind(before.catalog.items, ids)
    ensures OneKind(after.catalog.items, ids)
  {
    forall x: nat | x in after.catalog.items
      ensures x in before.catalog.items && after.catalog.items[x].kind == before.catalog.items[x].kind
    {
      ItemsKeepTheirPlace(before, steps, after, x);
    }
  }

  /** No survivor stands for two originals that were both live on one source. */
  ghost predicate NeverFolded(t: Identity, steps: seq<Step>, a: nat, b: nat) {
    a in t.items && b in t.items && a != b && Rep(steps, a) == Rep(steps, b) ==> LiveSources(t, a) !! LiveSources(t, b)
  }

  ghost predicate HandledAt(turns: seq<Turn>, groups: seq<seq<nat>>, physicalCount: nat, g: nat)
    requires |turns| > g + 1 && g < |groups|
  {
    GroupHandled(turns[g], turns[g + 1], groups[g], g < physicalCount)
  }

  /** Group by group: each turn starts from what the turns before it made of the original. */
  ghost predicate InTurn(start: Db, turns: seq<Turn>, groups: seq<seq<nat>>, physicalCount: nat) {
    && 0 < |turns| <= |groups| + 1 && turns[0] == Turn([], start)
    && (forall g: nat :: g < |turns| ==> Reaches(start, turns[g].steps, turns[g].db))
    && (forall g: nat {:trigger HandledAt(turns, groups, physicalCount, g)} ::
          g + 1 < |turns| ==> HandledAt(turns, groups, physicalCount, g))
  }

  /** A pair of originals was allowed to come together at the turn of a physical group. */
  ghost predicate Explained(turns: seq<Turn>, groups: seq<seq<nat>>, physicalCount: nat, p: (nat, nat)) {
    exists g: nat :: g < |turns| && g < |groups| && AllowedAt(turns[g], groups[g], g < physicalCount, p)
  }

  /** Two shows live on one source came together only where the files of a split show allowed it. */
  ghost predicate FoldedOnlyIfSplit(t: Identity, steps: seq<Step>, turns: seq<Turn>, groups: seq<seq<nat>>,
                                    physicalCount: nat, a: nat, b: nat, s: nat) {
    && a in t.items && b in t.items && t.items[a].kind == Show && a != b && Rep(steps, a) == Rep(steps, b)
    && s in LiveSources(t, a) && s in LiveSources(t, b)
    ==> exists g: nat :: g < physicalCount && g < |turns| && g < |groups| && SplitAllowed(turns[g], groups[g], a, b, s)
  }

  lemma SplitWasAllowed(start: Db, turn: Turn, ids: seq<nat>, physical: bool, a: nat, b: nat, s: nat)
    requires Reaches(start, turn.steps, turn.db) && AllowedAt(turn, ids, physical, (a, b))
    requires s in LiveSources(start.catalog, a) && s in LiveSources(start.catalog, b)
    ensures physical && SplitAllowed(turn, ids, a, b, s)
  {
    var items := Present(turn.db.catalog.items, ids);
    LiveCarried(start, turn.steps, turn.db, a);
    LiveCarried(start, turn.steps, turn.db, b);
    assert BothLive(turn.db.catalog, items, s, 0, 1);
    assert Shared(turn.db.catalog, items, s);
  }

  lemma ExplainedMeansSplit(start: Db, steps: seq<Step>, turns: seq<Turn>, groups: seq<seq<nat>>, physicalCount: nat,
                            allowed: set<(nat, nat)>, a: nat, b: nat, s: nat)
    requires InTurn(start, turns, groups, physicalCount) && AllApart(start.catalog, steps, allowed)
    requires forall p :: p in allowed ==> Explained(turns, groups, physicalCount, p)
    ensures FoldedOnlyIfSplit(start.catalog, steps, turns, groups, physicalCount, a, b, s)
  {
    assert Apart(start.catalog, steps, allowed, a, b);
    if (a, b) in allowed && s in LiveSources(start.catalog, a) && s in LiveSources(start.catalog, b) {
      var g: nat :| g < |turns| && g < |groups| && AllowedAt(turns[g], groups[g], g < physicalCount, (a, b));
      SplitWasAllowed(start, turns[g], groups[g], g < physicalCount, a, b, s);
    }
  }

  lemma NextTurn(start: Db, turns: seq<Turn>, groups: seq<seq<nat>>, physicalCount: nat, next: Turn)
    requires InTurn(start, turns, groups, physicalCount) && |turns| <= |groups| && Reaches(start, next.steps, next.db)
    requires GroupHandled(turns[|turns| - 1], next, groups[|turns| - 1], |turns| - 1 < physicalCount)
    ensures InTurn(start, turns + [next], groups, physicalCount)
    ensures forall p :: Explained(turns, groups, physicalCount, p) ==> Explained(turns + [next], groups, physicalCount, p)
  {
    var more := turns + [next];
    forall g: nat | g + 1 < |more|
      ensures HandledAt(more, groups, physicalCount, g)
    {
      assert g + 1 < |turns| ==> HandledAt(turns, groups, physicalCount, g);
    }
    forall p | Explained(turns, groups, physicalCount, p)
      ensures Explained(more, groups, physicalCount, p)
    {
      var g: nat :| g < |turns| && g < |groups| && AllowedAt(turns[g], groups[g], g < physicalCount, p);
      assert more[g] == turns[g];
    }
  }

  /**
   The whole run, over any groups that overlap in any way, physical groups first. Each group is
   folded or left alone by what it is at its turn; no survivor stands for two originals live on one
   source, seasons aside, and shows only where the files of a split show allowed these two at some
   turn; season numbers stay distinct below every show, and nothing dangles.
   */
  method ReconcileCatalog(db: MediaDatabase, groups: seq<seq<nat>>, physicalCount: nat)
      returns (ghost turns: seq<Turn>, merged: nat, hierarchy: nat, skipped: nat)
    requires db.Valid() && db.steps == [] && db.allowed == {} && db.origin == db.Now()
    requires forall g :: 0 <= g < |groups| ==> OneKind(db.catalog.items, groups[g])
    modifies db
    ensures db.Valid() && Reaches(old(db.Now()), db.steps, db.Now())
    ensures |turns| == |groups| + 1 && InTurn(old(db.Now()), turns, groups, physicalCount)
    ensures turns[|groups|] == Turn(db.steps, db.Now())
    ensures forall a, b ::
      a in old(db.catalog).items && old(db.catalog).items[a].kind !in {Season, Show} ==>
        NeverFolded(old(db.catalog), db.steps, a, b)
    ensures forall a, b, s :: FoldedOnlyIfSplit(old(db.catalog), db.steps, turns, groups, physicalCount, a, b, s)
    ensures old(WellFormed(db.catalog)) ==>
      (SeasonsApart(old(db.catalog), db.steps) <==> SeasonFoldsApart(old(db.Now()), db.steps))
    ensures old(AllDistinct(db.catalog.items)) ==> AllDistinct(db.catalog.items)
    ensures old(Anchored(db.Now())) ==> Anchored(db.Now())
  {
    ghost var start := db.Now();
    merged, hierarchy, skipped := 0, 0, 0;
    turns := [Turn([], start)];
    for g := 0 to |groups|
      invariant db.Valid() && db.origin == start && |turns| == g + 1 && turns[g] == Turn(db.steps, db.Now())
      invariant InTurn(start, turns, groups, physicalCount)
      invariant forall p :: p in db.allowed ==> Explained(turns, groups, physicalCount, p)
      invariant AllDistinct(start.catalog.items) ==> AllDistinct(db.catalog.items)
    {
      OneKindLasts(start, db.steps, db.Now(), groups[g]);
      var verdict, items, children := ReconcileGroup(db, groups[g], g < physicalCount);
      NextTurn(start, turns, groups, physicalCount, Turn(db.steps, db.Now()));
      turns := turns + [Turn(db.steps, db.Now())];
      merged := merged + items;
      hierarchy := hierarchy + children;
      if verdict == Unsafe {
        skipped := skipped + 1;
      }
    }
    forall a, b | a in start.catalog.items && start.catalog.items[a].kind !in {Season, Show}
      ensures NeverFolded(start.catalog, db.steps, a, b)
    {
      assert Apart(start.catalog, db.steps, db.allowed, a, b);
    }
    forall a, b, s
      ensures FoldedOnlyIfSplit(start.catalog, db.steps, turns, groups, physicalCount, a, b, s)
    {
      ExplainedMeansSplit(start, db.steps, turns, groups, physicalCount, db.allowed, a, b, s);
    }
    if WellFormed(start.catalog) {
      KindsKeptMeansSameKinds(start, db.steps, db.Now());
      SeasonsApartIff(start, db.steps, db.Now());
    }
    if Anchored(start) {
      NothingDangles(start, db.steps, db.Now());
    }
  }

  // ----- Seasons of a split show -----

  /** The two halves once more, each with a season that the first server lists. */
  const SEASONED := HALVES.(refs := HALVES.refs + {Ref(6, 3, 1, true, {}), Ref(7, 4, 1, true, {})})

  lemma SeasonedIsLeveled()
    ensures Leveled(SEASONED.items)
  {
    forall x | x in SEASONED.items
      ensures Placed(SEASONED.items, x)
    {
    }
  }

  lemma SeasonsHaveOneNumber()
    ensures 4 in SEASONED.items && SameNumbered(SEASONED.items, 1, 4) == {3}
  {
    assert SeasonsOf(SEASONED.items, 1) == {3};
  }

  lemma BothSeasonsAreLive()
    ensures 1 in LiveSources(SEASONED, 3) && 1 in LiveSources(SEASONED, 4)
  {
    assert Ref(6, 3, 1, true, {}) in SEASONED.refs && Ref(7, 4, 1, true, {}) in SEASONED.refs;
  }

  /** The season of the second half has the number of the first one's, so one season stands for both that server 1 lists. */
  method SplitSeasonsComeTogether() returns (db: MediaDatabase, ghost steps: seq<Step>)
    ensures fresh(db) && db.Valid() && db.origin.catalog == SEASONED && db.steps == steps
    ensures Rep(steps, 4) == 3 && 1 in LiveSources(SEASONED, 3) && 1 in LiveSources(SEASONED, 4)
    ensures !ClassApart(SEASONED, steps, 3)
  {
    SeasonedIsLeveled();
    SeasonsHaveOneNumber();
    BothSeasonsAreLive();
    db := new MediaDatabase(Db(SEASONED, [], map[], map[], map[], map[]));
    ghost var fate;
    var merged;
    fate, steps, merged := MoveSeason(db, 1, 4);
    assert 3 in SameNumbered(SEASONED.items, 1, 4);
    SeasonFoldApartIff(db.origin, steps, db.Now(), 3, 4);
  }
}
