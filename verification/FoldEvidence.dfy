/** Which groups the reconciliation folds, told from confirmed ids, files and live references. */
module FoldEvidence {
  import opened Catalog
  import opened Duplicates
  import Grouping

  // ----- A show in two halves -----

  /** A live episode of the show on the source, with what the source says about its files. */
  ghost predicate LiveEpisode(t: Identity, show: nat, source: nat, r: Ref) {
    && r in t.refs && r.available && r.source == source && r.item in t.items && t.items[r.item].kind == Episode
    && exists season :: season in t.items && t.items[r.item].parent == Some(season) && t.items[season].parent == Some(show)
  }

  /** The source has live episodes of the show, and a file for every one of them. */
  ghost predicate EveryFileKnown(t: Identity, show: nat, source: nat) {
    && (exists r :: LiveEpisode(t, show, source, r))
    && forall r :: LiveEpisode(t, show, source, r) ==> exists p :: p in r.paths
  }

  /** The source has this file under an episode of the show. */
  ghost predicate HasFile(t: Identity, show: nat, source: nat, p: string) {
    exists r :: LiveEpisode(t, show, source, r) && p in r.paths
  }

  /** Source `s` has no live episode of one half, and has every file of both halves under the other. */
  ghost predicate HasBothUnder(t: Identity, whole: nat, none: nat, source: nat, s: nat) {
    && (forall r :: !LiveEpisode(t, none, s, r)) && EveryFileKnown(t, whole, s)
    && forall p :: HasFile(t, whole, source, p) || HasFile(t, none, source, p) ==> HasFile(t, whole, s, p)
  }

  /** The files of the two halves are all known, and one other source has them all under one of the two. */
  ghost predicate FilesProveOne(t: Identity, a: nat, b: nat, source: nat) {
    && EveryFileKnown(t, a, source) && EveryFileKnown(t, b, source)
    && exists s :: s in t.sources && s != source && (HasBothUnder(t, a, b, source, s) || HasBothUnder(t, b, a, source, s))
  }

  lemma EpisodeRefsAreLive(t: Identity, show: nat, source: nat)
    ensures forall r :: r in EpisodeRefs(t, show, source) <==> LiveEpisode(t, show, source, r)
    ensures FullyMapped(EpisodeRefs(t, show, source)) <==> EveryFileKnown(t, show, source)
    ensures forall p :: p in PathsOf(EpisodeRefs(t, show, source)) <==> HasFile(t, show, source, p)
  {
    var refs := EpisodeRefs(t, show, source);
    forall r
      ensures r in refs <==> LiveEpisode(t, show, source, r)
    {
    }
    forall r | r in refs
      ensures r.paths != {} <==> exists p :: p in r.paths
    {
    }
    if r :| LiveEpisode(t, show, source, r) {
      assert r in refs;
    }
    if refs != {} {
      var r :| r in refs;
      assert LiveEpisode(t, show, source, r);
    }
  }

  lemma AnchorIff(t: Identity, a: nat, b: nat, source: nat, s: nat)
    ensures AnchorsAt(t, a, b, s, PathsOf(EpisodeRefs(t, a, source)) + PathsOf(EpisodeRefs(t, b, source))) <==>
      HasBothUnder(t, a, b, source, s)
  {
    EpisodeRefsAreLive(t, a, source);
    EpisodeRefsAreLive(t, b, source);
    EpisodeRefsAreLive(t, a, s);
    EpisodeRefsAreLive(t, b, s);
    assert EpisodeRefs(t, b, s) == {} <==> forall r :: !LiveEpisode(t, b, s, r);
  }

  /** A show in two halves is proved one exactly by the files of its live episodes. */
  lemma SplitShowIff(t: Identity, items: seq<nat>, physical: bool, source: nat)
    ensures SplitShow(t, items, physical, source) <==>
      physical && |items| == 2 && items[0] in t.items && t.items[items[0]].kind == Show && FilesProveOne(t, items[0], items[1], source)
  {
    if |items| == 2 {
      var (a, b) := (items[0], items[1]);
      EpisodeRefsAreLive(t, a, source);
      EpisodeRefsAreLive(t, b, source);
      var (ours, theirs) := (PathsOf(EpisodeRefs(t, a, source)), PathsOf(EpisodeRefs(t, b, source)));
      assert ours + theirs == theirs + ours;
      forall s: nat
        ensures AnchorsAt(t, a, b, s, ours + theirs) <==> HasBothUnder(t, a, b, source, s)
        ensures AnchorsAt(t, b, a, s, ours + theirs) <==> HasBothUnder(t, b, a, source, s)
      {
        AnchorIff(t, a, b, source, s);
        AnchorIff(t, b, a, source, s);
      }
    }
  }

  // ----- A group -----

  /** Two different items of the group that are still there. */
  ghost predicate TwoOf(t: Identity, ids: seq<nat>, a: nat, b: nat) {
    a in ids && b in ids && a in t.items && b in t.items && a != b
  }

  /** Confirmed ids that differ, or for movies and tracks files that do, keep items apart. */
  ghost predicate MayBeOne(t: Identity, a: nat, b: nat)
    requires a in t.items && b in t.items
  {
    && !(Confirmed(t, a) && Confirmed(t, b) && t.items[a].manual != t.items[b].manual)
    && (t.items[a].kind in {Movie, Track} ==> !FilesApart(t, a, b))
  }

  /** One server has both live. */
  ghost predicate ListedTwice(t: Identity, a: nat, b: nat, s: nat) {
    HasRef(t, a, s, true) && HasRef(t, b, s, true)
  }

  /**
   A group is folded exactly if at least two items of it are left, nothing keeps two of them apart, some
   server knows one of them, and no server lists two, unless it has split a show in two halves, these
   are all that is left, and their files prove them one.
   */
  lemma FoldableIff(t: Identity, ids: seq<nat>, physical: bool)
    requires OneKind(t.items, ids)
    ensures Foldable(t, ids, physical) <==>
      && (exists a, b :: TwoOf(t, ids, a, b))
      && (forall a, b :: TwoOf(t, ids, a, b) ==> MayBeOne(t, a, b))
      && (exists a, s :: a in ids && a in t.items && HasRef(t, a, s, false))
      && (forall a, b, s :: TwoOf(t, ids, a, b) && ListedTwice(t, a, b, s) ==>
            physical && t.items[a].kind == Show && (forall c :: c in ids && c in t.items ==> c == a || c == b)
            && FilesProveOne(t, a, b, s))
  {
    var items := Present(t.items, ids);
    PresentIs(t.items, ids);
    PairsOfPresent(t, ids);
    PresentAlike(t, items);
    PresentOwned(t, items);
    PresentShared(t, items, physical);
  }

  lemma PairsOfPresent(t: Identity, ids: seq<nat>)
    requires OneKind(t.items, ids)
    ensures var items := Present(t.items, ids);
      && (forall a, b :: TwoOf(t, ids, a, b) <==> a in items && b in items && a != b)
      && (|items| >= 2 <==> exists a, b :: TwoOf(t, ids, a, b))
  {
    var items := Present(t.items, ids);
    PresentIs(t.items, ids);
    if |items| >= 2 {
      assert TwoOf(t, ids, items[0], items[1]);
    }
    if a, b :| TwoOf(t, ids, a, b) {
      assert a in items && b in items;
      var i :| 0 <= i < |items| && items[i] == a;
      var j :| 0 <= j < |items| && items[j] == b;
    }
  }

  /** The same test on two places of the list. */
  ghost predicate PlacesAgree(t: Identity, items: seq<nat>, i: nat, j: nat)
    requires Known(t, items) && i < |items| && j < |items|
  {
    var (x, y) := (items[i], items[j]);
    && (t.items[x].manual == "" || t.items[y].manual == "" || t.items[x].manual == t.items[y].manual)
    && (t.items[x].kind in {Movie, Track} ==>
          LivePaths(t, x) == {} || LivePaths(t, y) == {} || LivePaths(t, x) * LivePaths(t, y) != {})
  }

  lemma PlacesAgreeIff(t: Identity, items: seq<nat>, i: nat, j: nat)
    requires Known(t, items) && i < |items| && j < |items|
    ensures PlacesAgree(t, items, i, j) <==> MayBeOne(t, items[i], items[j])
  {
    FilesApartIff(t, items[i], items[j]);
  }

  lemma MayBeOneEitherWay(t: Identity, a: nat, b: nat)
    requires a in t.items && b in t.items && t.items[a].kind == t.items[b].kind
    ensures MayBeOne(t, a, b) <==> MayBeOne(t, b, a)
  {
  }

  lemma PlacesDecide(t: Identity, items: seq<nat>)
    requires OneKind(t.items, items) && Known(t, items)
    ensures ManualsAgree(t, items) && (items != [] && t.items[items[0]].kind in {Movie, Track} ==> PathsAgree(t, items)) <==>
      forall i: nat, j: nat :: i < j < |items| ==> PlacesAgree(t, items, i, j)
  {
    forall i | 0 <= i < |items|
      ensures t.items[items[i]].kind == t.items[items[0]].kind
    {
    }
    if forall i: nat, j: nat :: i < j < |items| ==> PlacesAgree(t, items, i, j) {
      forall i: nat, j: nat | i < j < |items|
        ensures var (x, y) := (t.items[items[i]].manual, t.items[items[j]].manual); x == "" || y == "" || x == y
      {
        assert PlacesAgree(t, items, i, j);
      }
      if items != [] && t.items[items[0]].kind in {Movie, Track} {
        forall i: nat, j: nat | i < j < |items|
          ensures var (x, y) := (LivePaths(t, items[i]), LivePaths(t, items[j])); x == {} || y == {} || x * y != {}
        {
          assert PlacesAgree(t, items, i, j);
        }
      }
    }
  }

  lemma PresentAlike(t: Identity, items: seq<nat>)
    requires OneKind(t.items, items) && Known(t, items)
    ensures ManualsAgree(t, items) && (items != [] && t.items[items[0]].kind in {Movie, Track} ==> PathsAgree(t, items)) <==>
      forall a, b :: a in items && b in items && a != b ==> MayBeOne(t, a, b)
  {
    PlacesDecide(t, items);
    forall i: nat, j: nat | i < j < |items|
      ensures PlacesAgree(t, items, i, j) <==> MayBeOne(t, items[i], items[j])
    {
      PlacesAgreeIff(t, items, i, j);
    }
    if forall i: nat, j: nat :: i < j < |items| ==> PlacesAgree(t, items, i, j) {
      forall a, b | a in items && b in items && a != b
        ensures MayBeOne(t, a, b)
      {
        var i: nat :| i < |items| && items[i] == a;
        var j: nat :| j < |items| && items[j] == b;
        MayBeOneEitherWay(t, a, b);
        assert if i < j then PlacesAgree(t, items, i, j) else PlacesAgree(t, items, j, i);
      }
    }
  }

  lemma PresentOwned(t: Identity, items: seq<nat>)
    ensures (exists i :: 0 <= i < |items| && AllSources(t, items[i]) != {}) <==> exists a, s :: a in items && HasRef(t, a, s, false)
  {
    forall a
      ensures AllSources(t, a) != {} <==> exists s :: HasRef(t, a, s, false)
    {
      SourcesTold(t, a);
    }
  }

  /** These two halves of a show are all that is left, and their files prove them one. */
  ghost predicate Excused(t: Identity, items: seq<nat>, physical: bool, s: nat, a: nat, b: nat)
    requires a in t.items
  {
    physical && t.items[a].kind == Show && (forall c :: c in items ==> c == a || c == b) && FilesProveOne(t, a, b, s)
  }

  lemma PresentShared(t: Identity, items: seq<nat>, physical: bool)
    requires OneKind(t.items, items) && Known(t, items)
    ensures (forall s: nat :: Shared(t, items, s) ==> SplitShow(t, items, physical, s)) <==>
      forall a, b, s :: a in items && b in items && a != b && ListedTwice(t, a, b, s) ==> Excused(t, items, physical, s, a, b)
  {
    forall s: nat
      ensures Shared(t, items, s) <==> exists a, b :: a in items && b in items && a != b && ListedTwice(t, a, b, s)
    {
      SharedIffListedTwice(t, items, s);
    }
    forall s: nat, a: nat, b: nat | a in items && b in items && a != b
      ensures SplitShow(t, items, physical, s) <==> Excused(t, items, physical, s, a, b)
    {
      SplitPairIff(t, items, physical, s, a, b);
    }
    if forall s: nat :: Shared(t, items, s) ==> SplitShow(t, items, physical, s) {
      forall a, b, s: nat | a in items && b in items && a != b && ListedTwice(t, a, b, s)
        ensures Excused(t, items, physical, s, a, b)
      {
        assert Shared(t, items, s);
      }
    }
    if forall a, b, s :: a in items && b in items && a != b && ListedTwice(t, a, b, s) ==> Excused(t, items, physical, s, a, b) {
      forall s: nat | Shared(t, items, s)
        ensures SplitShow(t, items, physical, s)
      {
        var a, b :| a in items && b in items && a != b && ListedTwice(t, a, b, s);
        assert Excused(t, items, physical, s, a, b);
      }
    }
  }

  lemma SharedIffListedTwice(t: Identity, items: seq<nat>, s: nat)
    requires Grouping.Distinct(items)
    ensures Shared(t, items, s) <==> exists a, b :: a in items && b in items && a != b && ListedTwice(t, a, b, s)
  {
    forall x
      ensures s in LiveSources(t, x) <==> HasRef(t, x, s, true)
    {
      SourcesTold(t, x);
    }
    if i: nat, j: nat :| i < j < |items| && BothLive(t, items, s, i, j) {
      assert ListedTwice(t, items[i], items[j], s);
    }
    if a, b :| a in items && b in items && a != b && ListedTwice(t, a, b, s) {
      var i: nat :| i < |items| && items[i] == a;
      var j: nat :| j < |items| && items[j] == b;
      assert if i < j then BothLive(t, items, s, i, j) else BothLive(t, items, s, j, i);
    }
  }

  lemma SplitPairIff(t: Identity, items: seq<nat>, physical: bool, s: nat, a: nat, b: nat)
    requires OneKind(t.items, items) && Known(t, items) && a in items && b in items && a != b
    ensures SplitShow(t, items, physical, s) <==> Excused(t, items, physical, s, a, b)
  {
    SplitShowIff(t, items, physical, s);
    OnlyTwo(items, a, b);
    if |items| == 2 {
      assert t.items[items[0]].kind == t.items[items[1]].kind;
      EitherHalf(t, a, b, s);
    }
  }

  lemma EitherHalf(t: Identity, a: nat, b: nat, s: nat)
    ensures FilesProveOne(t, a, b, s) <==> FilesProveOne(t, b, a, s)
  {
  }

  lemma OnlyTwo(items: seq<nat>, a: nat, b: nat)
    requires Grouping.Distinct(items) && a in items && b in items && a != b
    ensures |items| == 2 <==> forall c :: c in items ==> c == a || c == b
    ensures |items| == 2 ==> (items[0] == a && items[1] == b) || (items[0] == b && items[1] == a)
  {
    var i :| 0 <= i < |items| && items[i] == a;
    var j :| 0 <= j < |items| && items[j] == b;
    if |items| > 2 {
      var k := if i != 0 && j != 0 then 0 else if i != 1 && j != 1 then 1 else 2;
      assert items[k] in items && items[k] != a && items[k] != b;
    }
  }
}
