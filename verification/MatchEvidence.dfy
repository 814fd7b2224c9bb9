/**
 Why items travel together in a propagation, told from their files and ids: a file in common, or an id
 in common that no files contradict, and chains of these.
 */
module MatchEvidence {
  import opened Catalog
  import opened UnionFind
  import opened ItemGroups
  import opened Propagation
  import opened IncrementalScope

  predicate ShareFile(l: Library, a: nat, b: nat) {
    exists p :: a in l.files && p in l.files[a] && b in l.files && p in l.files[b]
  }

  /** Both have files, and none in common. */
  predicate FilesApart(l: Library, a: nat, b: nat) {
    && a in l.files && b in l.files && (exists p :: p in l.files[a]) && (exists p :: p in l.files[b])
    && forall p :: p in l.files[a] ==> p !in l.files[b]
  }

  ghost predicate Carries(l: Library, x: nat, provider: Provider, externalId: string) {
    x in l.kinds && (SameId(l.kinds[x], provider, externalId), x) in l.mentions
  }

  ghost predicate HaveOneId(l: Library, a: nat, b: nat) {
    exists provider, externalId :: Carries(l, a, provider, externalId) && Carries(l, b, provider, externalId)
  }

  ghost predicate Related(l: Library, a: nat, b: nat) {
    && a in l.items && b in l.items && a in l.kinds && b in l.kinds && l.kinds[a] == l.kinds[b]
    && (ShareFile(l, a, b) || (HaveOneId(l, a, b) && !FilesApart(l, a, b)))
  }

  ghost function Relations(l: Library): Edges {
    set a, b | a in l.items && b in l.items && Related(l, a, b) :: (a, b)
  }

  lemma ConflictIff(l: Library, a: nat, b: nat)
    ensures Conflict(l.files, a, b) <==> FilesApart(l, a, b)
  {
    var (x, y) := (FilesOf(l.files, a), FilesOf(l.files, b));
    assert x != {} <==> exists p :: p in x;
    assert y != {} <==> exists p :: p in y;
    if p :| p in x && p in y {
      assert p in x * y;
    }
  }

  lemma LinkIsRelated(l: Library, links: Edges, e: (nat, nat))
    requires Consistent(l) && IsLinks(l.mentions, l.files, |l.mentions|, links) && e in links
    ensures Related(l, e.0, e.1)
  {
    LinksByClue(l.mentions, l.files, e);
    var m :| CalledBy(l.mentions, l.files, m, e);
    FirstMentions(l.mentions, m.0);
    var o := FirstOf(l.mentions, m.0).value;
    MentionIsItem(l, m);
    MentionIsItem(l, (m.0, o));
    ConflictIff(l, o, m.1);
    match m.0
    case SameFile(kind, p) =>
      assert p in FilesOf(l.files, o) && p in FilesOf(l.files, m.1);
    case SameId(kind, provider, externalId) =>
      assert Carries(l, o, provider, externalId) && Carries(l, m.1, provider, externalId);
  }

  /** Whoever is in one group is connected by such relations; nothing else brings items together. */
  lemma GroupMatesAreRelated(l: Library, groups: seq<Group>, links: Edges, g: nat, a: nat, b: nat)
    requires Consistent(l) && AllGroups(l, groups, links) && g < |groups| && a in groups[g] && b in groups[g]
    ensures Connected(Relations(l), a, b)
  {
    forall e | e in links
      ensures e in Relations(l)
    {
      LinkIsRelated(l, links, e);
    }
    ConnectedMonotone(links, Relations(l), a, b);
  }

  lemma Together(l: Library, groups: seq<Group>, links: Edges, a: nat, b: nat)
    requires Consistent(l) && AllGroups(l, groups, links) && a in Synced(l) && b in Synced(l) && Connected(links, a, b)
    ensures exists g :: 0 <= g < |groups| && a in groups[g] && b in groups[g]
  {
    assert Listed(groups, a);
  }

  /** Movies, episodes and tracks have a watch state of their own. */
  ghost predicate OneKind(l: Library, a: nat, b: nat) {
    a in l.items && b in l.items && a in l.kinds && b in l.kinds && l.kinds[a] in {Movie, Episode, Track} && l.kinds[a] == l.kinds[b]
  }

  /** No other kind travels, and no two kinds together. */
  lemma GroupMatesAreOfOneKind(l: Library, groups: seq<Group>, links: Edges, g: nat, a: nat, b: nat)
    requires Consistent(l) && AllGroups(l, groups, links) && g < |groups| && a in groups[g] && b in groups[g]
    ensures OneKind(l, a, b)
  {
    assert b in l.items && Connected(links, a, b);
    var path :| IsPath(links, path, a, b);
    forall e | e in links
      ensures e.0 in l.kinds && e.1 in l.kinds && l.kinds[e.0] == l.kinds[e.1]
    {
      LinkIsRelated(l, links, e);
    }
    ConnectedKeepsLabel(links, l.kinds, path, a, b);
  }

  /** A file in common always does. */
  lemma FileMatesAreTogether(l: Library, groups: seq<Group>, links: Edges, a: nat, b: nat)
    requires Consistent(l) && AllGroups(l, groups, links) && OneKind(l, a, b) && ShareFile(l, a, b)
    ensures exists g :: 0 <= g < |groups| && a in groups[g] && b in groups[g]
  {
    var p :| p in l.files[a] && p in l.files[b];
    assert p in FilesOf(l.files, a) && p in FilesOf(l.files, b);
    SharedFileConnects(l, links, SameFile(l.kinds[a], p), a, b);
    Together(l, groups, links, a, b);
  }

  /** An id does where the files of none of its items contradict. */
  lemma IdMatesAreTogether(l: Library, groups: seq<Group>, links: Edges, provider: Provider, externalId: string, a: nat, b: nat)
    requires Consistent(l) && AllGroups(l, groups, links) && OneKind(l, a, b)
    requires Carries(l, a, provider, externalId) && Carries(l, b, provider, externalId)
    requires forall x, y :: Carries(l, x, provider, externalId) && Carries(l, y, provider, externalId) ==> !FilesApart(l, x, y)
    ensures exists g :: 0 <= g < |groups| && a in groups[g] && b in groups[g]
  {
    var c := SameId(l.kinds[a], provider, externalId);
    FirstOfIs(l.mentions, c);
    FirstMentions(l.mentions, c);
    var o := FirstOf(l.mentions, c).value;
    MentionIsItem(l, (c, o));
    assert Carries(l, o, provider, externalId);
    ConflictIff(l, o, a);
    ConflictIff(l, o, b);
    SharedIdConnects(l, links, c, a);
    SharedIdConnects(l, links, c, b);
    ConnectedSymmetric(links, b, o);
    ConnectedTransitive(links, a, o, b);
    Together(l, groups, links, a, b);
  }

  /** Of only two items exactly these two things decide. */
  lemma TwoItemsTogetherIff(l: Library, groups: seq<Group>, links: Edges, a: nat, b: nat)
    requires Consistent(l) && AllGroups(l, groups, links) && a != b && l.items == {a, b}
    requires OneKind(l, a, b)
    ensures (exists g :: 0 <= g < |groups| && a in groups[g] && b in groups[g]) <==>
      ShareFile(l, a, b) || (HaveOneId(l, a, b) && !FilesApart(l, a, b))
  {
    if ShareFile(l, a, b) {
      FileMatesAreTogether(l, groups, links, a, b);
    } else if HaveOneId(l, a, b) && !FilesApart(l, a, b) {
      var provider, externalId :| Carries(l, a, provider, externalId) && Carries(l, b, provider, externalId);
      forall x, y | Carries(l, x, provider, externalId) && Carries(l, y, provider, externalId)
        ensures !FilesApart(l, x, y)
      {
        MentionIsItem(l, (SameId(l.kinds[x], provider, externalId), x));
        MentionIsItem(l, (SameId(l.kinds[y], provider, externalId), y));
      }
      IdMatesAreTogether(l, groups, links, provider, externalId, a, b);
    } else if g :| 0 <= g < |groups| && a in groups[g] && b in groups[g] {
      GroupMatesAreRelated(l, groups, links, g, a, b);
      var path :| IsPath(Relations(l), path, a, b);
      var marks := map x | x in l.items :: x == a;
      assert !Related(l, a, b) && !Related(l, b, a);
      ConnectedKeepsLabel(Relations(l), marks, path, a, b);
      assert false;
    }
  }
}
