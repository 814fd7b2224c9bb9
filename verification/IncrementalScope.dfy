/**
 Between weekly full passes a propagation looks at recently changed items only, and forms its groups
 among these. Which scopes send what a full pass sends, and a completion that is lost on one that does not.
 */
module IncrementalScope {
  import opened Catalog
  import opened Playback
  import opened WatchStates
  import opened UnionFind
  import opened ItemGroups
  import opened Propagation

  // ----- The scope -----

  /** Microseconds. */
  const FULL_PASS_INTERVAL := 604_800_000_000

  /** When the last successful pass, and the last full one, began. */
  datatype Progress = Progress(cutoff: Option<int>, lastFull: Option<int>)

  predicate FullPassDue(p: Progress, now: int) {
    p.cutoff.None? || p.lastFull.None? || now - p.lastFull.value >= FULL_PASS_INTERVAL
  }

  /** The items a pass looks at: all, or those changed since the cutoff and those that share an id with one of them. */
  function ScopeOf(p: Progress, now: int, changes: map<nat, int>, ids: set<Identifier>): Option<set<nat>> {
    if FullPassDue(p, now) then None
    else
      var changed := set x | x in changes && changes[x] >= p.cutoff.value;
      Some(changed + set i, j | i in ids && j in ids && j.item in changed && i.provider == j.provider
                                && i.externalId == j.externalId :: i.item)
  }

  /** After a pass without failures. */
  function Advanced(p: Progress, now: int): Progress {
    Progress(Some(now), if FullPassDue(p, now) then Some(now) else p.lastFull)
  }

  /** A change at or after the beginning of one pass is in the scope of the next, which is full a week after the last full one. */
  lemma NoChangeIsForgotten(p: Progress, now: int, later: int, changes: map<nat, int>, ids: set<Identifier>, x: nat)
    requires x in changes && changes[x] >= now
    ensures var scope := ScopeOf(Advanced(p, now), later, changes, ids);
      && (scope.Some? ==> x in scope.value)
      && (scope.None? <==>
            later - (if FullPassDue(p, now) then now else p.lastFull.value) >= 7 * 24 * 3600 * 1_000_000)
    ensures FullPassDue(p, now) <==> p.cutoff == None || p.lastFull == None || p.lastFull.value + FULL_PASS_INTERVAL <= now
  {
  }

  /** The scope is what changed, and what shares an id with that, one step far. */
  lemma ScopeIff(p: Progress, now: int, changes: map<nat, int>, ids: set<Identifier>, x: nat)
    requires !FullPassDue(p, now)
    ensures x in ScopeOf(p, now, changes, ids).value <==>
      exists c :: c in changes && changes[c] >= p.cutoff.value && (c == x || ShareId(ids, x, c))
  {
    if c :| c in changes && changes[c] >= p.cutoff.value && c != x && ShareId(ids, x, c) {
      var i, j :| i in ids && j in ids && i.item == x && j.item == c && i.provider == j.provider && i.externalId == j.externalId;
    }
    if x in ScopeOf(p, now, changes, ids).value && !(x in changes && changes[x] >= p.cutoff.value) {
      var i, j :| i in ids && j in ids && j.item in changes && changes[j.item] >= p.cutoff.value
        && i.provider == j.provider && i.externalId == j.externalId && i.item == x;
      assert ShareId(ids, x, j.item);
    }
  }

  // ----- The groups of a scope -----

  /** The rows read for the items of the scope. */
  function Within(mentions: Mentions, scope: set<nat>): Mentions {
    if mentions == [] then []
    else
      var n := |mentions| - 1;
      Within(mentions[..n], scope) + if mentions[n].1 in scope then [mentions[n]] else []
  }

  lemma {:induction false} WithinIs(mentions: Mentions, scope: set<nat>)
    ensures forall m :: m in Within(mentions, scope) <==> m in mentions && m.1 in scope
  {
    if mentions != [] {
      var n := |mentions| - 1;
      WithinIs(mentions[..n], scope);
      assert mentions == mentions[..n] + [mentions[n]];
    }
  }

  /** Groups are formed among the items of the scope, as if there were no others. */
  method GroupsInScope(items: set<nat>, kinds: map<nat, Kind>, mentions: Mentions, files: Files, scope: set<nat>)
      returns (groups: seq<seq<nat>>, ghost links: Edges)
    requires items <= kinds.Keys && KindsNamed(kinds, items, mentions)
    ensures IsGrouping(groups, links, items * scope, kinds, Within(mentions, scope), files)
  {
    WithinIs(mentions, scope);
    var rows := Within(mentions, scope);
    forall i | 0 <= i < |rows|
      ensures rows[i].1 in items * scope && rows[i].0.kind == kinds[rows[i].1]
    {
      assert rows[i] in rows && rows[i] in mentions;
      var j :| 0 <= j < |mentions| && mentions[j] == rows[i];
    }
    groups, links := MatchingGroups(items * scope, kinds, rows, files);
  }

  // ----- Links by clue -----

  /** The first item that mentions the clue. */
  function FirstOf(mentions: Mentions, c: Clue): Option<nat> {
    if mentions == [] then None
    else
      var n := |mentions| - 1;
      var first := FirstOf(mentions[..n], c);
      if first.Some? then first else if mentions[n].0 == c then Some(mentions[n].1) else None
  }

  lemma {:induction false} FirstOfIs(mentions: Mentions, c: Clue)
    ensures FirstOf(mentions, c).None? <==> forall m :: m in mentions ==> m.0 != c
    ensures FirstOf(mentions, c).Some? ==>
      exists j: nat :: IsFirst(mentions, j, j) && mentions[j] == (c, FirstOf(mentions, c).value)
  {
    if mentions != [] {
      var n := |mentions| - 1;
      var front := mentions[..n];
      FirstOfIs(front, c);
      assert mentions == front + [mentions[n]];
      if FirstOf(front, c).Some? {
        var j: nat :| IsFirst(front, j, j) && front[j] == (c, FirstOf(front, c).value);
        assert forall h :: 0 <= h < j ==> mentions[h] == front[h];
        assert IsFirst(mentions, j, j) && mentions[j] == front[j];
      } else if mentions[n].0 == c {
        forall h | 0 <= h < n
          ensures mentions[h].0 != c
        {
          assert mentions[h] == front[h] && front[h] in front;
        }
        assert IsFirst(mentions, n, n);
      }
    }
  }

  /** A row calls for its link, with the first item of its clue. */
  ghost predicate CalledBy(mentions: Mentions, files: Files, m: (Clue, nat), e: (nat, nat)) {
    m in mentions && FirstOf(mentions, m.0).Some? && e in Added(files, m, FirstOf(mentions, m.0).value)
  }

  lemma LinksByClue(mentions: Mentions, files: Files, e: (nat, nat))
    ensures CalledUpTo(mentions, files, |mentions|, e) <==> exists m :: CalledBy(mentions, files, m, e)
  {
    forall i: nat | i < |mentions|
      ensures Calls(mentions, files, i, e) <==> CalledBy(mentions, files, mentions[i], e)
    {
      CallsIsCalledBy(mentions, files, i, e);
    }
    if m :| CalledBy(mentions, files, m, e) {
      var i :| 0 <= i < |mentions| && mentions[i] == m;
      assert Calls(mentions, files, i, e);
    }
    if i: nat :| i < |mentions| && Calls(mentions, files, i, e) {
      assert CalledBy(mentions, files, mentions[i], e);
    }
  }

  lemma CallsIsCalledBy(mentions: Mentions, files: Files, i: nat, e: (nat, nat))
    requires i < |mentions|
    ensures Calls(mentions, files, i, e) <==> CalledBy(mentions, files, mentions[i], e)
  {
    var c := mentions[i].0;
    FirstOfIs(mentions, c);
    assert mentions[i] in mentions;
    var j: nat :| IsFirst(mentions, j, j) && mentions[j] == (c, FirstOf(mentions, c).value);
    assert j <= i;
    forall h: nat | IsFirst(mentions, h, i)
      ensures h == j
    {
    }
    assert IsFirst(mentions, j, i);
  }

  /** If the scope has the first item that mentions a clue, it is the first in the scope, too. */
  lemma {:induction false} FirstInScope(mentions: Mentions, scope: set<nat>, c: Clue)
    requires FirstOf(mentions, c).Some? && FirstOf(mentions, c).value in scope
    ensures FirstOf(Within(mentions, scope), c) == FirstOf(mentions, c)
  {
    var n := |mentions| - 1;
    var front := mentions[..n];
    if FirstOf(front, c).Some? {
      FirstInScope(front, scope, c);
      if mentions[n].1 in scope {
        AppendKeepsFirst(Within(front, scope), mentions[n], c);
      } else {
        assert Within(mentions, scope) == Within(front, scope);
      }
    } else {
      WithinIs(front, scope);
      FirstOfIs(front, c);
      FirstOfIs(Within(front, scope), c);
      AppendKeepsFirst(Within(front, scope), mentions[n], c);
    }
  }

  lemma AppendKeepsFirst(rows: Mentions, m: (Clue, nat), c: Clue)
    ensures FirstOf(rows + [m], c) == if FirstOf(rows, c).Some? then FirstOf(rows, c) else if m.0 == c then Some(m.1) else None
  {
    assert (rows + [m])[..|rows|] == rows;
  }

  // ----- Scopes that cover whole groups -----

  /** The files of an item are the paths it mentions. */
  ghost predicate FilesNamed(kinds: map<nat, Kind>, items: set<nat>, mentions: Mentions, files: Files)
    requires items <= kinds.Keys
  {
    forall x, p :: x in items ==> (p in FilesOf(files, x) <==> (SameFile(kinds[x], p), x) in mentions)
  }

  /** What a pass works on: the items, and what they have in common. */
  datatype Library = Library(items: set<nat>, kinds: map<nat, Kind>, mentions: Mentions, files: Files)

  ghost predicate Consistent(l: Library) {
    && l.items <= l.kinds.Keys && KindsNamed(l.kinds, l.items, l.mentions)
    && FilesNamed(l.kinds, l.items, l.mentions, l.files)
  }

  function Synced(l: Library): set<nat>
    requires l.items <= l.kinds.Keys
  {
    set x | x in l.items && Syncable(l.kinds[x])
  }

  ghost predicate AllGroups(l: Library, groups: seq<Group>, links: Edges)
    requires Consistent(l)
  {
    IsGrouping(groups, links, l.items, l.kinds, l.mentions, l.files)
  }

  ghost predicate ScopeGroups(l: Library, scope: set<nat>, groups: seq<Group>, links: Edges)
    requires Consistent(l)
  {
    IsGrouping(groups, links, l.items * scope, l.kinds, Within(l.mentions, scope), l.files)
  }

  /** Whoever is connected to an item in the scope is in it. */
  ghost predicate Covers(l: Library, scope: set<nat>, links: Edges)
    requires Consistent(l)
  {
    forall a, b :: a in Synced(l) && b in Synced(l) && a in scope && Connected(links, a, b) ==> b in scope
  }

  lemma MentionIsItem(l: Library, m: (Clue, nat))
    requires Consistent(l) && m in l.mentions
    ensures m.1 in l.items && m.0.kind == l.kinds[m.1]
  {
    var i :| 0 <= i < |l.mentions| && l.mentions[i] == m;
  }

  lemma EdgeOf(l: Library, links: Edges, m: (Clue, nat), e: (nat, nat))
    requires Consistent(l) && IsLinks(l.mentions, l.files, |l.mentions|, links) && CalledBy(l.mentions, l.files, m, e)
    ensures e in links
  {
    LinksByClue(l.mentions, l.files, e);
  }

  /** Items that mention one file are connected. */
  lemma SharedFileConnects(l: Library, links: Edges, c: Clue, a: nat, b: nat)
    requires Consistent(l) && IsLinks(l.mentions, l.files, |l.mentions|, links)
    requires c.SameFile? && (c, a) in l.mentions && (c, b) in l.mentions
    ensures Connected(links, a, b)
  {
    FirstOfIs(l.mentions, c);
    var o := FirstOf(l.mentions, c).value;
    EdgeOf(l, links, (c, a), (o, a));
    EdgeOf(l, links, (c, b), (o, b));
    ConnectedByEdge(links, a, o);
    ConnectedByEdge(links, o, b);
    ConnectedTransitive(links, a, o, b);
  }

  /** Items that share an id, and have no conflict with its first item, are connected to that. */
  lemma SharedIdConnects(l: Library, links: Edges, c: Clue, a: nat)
    requires Consistent(l) && IsLinks(l.mentions, l.files, |l.mentions|, links)
    requires c.SameId? && (c, a) in l.mentions && FirstOf(l.mentions, c).Some? && !Conflict(l.files, FirstOf(l.mentions, c).value, a)
    ensures Connected(links, a, FirstOf(l.mentions, c).value)
  {
    EdgeOf(l, links, (c, a), (a, FirstOf(l.mentions, c).value));
    ConnectedByEdge(links, a, FirstOf(l.mentions, c).value);
  }

  /** Without conflict, two items that both conflict with a third have a file in common. */
  lemma CommonFile(l: Library, o: nat, a: nat, b: nat) returns (p: string)
    requires Conflict(l.files, o, a) && Conflict(l.files, o, b) && !Conflict(l.files, a, b)
    ensures p in FilesOf(l.files, a) && p in FilesOf(l.files, b)
  {
    p :| p in FilesOf(l.files, a) * FilesOf(l.files, b);
  }

  /** A link formed within a covering scope connects what was connected anyway. */
  lemma ScopeLinkIsConnected(l: Library, scope: set<nat>, links: Edges, m: (Clue, nat), e: (nat, nat))
    requires Consistent(l) && IsLinks(l.mentions, l.files, |l.mentions|, links) && Covers(l, scope, links)
    requires CalledBy(Within(l.mentions, scope), l.files, m, e) && Syncable(m.0.kind)
    ensures Connected(links, e.0, e.1)
  {
    var (c, y) := m;
    WithinIs(l.mentions, scope);
    FirstOfIs(l.mentions, c);
    FirstOfIs(Within(l.mentions, scope), c);
    var (o, x) := (FirstOf(l.mentions, c).value, FirstOf(Within(l.mentions, scope), c).value);
    FirstMentions(Within(l.mentions, scope), c);
    FirstMentions(l.mentions, c);
    assert (c, x) in l.mentions && x in scope && (c, y) in l.mentions && y in scope && (c, o) in l.mentions;
    if c.SameFile? {
      SharedFileConnects(l, links, c, x, y);
      assert e == (x, y);
    } else {
      assert e == (y, x) && !Conflict(l.files, x, y);
      SharedIdInScope(l, scope, links, c, o, x, y);
    }
  }

  lemma FirstMentions(mentions: Mentions, c: Clue)
    requires FirstOf(mentions, c).Some?
    ensures (c, FirstOf(mentions, c).value) in mentions
  {
    FirstOfIs(mentions, c);
  }

  lemma SharedIdInScope(l: Library, scope: set<nat>, links: Edges, c: Clue, o: nat, x: nat, y: nat)
    requires Consistent(l) && IsLinks(l.mentions, l.files, |l.mentions|, links) && Covers(l, scope, links)
    requires c.SameId? && Syncable(c.kind) && (c, x) in l.mentions && (c, y) in l.mentions && x in scope && y in scope
    requires FirstOf(l.mentions, c) == Some(o) && FirstOf(Within(l.mentions, scope), c) == Some(x)
    requires !Conflict(l.files, x, y)
    ensures Connected(links, y, x)
  {
    MentionIsItem(l, (c, x));
    MentionIsItem(l, (c, y));
    FirstMentions(l.mentions, c);
    MentionIsItem(l, (c, o));
    if Conflict(l.files, o, x) && Conflict(l.files, o, y) {
      var p := CommonFile(l, o, x, y);
      SharedFileConnects(l, links, SameFile(c.kind, p), y, x);
    } else {
      if !Conflict(l.files, o, x) {
        SharedIdConnects(l, links, c, x);
      } else {
        SharedIdConnects(l, links, c, y);
      }
      assert o in scope;
      FirstInScope(l.mentions, scope, c);
      assert o == x;
      SharedIdConnects(l, links, c, y);
    }
  }

  /** Every link of an item in a covering scope is formed within the scope as well. */
  lemma LinkIsInScope(l: Library, scope: set<nat>, links: Edges, part: Edges, e: (nat, nat))
    requires Consistent(l) && IsLinks(l.mentions, l.files, |l.mentions|, links) && Covers(l, scope, links)
    requires IsLinks(Within(l.mentions, scope), l.files, |Within(l.mentions, scope)|, part)
    requires e in links && (e.0 in scope || e.1 in scope) && (e.0 in Synced(l) || e.1 in Synced(l))
    ensures e in part && e.0 in scope && e.1 in scope && e.0 in Synced(l) && e.1 in Synced(l)
  {
    LinksByClue(l.mentions, l.files, e);
    var m :| CalledBy(l.mentions, l.files, m, e);
    FirstMentions(l.mentions, m.0);
    var o := FirstOf(l.mentions, m.0).value;
    MentionIsItem(l, m);
    MentionIsItem(l, (m.0, o));
    ConnectedByEdge(links, e.0, e.1);
    ConnectedByEdge(links, e.1, e.0);
    assert e.0 in scope && e.1 in scope;
    FirstInScope(l.mentions, scope, m.0);
    WithinIs(l.mentions, scope);
    assert CalledBy(Within(l.mentions, scope), l.files, m, e);
    LinksByClue(Within(l.mentions, scope), l.files, e);
  }

  lemma {:induction false} PathIsInScope(l: Library, scope: set<nat>, links: Edges, part: Edges, path: seq<nat>, a: nat, b: nat)
    requires Consistent(l) && IsLinks(l.mentions, l.files, |l.mentions|, links) && Covers(l, scope, links)
    requires IsLinks(Within(l.mentions, scope), l.files, |Within(l.mentions, scope)|, part)
    requires IsPath(links, path, a, b) && a in scope && a in Synced(l)
    ensures Connected(part, a, b)
    decreases |path|
  {
    if |path| == 1 {
      ConnectedReflexive(part, a);
    } else {
      var (next, rest) := (path[1], path[1..]);
      assert Adjacent(links, path[0], path[1]);
      var e := if (a, next) in links then (a, next) else (next, a);
      LinkIsInScope(l, scope, links, part, e);
      ConnectedByEdge(part, a, next);
      forall i | 0 < i < |rest|
        ensures Adjacent(links, rest[i - 1], rest[i])
      {
        assert Adjacent(links, path[i], path[i + 1]);
      }
      PathIsInScope(l, scope, links, part, rest, next, b);
      ConnectedTransitive(part, a, next, b);
    }
  }

  lemma EndsOf(l: Library, rows: Mentions, m: (Clue, nat), e: (nat, nat))
    requires Consistent(l) && CalledBy(rows, l.files, m, e) && forall r :: r in rows ==> r in l.mentions
    ensures e.0 in l.items && e.1 in l.items && l.kinds[e.0] == m.0.kind == l.kinds[e.1]
  {
    FirstMentions(rows, m.0);
    MentionIsItem(l, m);
    MentionIsItem(l, (m.0, FirstOf(rows, m.0).value));
  }

  lemma {:induction false} ScopePathIsConnected(l: Library, scope: set<nat>, links: Edges, part: Edges, path: seq<nat>, a: nat, b: nat)
    requires Consistent(l) && IsLinks(l.mentions, l.files, |l.mentions|, links) && Covers(l, scope, links)
    requires IsLinks(Within(l.mentions, scope), l.files, |Within(l.mentions, scope)|, part)
    requires IsPath(part, path, a, b) && a in Synced(l)
    ensures Connected(links, a, b)
    decreases |path|
  {
    if |path| == 1 {
      ConnectedReflexive(links, a);
    } else {
      var (next, rest) := (path[1], path[1..]);
      assert Adjacent(part, path[0], path[1]);
      var e := if (a, next) in part then (a, next) else (next, a);
      LinksByClue(Within(l.mentions, scope), l.files, e);
      var m :| CalledBy(Within(l.mentions, scope), l.files, m, e);
      WithinIs(l.mentions, scope);
      EndsOf(l, Within(l.mentions, scope), m, e);
      ScopeLinkIsConnected(l, scope, links, m, e);
      ConnectedSymmetric(links, e.0, e.1);
      forall i | 0 < i < |rest|
        ensures Adjacent(part, rest[i - 1], rest[i])
      {
        assert Adjacent(part, path[i], path[i + 1]);
      }
      ScopePathIsConnected(l, scope, links, part, rest, next, b);
      ConnectedTransitive(links, a, next, b);
    }
  }

  /** Within a covering scope the same items are connected. */
  lemma ScopeConnectsAlike(l: Library, scope: set<nat>, links: Edges, part: Edges, a: nat, b: nat)
    requires Consistent(l) && IsLinks(l.mentions, l.files, |l.mentions|, links) && Covers(l, scope, links)
    requires IsLinks(Within(l.mentions, scope), l.files, |Within(l.mentions, scope)|, part)
    requires a in scope && a in Synced(l)
    ensures Connected(part, a, b) <==> Connected(links, a, b)
  {
    if Connected(part, a, b) {
      var path :| IsPath(part, path, a, b);
      ScopePathIsConnected(l, scope, links, part, path, a, b);
    }
    if Connected(links, a, b) {
      var path :| IsPath(links, path, a, b);
      PathIsInScope(l, scope, links, part, path, a, b);
    }
  }

  // ----- Groups that the scope keeps -----

  predicate Touches(g: Group, scope: set<nat>) {
    exists x :: x in g && x in scope
  }

  ghost predicate SameMembers(g: Group, h: Group) {
    forall x: nat :: x in g <==> x in h
  }

  ghost predicate KeptIn(g: Group, groups: seq<Group>) {
    exists j :: 0 <= j < |groups| && SameMembers(g, groups[j])
  }

  /** A group the scope touches is in it as a whole. */
  ghost predicate CoversGroups(full: seq<Group>, scope: set<nat>) {
    forall i, x, y :: 0 <= i < |full| && x in full[i] && x in scope && y in full[i] ==> y in scope
  }

  /** A group the scope touches is a group of the scope. */
  ghost predicate KeepsGroups(full: seq<Group>, part: seq<Group>, scope: set<nat>) {
    forall i :: 0 <= i < |full| && Touches(full[i], scope) ==> KeptIn(full[i], part)
  }

  lemma CoversByGroups(l: Library, scope: set<nat>, full: seq<Group>, links: Edges)
    requires Consistent(l) && AllGroups(l, full, links) && CoversGroups(full, scope)
    ensures Covers(l, scope, links)
  {
    forall a, b | a in Synced(l) && b in Synced(l) && a in scope && Connected(links, a, b)
      ensures b in scope
    {
      assert Listed(full, a);
      var g :| 0 <= g < |full| && a in full[g];
      assert b in full[g];
    }
  }

  /** A scope that covers the groups it touches keeps exactly these groups. */
  lemma KeepsGroupsIff(l: Library, scope: set<nat>, full: seq<Group>, links: Edges, part: seq<Group>, within: Edges)
    requires Consistent(l) && AllGroups(l, full, links) && ScopeGroups(l, scope, part, within)
    ensures KeepsGroups(full, part, scope) <==> CoversGroups(full, scope)
  {
    if CoversGroups(full, scope) {
      CoversByGroups(l, scope, full, links);
      forall i | 0 <= i < |full| && Touches(full[i], scope)
        ensures KeptIn(full[i], part)
      {
        var x :| x in full[i] && x in scope;
        assert Listed(part, x);
        var j :| 0 <= j < |part| && x in part[j];
        SameGroupInScope(l, scope, full, links, part, within, i, j, x);
      }
    }
    if KeepsGroups(full, part, scope) {
      forall i, x, y | 0 <= i < |full| && x in full[i] && x in scope && y in full[i]
        ensures y in scope
      {
        assert Touches(full[i], scope);
        var j :| 0 <= j < |part| && SameMembers(full[i], part[j]);
        assert y in part[j];
        assert y in l.items * scope;
      }
    }
  }

  lemma SameGroupInScope(l: Library, scope: set<nat>, full: seq<Group>, links: Edges, part: seq<Group>, within: Edges,
                         i: nat, j: nat, x: nat)
    requires Consistent(l) && AllGroups(l, full, links) && ScopeGroups(l, scope, part, within) && CoversGroups(full, scope)
    requires i < |full| && j < |part| && x in full[i] && x in part[j]
    ensures SameMembers(full[i], part[j])
  {
    CoversByGroups(l, scope, full, links);
    assert x in l.items * scope && x in Synced(l);
    forall y: nat
      ensures y in full[i] <==> y in part[j]
    {
      ScopeConnectsAlike(l, scope, links, within, x, y);
    }
  }

  // ----- The decision depends on the members only -----

  lemma {:induction false} DatesCover(w: World, t: Table, g: Group, source: nat, x: nat)
    requires x in g
    ensures NotBefore(Watched(w, t, (x, source)), WatchedIn(w, t, g, source))
    ensures NotBefore(CompletionDate(w, t, (x, source)), CompletionDateIn(w, t, g, source))
    ensures NotBefore(PlaybackDate(w, t, (x, source)), PlaybackDateIn(w, t, g, source))
    ensures Position(t, (x, source)) <= PositionIn(t, g, source)
    decreases |g|
  {
    if x != g[0] {
      assert x in g[1..];
      DatesCover(w, t, g[1..], source, x);
    }
  }

  lemma {:induction false} FewerMembersFewerDates(w: World, t: Table, g: Group, h: Group, source: nat)
    requires forall x: nat :: x in g ==> x in h
    ensures NotBefore(WatchedIn(w, t, g, source), WatchedIn(w, t, h, source))
    ensures NotBefore(CompletionDateIn(w, t, g, source), CompletionDateIn(w, t, h, source))
    ensures NotBefore(PlaybackDateIn(w, t, g, source), PlaybackDateIn(w, t, h, source))
    ensures PositionIn(t, g, source) <= PositionIn(t, h, source)
    decreases |g|
  {
    if g != [] {
      assert g[0] in g;
      DatesCover(w, t, h, source, g[0]);
      FewerMembersFewerDates(w, t, g[1..], h, source);
    }
  }

  lemma SameMembersSameDecision(w: World, t: Table, direction: Connector, g: Group, h: Group)
    requires SameMembers(g, h)
    ensures Decide(w, t, direction, g) == Decide(w, t, direction, h)
  {
    FewerMembersFewerDates(w, t, g, h, w.plex);
    FewerMembersFewerDates(w, t, h, g, w.plex);
    FewerMembersFewerDates(w, t, g, h, w.jellyfin);
    FewerMembersFewerDates(w, t, h, g, w.jellyfin);
    assert LiveItems(w, g, w.plex) == LiveItems(w, h, w.plex) && LiveItems(w, g, w.jellyfin) == LiveItems(w, h, w.jellyfin);
  }

  // ----- A pass over the scope -----

  lemma {:induction false} CandidatesAre(w: World, t: Table, direction: Connector, groups: seq<Group>, c: Candidate)
    ensures c in Candidates(w, t, direction, groups) <==>
      exists i :: 0 <= i < |groups| && Decide(w, t, direction, groups[i]) == Some(c)
  {
    if groups != [] {
      var n := |groups| - 1;
      var front := groups[..n];
      CandidatesAre(w, t, direction, front, c);
      if i :| 0 <= i < |front| && Decide(w, t, direction, front[i]) == Some(c) {
        assert groups[i] == front[i];
      }
      if i :| 0 <= i < |groups| && Decide(w, t, direction, groups[i]) == Some(c) {
        assert i < n ==> front[i] == groups[i];
      }
    }
  }

  /** Both passes send the same, in whatever order. */
  ghost predicate SendsSame(w: World, t: Table, direction: Connector, full: seq<Group>, part: seq<Group>) {
    forall c :: c in Candidates(w, t, direction, full) <==> c in Candidates(w, t, direction, part)
  }

  /** If nothing was to be sent for the groups outside the scope, and they are unchanged, the pass over the scope is enough. */
  ghost predicate ScopeIsEnough(w: World, earlier: Table, t: Table, direction: Connector, full: seq<Group>, part: seq<Group>,
                                scope: set<nat>) {
    w.plex != w.jellyfin
    && (forall i :: 0 <= i < |full| && !Touches(full[i], scope) ==> QuietSince(w, earlier, t, direction, full[i]))
    ==> SendsSame(w, t, direction, full, part)
  }

  /** The groups of the scope partition what of the items is in it. */
  ghost predicate Partitions(full: seq<Group>, part: seq<Group>, scope: set<nat>) {
    && Separate(full) && Separate(part)
    && (forall x: nat {:trigger Listed(part, x)} :: Listed(part, x) <==> Listed(full, x) && x in scope)
  }

  lemma GroupsPartition(l: Library, scope: set<nat>, full: seq<Group>, links: Edges, part: seq<Group>, within: Edges)
    requires Consistent(l) && AllGroups(l, full, links) && ScopeGroups(l, scope, part, within)
    ensures Partitions(full, part, scope)
  {
    forall x: nat
      ensures Listed(part, x) <==> Listed(full, x) && x in scope
    {
    }
  }

  lemma KeptGroupsSendSame(w: World, earlier: Table, t: Table, direction: Connector, full: seq<Group>, part: seq<Group>, scope: set<nat>)
    requires Partitions(full, part, scope) && KeepsGroups(full, part, scope)
    ensures ScopeIsEnough(w, earlier, t, direction, full, part, scope)
  {
    if forall i :: 0 <= i < |full| && !Touches(full[i], scope) ==> QuietSince(w, earlier, t, direction, full[i]) {
      forall c
        ensures c in Candidates(w, t, direction, full) <==> c in Candidates(w, t, direction, part)
      {
        CandidatesAre(w, t, direction, full, c);
        CandidatesAre(w, t, direction, part, c);
        if i :| 0 <= i < |full| && Decide(w, t, direction, full[i]) == Some(c) {
          KeptGroupSends(w, earlier, t, direction, full, part, scope, i);
        }
        if j :| 0 <= j < |part| && Decide(w, t, direction, part[j]) == Some(c) {
          ScopeGroupIsKept(w, t, direction, full, part, scope, j);
        }
      }
    }
  }

  lemma KeptGroupSends(w: World, earlier: Table, t: Table, direction: Connector, full: seq<Group>, part: seq<Group>,
                       scope: set<nat>, i: nat)
    requires KeepsGroups(full, part, scope) && i < |full| && Decide(w, t, direction, full[i]).Some?
    requires !Touches(full[i], scope) ==> QuietSince(w, earlier, t, direction, full[i])
    ensures exists j :: 0 <= j < |part| && Decide(w, t, direction, part[j]) == Decide(w, t, direction, full[i])
  {
    if Touches(full[i], scope) {
      var j :| 0 <= j < |part| && SameMembers(full[i], part[j]);
      SameMembersSameDecision(w, t, direction, full[i], part[j]);
    } else {
      QuietSinceIsQuiet(w, earlier, t, direction, full[i]);
    }
  }

  lemma ScopeGroupIsKept(w: World, t: Table, direction: Connector, full: seq<Group>, part: seq<Group>, scope: set<nat>, j: nat)
    requires Partitions(full, part, scope) && KeepsGroups(full, part, scope)
    requires j < |part| && Decide(w, t, direction, part[j]).Some?
    ensures exists i :: 0 <= i < |full| && Decide(w, t, direction, full[i]) == Decide(w, t, direction, part[j])
  {
    var x :| x in LiveItems(w, part[j], w.plex);
    assert Listed(part, x);
    var i :| 0 <= i < |full| && x in full[i];
    assert Touches(full[i], scope);
    var k :| 0 <= k < |part| && SameMembers(full[i], part[k]);
    assert k == j;
    SameMembersSameDecision(w, t, direction, full[i], part[j]);
  }

  // ----- And when it is not enough -----

  /** One item is on the sending server only, the other on the receiving one only. */
  function OneEach(direction: Connector, x: nat, y: nat): World {
    if direction == Plex then World(1, 2, {(x, 1), (y, 2)}, map[]) else World(1, 2, {(x, 2), (y, 1)}, map[])
  }

  function SeenThere(direction: Connector, x: nat): Table {
    map[(x, if direction == Plex then 1 else 2) := State(1, true, Some(0), Some(0), None, 0)]
  }

  /** The completion is sent for exactly the groups that hold both items. */
  lemma SentIffTogether(direction: Connector, x: nat, y: nat, g: Group)
    requires x != y
    ensures Decide(OneEach(direction, x, y), SeenThere(direction, x), direction, g).Some? <==> x in g && y in g
  {
    var (w, t) := (OneEach(direction, x, y), SeenThere(direction, x));
    var (from, target) := (SourceOf(w, direction), OtherOf(w, direction));
    WatchedInSome(w, t, g, from);
    WatchedInSome(w, t, g, target);
    assert Watched(w, t, (x, from)).Some?;
    assert LiveItems(w, g, from) == (if x in g then {x} else {}) && LiveItems(w, g, target) == if y in g then {y} else {};
  }

  lemma TogetherIsSent(direction: Connector, x: nat, y: nat, groups: seq<Group>)
    requires x != y
    ensures Candidates(OneEach(direction, x, y), SeenThere(direction, x), direction, groups) != [] <==>
      exists i :: 0 <= i < |groups| && x in groups[i] && y in groups[i]
  {
    var (w, t) := (OneEach(direction, x, y), SeenThere(direction, x));
    forall i | 0 <= i < |groups|
      ensures Decide(w, t, direction, groups[i]).Some? <==> x in groups[i] && y in groups[i]
    {
      SentIffTogether(direction, x, y, groups[i]);
    }
    var cs := Candidates(w, t, direction, groups);
    if cs != [] {
      assert cs[0] in cs;
      CandidatesAre(w, t, direction, groups, cs[0]);
    }
    if i :| 0 <= i < |groups| && x in groups[i] && y in groups[i] {
      CandidatesAre(w, t, direction, groups, Decide(w, t, direction, groups[i]).value);
    }
  }

  /** Two items together here and apart there: a completion is sent by one pass and not by the other. */
  lemma TornGroupIsNotEnough(direction: Connector, full: seq<Group>, part: seq<Group>, scope: set<nat>, x: nat, y: nat)
    requires x != y && x in scope
    requires !((exists i :: 0 <= i < |full| && x in full[i] && y in full[i])
           <==> (exists j :: 0 <= j < |part| && x in part[j] && y in part[j]))
    ensures var (w, t) := (OneEach(direction, x, y), SeenThere(direction, x));
      !ScopeIsEnough(w, t, t, direction, full, part, scope)
  {
    var (w, t) := (OneEach(direction, x, y), SeenThere(direction, x));
    TogetherIsSent(direction, x, y, full);
    TogetherIsSent(direction, x, y, part);
    forall i | 0 <= i < |full| && !Touches(full[i], scope)
      ensures QuietSince(w, t, t, direction, full[i])
    {
      SentIffTogether(direction, x, y, full[i]);
    }
    var (a, b) := (Candidates(w, t, direction, full), Candidates(w, t, direction, part));
    assert (a != [] ==> a[0] in a) && (b != [] ==> b[0] in b);
  }

  ghost predicate ScopeIsAlwaysEnough(direction: Connector, full: seq<Group>, part: seq<Group>, scope: set<nat>) {
    forall w, earlier, t :: ScopeIsEnough(w, earlier, t, direction, full, part, scope)
  }

  lemma LostGroupIsNotEnough(direction: Connector, full: seq<Group>, part: seq<Group>, scope: set<nat>, i: nat)
    requires Partitions(full, part, scope) && i < |full| && Touches(full[i], scope) && !KeptIn(full[i], part)
    ensures !ScopeIsAlwaysEnough(direction, full, part, scope)
  {
    var x :| x in full[i] && x in scope;
    assert Listed(full, x);
    assert Listed(part, x);
    var j :| 0 <= j < |part| && x in part[j];
    assert !SameMembers(full[i], part[j]);
    var y: nat :| (y in full[i]) != (y in part[j]);
    assert forall k :: 0 <= k < |full| && x in full[k] ==> k == i;
    assert forall k :: 0 <= k < |part| && x in part[k] ==> k == j;
    TornGroupIsNotEnough(direction, full, part, scope, x, y);
  }

  /**
   A pass over the scope sends, in every world and whatever was recorded, what a full pass sends,
   exactly if the scope covers every group it touches.
   */
  lemma ScopedPassIsFullPassIff(l: Library, scope: set<nat>, direction: Connector, full: seq<Group>, links: Edges,
                                part: seq<Group>, within: Edges)
    requires Consistent(l) && AllGroups(l, full, links) && ScopeGroups(l, scope, part, within)
    ensures ScopeIsAlwaysEnough(direction, full, part, scope) <==> CoversGroups(full, scope)
  {
    GroupsPartition(l, scope, full, links, part, within);
    KeepsGroupsIff(l, scope, full, links, part, within);
    if CoversGroups(full, scope) {
      forall w, earlier, t
        ensures ScopeIsEnough(w, earlier, t, direction, full, part, scope)
      {
        KeptGroupsSendSame(w, earlier, t, direction, full, part, scope);
      }
    } else {
      var i :| 0 <= i < |full| && Touches(full[i], scope) && !KeptIn(full[i], part);
      LostGroupIsNotEnough(direction, full, part, scope, i);
    }
  }

  /** Where ids alone make the groups, and each connects its group directly, the scope of every pass covers what it touches. */
  lemma SharedIdsAreCovered(p: Progress, now: int, changes: map<nat, int>, ids: set<Identifier>, full: seq<Group>)
    requires !FullPassDue(p, now)
    requires forall i, x, y :: 0 <= i < |full| && x in full[i] && y in full[i] && x != y ==> ShareId(ids, y, x)
    requires forall i, x, y :: 0 <= i < |full| && x in full[i] && ShareId(ids, x, y) ==> y in full[i]
    ensures CoversGroups(full, ScopeOf(p, now, changes, ids).value)
  {
    var scope := ScopeOf(p, now, changes, ids).value;
    forall i, x, y | 0 <= i < |full| && x in full[i] && x in scope && y in full[i]
      ensures y in scope
    {
      ScopeIff(p, now, changes, ids, x);
      var c :| c in changes && changes[c] >= p.cutoff.value && (c == x || ShareId(ids, x, c));
      assert c in full[i];
      ScopeIff(p, now, changes, ids, y);
    }
  }

  // ----- A completion that is lost -----

  const FILM := SameFile(Movie, "film")

  /** Item 1 on Plex and item 2 on Jellyfin are one file, and have no id. */
  const ONE_FILE := Library({1, 2}, map[1 := Movie, 2 := Movie], [(FILM, 1), (FILM, 2)], map[1 := {"film"}, 2 := {"film"}])

  lemma OneFileIsConsistent()
    ensures Consistent(ONE_FILE) && Within(ONE_FILE.mentions, {1}) == [(FILM, 1)]
  {
    var m := ONE_FILE.mentions;
    var none: Mentions := [];
    assert m[..1] == [(FILM, 1)] && m[..1][..0] == none;
    assert Within(m[..1], {1}) == [(FILM, 1)];
    forall x, p | x in ONE_FILE.items
      ensures p in FilesOf(ONE_FILE.files, x) <==> (SameFile(ONE_FILE.kinds[x], p), x) in m
    {
      assert m[0] in m && m[1] in m;
    }
  }

  lemma ScopeWithoutIds(p: Progress, now: int, changes: map<nat, int>, changed: set<nat>)
    requires !FullPassDue(p, now) && forall x :: x in changed <==> x in changes && changes[x] >= p.cutoff.value
    ensures ScopeOf(p, now, changes, {}) == Some(changed)
  {
    var ids: set<Identifier> := {};
    assert ScopeOf(p, now, changes, ids).value == changed;
  }

  lemma OneFileIsOneGroup(full: seq<Group>, links: Edges)
    requires Consistent(ONE_FILE) && AllGroups(ONE_FILE, full, links)
    ensures exists i :: 0 <= i < |full| && 1 in full[i] && 2 in full[i]
  {
    assert (FILM, 1) == ONE_FILE.mentions[0] && (FILM, 2) == ONE_FILE.mentions[1];
    SharedFileConnects(ONE_FILE, links, FILM, 1, 2);
    assert 1 in ONE_FILE.items && 2 in ONE_FILE.items;
    assert Listed(full, 1);
  }

  /**
   Item 1 is watched on Plex at 5, after the pass at 0; nothing else changes and nothing has an id. The
   pass at 10 looks at item 1 only and sends nothing, a full pass would, and until a week has passed
   since the last full pass no later pass looks at either item.
   */
  lemma CompletionIsLost(full: seq<Group>, links: Edges, part: seq<Group>, within: Edges, later: int)
    requires Consistent(ONE_FILE) && AllGroups(ONE_FILE, full, links) && ScopeGroups(ONE_FILE, {1}, part, within)
    requires 10 < later < FULL_PASS_INTERVAL
    ensures var (p, changes) := (Progress(Some(0), Some(0)), map[1 := 5]);
      && ScopeOf(p, 10, changes, {}) == Some({1})
      && ScopeOf(Advanced(p, 10), later, changes, {}) == Some({})
    ensures var (w, t) := (OneEach(Plex, 1, 2), SeenThere(Plex, 1));
      Candidates(w, t, Plex, full) != [] && Candidates(w, t, Plex, part) == []
  {
    var changes: map<nat, int> := map[1 := 5];
    var (p, scope: set<nat>) := (Progress(Some(0), Some(0)), {1});
    ScopeWithoutIds(p, 10, changes, {1});
    ScopeWithoutIds(Advanced(p, 10), later, changes, {});
    OneFileIsOneGroup(full, links);
    TogetherIsSent(Plex, 1, 2, full);
    TogetherIsSent(Plex, 1, 2, part);
    forall j | 0 <= j < |part|
      ensures 2 !in part[j]
    {
      assert 2 in part[j] ==> 2 in ONE_FILE.items * scope;
    }
  }
}
