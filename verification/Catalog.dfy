/** The rows that the catalog projection and the reconciliation read. */
module Catalog {

  datatype Option<+T> = None | Some(value: T) {
    function GetOr(default: T): T {
      if Some? then value else default
    }
  }

  datatype Kind = Movie | Show | Season | Episode | Artist | Album | Track

  datatype Connector = Plex | Jellyfin

  datatype Provider = Tmdb | Tvdb | Imdb | MusicBrainz | Other(name: string)

  predicate Stable(p: Provider) {
    !p.Other?
  }

  /**
   `title` is already normalised; `season` and `episode` are the numbers a season or an episode
   carries; `manual` is the confirmed TMDB id, empty when there is none; `details` are the other
   optional fields that are filled, by name.
   */
  datatype Item = Item(
    kind: Kind, title: string, year: Option<nat>, parent: Option<nat>, manual: string,
    season: Option<nat>, episode: Option<nat>, details: map<string, string>)

  /** An item with a title and a parent only. */
  function Plain(kind: Kind, title: string, parent: Option<nat>): Item {
    Item(kind, title, None, parent, "", None, None, map[])
  }

  datatype Ref = Ref(id: nat, item: nat, source: nat, available: bool, paths: set<string>)

  datatype Identifier = Identifier(item: nat, provider: Provider, externalId: string)

  /** Everything that decides grouping and availability: the identity tables and the path evidence. */
  datatype Identity = Identity(
    items: map<nat, Item>,
    refs: set<Ref>,
    identifiers: set<Identifier>,
    sources: map<nat, Connector>)

  /** The foreign keys of the schema. */
  ghost predicate WellFormed(t: Identity) {
    && (forall r :: r in t.refs ==> r.item in t.items && r.source in t.sources)
    && (forall i :: i in t.identifiers ==> i.item in t.items)
    && (forall v :: v in t.items && t.items[v].parent.Some? ==> t.items[v].parent.value in t.items)
  }

  /** Seasons are the only kind without a card of their own. */
  function CatalogIds(t: Identity): set<nat> {
    set v | v in t.items && t.items[v].kind != Season
  }

  function AllSources(t: Identity, v: nat): set<nat> {
    set r | r in t.refs && r.item == v :: r.source
  }

  function LiveSources(t: Identity, v: nat): set<nat> {
    set r | r in t.refs && r.item == v && r.available :: r.source
  }

  function LivePaths(t: Identity, v: nat): set<string> {
    set r, p | r in t.refs && r.item == v && r.available && p in r.paths :: p
  }

  predicate HasStableId(t: Identity, v: nat) {
    exists i :: i in t.identifiers && i.item == v && Stable(i.provider)
  }

  predicate HasPlexRef(t: Identity, v: nat) {
    exists r :: r in t.refs && r.item == v && r.source in t.sources && t.sources[r.source] == Plex
  }

  /** The words above, row by row: which sources and files an item has, and which ids are stable. */
  lemma ReferencesTold(t: Identity, v: nat)
    ensures forall s :: s in AllSources(t, v) <==> exists r :: r in t.refs && r.item == v && r.source == s
    ensures forall s :: s in LiveSources(t, v) <==> exists r :: r in t.refs && r.item == v && r.source == s && r.available
    ensures forall p :: p in LivePaths(t, v) <==> exists r :: r in t.refs && r.item == v && r.available && p in r.paths
    ensures HasStableId(t, v) <==> exists i :: i in t.identifiers && i.item == v && i.provider in {Tmdb, Tvdb, Imdb, MusicBrainz}
    ensures HasPlexRef(t, v) <==>
      exists r :: r in t.refs && r.item == v && r.source in t.sources && t.sources[r.source] != Jellyfin
    ensures v in CatalogIds(t) <==> v in t.items && t.items[v].kind in {Movie, Show, Episode, Artist, Album, Track}
  {
    forall p: Provider
      ensures Stable(p) <==> p in {Tmdb, Tvdb, Imdb, MusicBrainz}
    {
    }
  }

  /** One and the same external id of one provider. */
  ghost predicate ShareId(ids: set<Identifier>, a: nat, b: nat) {
    exists i, j :: i in ids && j in ids && i.item == a && j.item == b && i.provider == j.provider && i.externalId == j.externalId
  }

  ghost predicate Confirmed(t: Identity, x: nat) {
    x in t.items && t.items[x].manual != ""
  }

  ghost predicate OnPlex(t: Identity, x: nat, live: bool) {
    exists r :: r in t.refs && r.item == x && (live ==> r.available) && r.source in t.sources && t.sources[r.source].Plex?
  }

  /** Both have a live file, and none in common. */
  ghost predicate FilesApart(t: Identity, a: nat, b: nat) {
    && (exists p :: LiveFile(t, a, p)) && (exists p :: LiveFile(t, b, p))
    && forall p :: LiveFile(t, a, p) ==> !LiveFile(t, b, p)
  }

  ghost predicate LiveFile(t: Identity, x: nat, p: string) {
    exists r :: r in t.refs && r.item == x && r.available && p in r.paths
  }

  ghost predicate HasRef(t: Identity, x: nat, source: nat, live: bool) {
    exists r :: r in t.refs && r.item == x && r.source == source && (live ==> r.available)
  }

  lemma FilesApartIff(t: Identity, a: nat, b: nat)
    ensures FilesApart(t, a, b) <==> LivePaths(t, a) != {} && LivePaths(t, b) != {} && LivePaths(t, a) * LivePaths(t, b) == {}
  {
    FilesTold(t, a);
    FilesTold(t, b);
    if LivePaths(t, a) * LivePaths(t, b) != {} {
      var p :| p in LivePaths(t, a) * LivePaths(t, b);
      assert LiveFile(t, a, p) && LiveFile(t, b, p);
    } else {
      forall p | LiveFile(t, a, p)
        ensures !LiveFile(t, b, p)
      {
        assert p !in LivePaths(t, a) * LivePaths(t, b);
      }
    }
  }

  lemma FilesTold(t: Identity, x: nat)
    ensures forall p :: p in LivePaths(t, x) <==> LiveFile(t, x, p)
    ensures LivePaths(t, x) != {} <==> exists p :: LiveFile(t, x, p)
  {
    ReferencesTold(t, x);
    if p :| p in LivePaths(t, x) {
      assert LiveFile(t, x, p);
    }
  }

  lemma SourcesTold(t: Identity, x: nat)
    ensures forall s :: s in LiveSources(t, x) <==> HasRef(t, x, s, true)
    ensures forall s :: s in AllSources(t, x) <==> HasRef(t, x, s, false)
    ensures AllSources(t, x) != {} <==> exists s :: HasRef(t, x, s, false)
  {
    ReferencesTold(t, x);
    if s :| s in AllSources(t, x) {
      assert HasRef(t, x, s, false);
    }
  }

  // ----- Giving rows another owner -----

  function Moved(x: nat, winner: nat, loser: nat): nat {
    if x == loser then winner else x
  }

  /** Rows with these unique keys, owner first, can all be moved: no two of them get the same key. */
  ghost predicate Movable<K>(keys: set<(nat, K)>, winner: nat, loser: nat) {
    forall j, k :: j in keys && k in keys && j.1 == k.1 && Moved(j.0, winner, loser) == Moved(k.0, winner, loser) ==> j == k
  }

  ghost predicate Clashes<K>(keys: set<(nat, K)>, winner: nat, loser: nat, k: (nat, K)) {
    k in keys && k.0 == loser && (winner, k.1) in keys
  }

  /** The move fails on the unique key exactly if the winner already has a row under a key of the loser. */
  lemma MovableIff<K>(keys: set<(nat, K)>, winner: nat, loser: nat)
    requires winner != loser
    ensures Movable(keys, winner, loser) <==> forall k :: !Clashes(keys, winner, loser, k)
  {
    if k :| Clashes(keys, winner, loser, k) {
      assert (winner, k.1).1 == k.1;
    } else {
      forall j, k | j in keys && k in keys && j.1 == k.1 && Moved(j.0, winner, loser) == Moved(k.0, winner, loser)
        ensures j == k
      {
        assert !Clashes(keys, winner, loser, j) && !Clashes(keys, winner, loser, k);
        assert j == (j.0, k.1) && k == (k.0, j.1);
      }
    }
  }
}
