/**
 The unique key of every catalog card. A key hashes NUL-separated parts; the first card to claim
 a key keeps it, and any later one appends its item id without looking at the used keys again.
 */
module GroupKeys {
  import opened Catalog
  import opened Grouping
  import opened Numbers

  // ----- Joining parts -----

  function Join(parts: seq<string>): string
    requires parts != []
  {
    if |parts| == 1 then parts[0] else parts[0] + ['\0'] + Join(parts[1..])
  }

  ghost predicate IsTail(s: string) {
    s == "" || s[0] == '\0'
  }

  lemma LongerPartHoldsNul(a: string, x: string, b: string, y: string)
    requires IsTail(x) && a + x == b + y && |a| < |b|
    ensures !NulFree(b)
  {
    assert b[|a|] == (b + y)[|a|] == (a + x)[|a|] == x[0];
  }

  /** The first NUL tells where the first part ends. */
  lemma FirstPartIsUnique(a: string, x: string, b: string, y: string)
    requires NulFree(a) && NulFree(b) && IsTail(x) && IsTail(y) && a + x == b + y
    ensures a == b && x == y
  {
    if |a| < |b| {
      LongerPartHoldsNul(a, x, b, y);
    } else if |b| < |a| {
      LongerPartHoldsNul(b, y, a, x);
    } else {
      assert a == (a + x)[..|a|] == (b + y)[..|b|] == b;
      assert x == (a + x)[|a|..] == (b + y)[|b|..] == y;
    }
  }

  lemma {:induction false} JoinIsInjective(p: seq<string>, q: seq<string>)
    requires p != [] && q != [] && Join(p) == Join(q)
    requires (forall s :: s in p ==> NulFree(s)) && (forall s :: s in q ==> NulFree(s))
    ensures p == q
  {
    var x := if |p| == 1 then "" else ['\0'] + Join(p[1..]);
    var y := if |q| == 1 then "" else ['\0'] + Join(q[1..]);
    assert Join(p) == p[0] + x && Join(q) == q[0] + y;
    FirstPartIsUnique(p[0], x, q[0], y);
    if |p| > 1 {
      assert |q| > 1 && x[1..] == Join(p[1..]) && y[1..] == Join(q[1..]);
      JoinIsInjective(p[1..], q[1..]);
      assert p == [p[0]] + p[1..] && q == [q[0]] + q[1..];
    }
  }

  // ----- The parts of a key -----

  function KindName(kind: Kind): string {
    match kind
    case Movie => "movie"
    case Show => "show"
    case Season => "season"
    case Episode => "episode"
    case Artist => "artist"
    case Album => "album"
    case Track => "track"
  }

  function ProviderName(p: Provider): string {
    match p
    case Tmdb => "tmdb"
    case Tvdb => "tvdb"
    case Imdb => "imdb"
    case MusicBrainz => "musicbrainz"
    case Other(name) => name
  }

  /** A missing year and the year 0 both read as empty. */
  function YearText(year: Option<nat>): string {
    if year.GetOr(0) == 0 then "" else Decimal(year.value)
  }

  function TitleParts(item: Item): seq<string> {
    (if item.kind in {Episode, Album, Track} then ["parent:" + Decimal(item.parent.GetOr(0))] else []) + [item.title]
  }

  function KeyParts(item: Item, identity: Option<(Provider, string)>): seq<string> {
    [KindName(item.kind)] +
    match identity
    case Some((provider, externalId)) => [ProviderName(provider), externalId]
    case None => ["title"] + TitleParts(item) + [YearText(item.year)]
  }

  function ItemPart(id: nat): string {
    "item:" + Decimal(id)
  }

  // ----- The first identity in provider order -----

  function Priority(p: Provider): nat {
    match p
    case Tmdb => 0
    case Tvdb => 1
    case Imdb => 2
    case MusicBrainz => 3
    case Other(_) => 4
  }

  predicate LexBefore(a: string, b: string) {
    b != "" && (a == "" || a[0] < b[0] || (a[0] == b[0] && LexBefore(a[1..], b[1..])))
  }

  predicate ComesBefore(x: (Provider, string), y: (Provider, string)) {
    Priority(x.0) < Priority(y.0) || (Priority(x.0) == Priority(y.0) && LexBefore(x.1, y.1))
  }

  lemma {:induction false} LexIsTotal(a: string, b: string)
    ensures a == b || LexBefore(a, b) || LexBefore(b, a)
  {
    if a != "" && b != "" && a[0] == b[0] {
      LexIsTotal(a[1..], b[1..]);
      assert a == [a[0]] + a[1..] && b == [b[0]] + b[1..];
    }
  }

  lemma {:induction false} LexIsTransitive(a: string, b: string, c: string)
    requires LexBefore(a, b) && LexBefore(b, c)
    ensures LexBefore(a, c)
  {
    if a != "" && a[0] == b[0] == c[0] {
      LexIsTransitive(a[1..], b[1..], c[1..]);
    }
  }

  lemma ComesBeforeIsTransitive(x: (Provider, string), y: (Provider, string), z: (Provider, string))
    requires ComesBefore(x, y) && ComesBefore(y, z)
    ensures ComesBefore(x, z)
  {
    if Priority(x.0) == Priority(y.0) == Priority(z.0) {
      LexIsTransitive(x.1, y.1, z.1);
    }
  }

  ghost predicate IsFirst(identities: set<(Provider, string)>, first: (Provider, string)) {
    first in identities && forall i :: i in identities && i != first ==> ComesBefore(first, i)
  }

  /** At the first difference the smaller character decides; an initial part comes before the whole. */
  ghost predicate SmallerText(a: string, b: string) {
    exists n: nat :: DifferAfter(a, b, n)
  }

  predicate DifferAfter(a: string, b: string, n: nat) {
    && n <= |a| && n < |b| && a[..n] == b[..n] && (n == |a| || a[n] < b[n])
  }

  lemma {:induction false} LexIsSmaller(a: string, b: string)
    ensures LexBefore(a, b) <==> SmallerText(a, b)
  {
    if a != "" && b != "" && a[0] == b[0] {
      LexIsSmaller(a[1..], b[1..]);
      if n: nat :| DifferAfter(a[1..], b[1..], n) {
        assert a[..n + 1] == [a[0]] + a[1..][..n] && b[..n + 1] == [b[0]] + b[1..][..n];
        assert DifferAfter(a, b, n + 1);
      }
      if n: nat :| DifferAfter(a, b, n) {
        assert n > 0 && a[1..][..n - 1] == a[..n][1..] && b[1..][..n - 1] == b[..n][1..];
        assert DifferAfter(a[1..], b[1..], n - 1);
      }
    } else if a != "" && b != "" {
      assert DifferAfter(a, b, 0) <==> a[0] < b[0];
      forall n: nat | n > 0
        ensures !DifferAfter(a, b, n)
      {
        assert n <= |a| && n < |b| ==> a[..n][0] == a[0] && b[..n][0] == b[0];
      }
    } else {
      assert DifferAfter(a, b, 0) <==> a == "" && b != "";
    }
  }

  /** TMDB before TVDB before IMDb before MusicBrainz, and of one provider the smallest id. */
  lemma FirstIsPreferred(identities: set<(Provider, string)>, first: (Provider, string), i: (Provider, string))
    requires IsFirst(identities, first) && i in identities && Stable(i.0) && Stable(first.0)
    ensures i.0.Tmdb? ==> first.0.Tmdb?
    ensures i.0.Tvdb? ==> first.0.Tmdb? || first.0.Tvdb?
    ensures i.0.Imdb? ==> !first.0.MusicBrainz?
    ensures i.0 == first.0 ==> i.1 == first.1 || SmallerText(first.1, i.1)
  {
    LexIsSmaller(first.1, i.1);
  }

  method FirstIdentity(identities: set<(Provider, string)>) returns (first: (Provider, string))
    requires identities != {} && forall i :: i in identities ==> Stable(i.0)
    ensures IsFirst(identities, first)
  {
    first :| first in identities;
    var pending := identities - {first};
    while pending != {}
      invariant pending <= identities && IsFirst(identities - pending, first)
      decreases pending
    {
      var i :| i in pending;
      pending := pending - {i};
      LexIsTotal(i.1, first.1);
      if ComesBefore(i, first) {
        forall k | k in identities - pending && k != i
          ensures ComesBefore(i, k)
        {
          if k != first {
            ComesBeforeIsTransitive(i, first, k);
          }
        }
        first := i;
      }
    }
  }

  // ----- Distinct keys -----

  ghost predicate Injective(hash: string -> string) {
    forall x, y :: hash(x) == hash(y) ==> x == y
  }

  ghost predicate PlainText(t: Identity) {
    && (forall v :: v in t.items ==> NulFree(t.items[v].title))
    && (forall i :: i in t.identifiers ==> NulFree(i.externalId))
  }

  function IdentitiesOf(t: Identity, members: set<nat>): set<(Provider, string)> {
    set i | i in t.identifiers && i.item in members && Stable(i.provider) :: (i.provider, i.externalId)
  }

  function Plain(t: Identity, hash: string -> string, c: nat, identity: Option<(Provider, string)>): string
    requires c in t.items
  {
    "v4:" + hash(Join(KeyParts(t.items[c], identity)))
  }

  function Suffixed(t: Identity, hash: string -> string, c: nat, identity: Option<(Provider, string)>): string
    requires c in t.items
  {
    "v4:" + hash(Join(KeyParts(t.items[c], identity) + [ItemPart(c)]))
  }

  lemma EqualKeysHaveEqualParts(hash: string -> string, p: seq<string>, q: seq<string>)
    requires Injective(hash) && p != [] && q != [] && "v4:" + hash(Join(p)) == "v4:" + hash(Join(q))
    requires (forall s :: s in p ==> NulFree(s)) && (forall s :: s in q ==> NulFree(s))
    ensures p == q
  {
    assert ("v4:" + hash(Join(p)))[3..] == hash(Join(p)) && ("v4:" + hash(Join(q)))[3..] == hash(Join(q));
    JoinIsInjective(p, q);
  }

  /** A plain key is never some card's key with an item id, whatever the cards are. */
  lemma PlainIsNotSuffixed(x: Item, i: Option<(Provider, string)>, y: Item, j: Option<(Provider, string)>, id: nat)
    requires (i.Some? ==> Stable(i.value.0)) && (j.Some? ==> Stable(j.value.0))
    ensures KeyParts(x, i) != KeyParts(y, j) + [ItemPart(id)]
  {
    var (p, q) := (KeyParts(x, i), KeyParts(y, j) + [ItemPart(id)]);
    assert p[0] == KindName(x.kind) && q[0] == KindName(y.kind);
    assert p[1] == if i.Some? then ProviderName(i.value.0) else "title";
    assert q[1] == if j.Some? then ProviderName(j.value.0) else "title";
    KindNameIsInjective(x.kind, y.kind);
    if i.Some? {
      ProviderIsNotTitle(i.value.0);
    }
    if j.Some? {
      ProviderIsNotTitle(j.value.0);
    }
  }

  /** What a card without an id is known by: title and year, and for episodes, albums and tracks the parent. */
  predicate SameWork(x: Item, y: Item) {
    && x.title == y.title && x.year.GetOr(0) == y.year.GetOr(0)
    && (x.kind in {Episode, Album, Track} ==> x.parent.GetOr(0) == y.parent.GetOr(0))
  }

  /**
   Two cards have the same plain key exactly if they are of one kind and have the same first identity,
   or none and the same title, year and parent; the year 0 reads as none.
   */
  lemma PlainKeyIff(x: Item, i: Option<(Provider, string)>, y: Item, j: Option<(Provider, string)>)
    requires (i.Some? ==> Stable(i.value.0)) && (j.Some? ==> Stable(j.value.0))
    ensures KeyParts(x, i) == KeyParts(y, j) <==> x.kind == y.kind && i == j && (i.None? ==> SameWork(x, y))
  {
    var (p, q) := (KeyParts(x, i), KeyParts(y, j));
    assert p[0] == KindName(x.kind) && q[0] == KindName(y.kind);
    KindNameIsInjective(x.kind, y.kind);
    if x.kind == y.kind && i.Some? && j.Some? {
      assert p[1] == ProviderName(i.value.0) && q[1] == ProviderName(j.value.0) && p[2] == i.value.1 && q[2] == j.value.1;
      ProviderNameIsInjective(i.value.0, j.value.0);
    } else if x.kind == y.kind && i.None? && j.None? {
      TitlePartsIff(x, y);
    }
  }

  lemma ProviderNameIsInjective(p: Provider, q: Provider)
    requires Stable(p) && Stable(q)
    ensures ProviderName(p) == ProviderName(q) ==> p == q
  {
    var (a, b) := (ProviderName(p), ProviderName(q));
    assert a[0] == b[0] && a[1] == b[1] ==> p == q;
  }

  lemma TitlePartsIff(x: Item, y: Item)
    requires x.kind == y.kind
    ensures KeyParts(x, None) == KeyParts(y, None) <==> SameWork(x, y)
  {
    var (p, q) := (KeyParts(x, None), KeyParts(y, None));
    YearTextIff(x.year, y.year);
    if x.kind in {Episode, Album, Track} {
      assert p[2] == "parent:" + Decimal(x.parent.GetOr(0)) && q[2] == "parent:" + Decimal(y.parent.GetOr(0));
      assert p[2][7..] == Decimal(x.parent.GetOr(0)) && q[2][7..] == Decimal(y.parent.GetOr(0));
      if p[2] == q[2] {
        DecimalIsInjective(x.parent.GetOr(0), y.parent.GetOr(0));
      }
      assert p[3] == x.title && q[3] == y.title && p[4] == YearText(x.year) && q[4] == YearText(y.year);
    } else {
      assert p[2] == x.title && q[2] == y.title && p[3] == YearText(x.year) && q[3] == YearText(y.year);
    }
  }

  lemma YearTextIff(x: Option<nat>, y: Option<nat>)
    ensures YearText(x) == YearText(y) <==> x.GetOr(0) == y.GetOr(0)
  {
    if x.GetOr(0) != 0 && y.GetOr(0) != 0 && YearText(x) == YearText(y) {
      DecimalIsInjective(x.value, y.value);
    }
  }

  lemma KindNameIsInjective(x: Kind, y: Kind)
    ensures KindName(x) == KindName(y) ==> x == y
  {
    assert KindName(x)[0] == KindName(y)[0] ==> KindName(x)[1] != KindName(y)[1] || x == y;
  }

  lemma ProviderIsNotTitle(p: Provider)
    requires Stable(p)
    ensures ProviderName(p) != "title" && NulFree(ProviderName(p))
  {
    assert ProviderName(p)[1] != "title"[1];
  }

  lemma PartsAreNulFree(t: Identity, c: nat, identity: Option<(Provider, string)>, id: nat)
    requires PlainText(t) && c in t.items
    requires identity.Some? ==> Stable(identity.value.0) && NulFree(identity.value.1)
    ensures var parts := KeyParts(t.items[c], identity);
      forall s :: s in parts + [ItemPart(id)] ==> NulFree(s)
  {
    if identity.Some? {
      ProviderIsNotTitle(identity.value.0);
    }
  }

  lemma SuffixNamesTheCard(p: seq<string>, c: nat, q: seq<string>, d: nat)
    requires p + [ItemPart(c)] == q + [ItemPart(d)]
    ensures c == d
  {
    assert (p + [ItemPart(c)])[|p|] == ItemPart(c) && (q + [ItemPart(d)])[|q|] == ItemPart(d);
    assert ItemPart(c)[5..] == Decimal(c) && ItemPart(d)[5..] == Decimal(d);
    DecimalIsInjective(c, d);
  }

  /** Two different cards with plain or suffixed keys collide at most on equal plain parts. */
  lemma DifferentCardsCollideOnlyPlain(t: Identity, hash: string -> string, c: nat, i: Option<(Provider, string)>,
                                       d: nat, j: Option<(Provider, string)>)
    requires Injective(hash) && PlainText(t) && c in t.items && d in t.items && c != d
    requires i.Some? ==> Stable(i.value.0) && NulFree(i.value.1)
    requires j.Some? ==> Stable(j.value.0) && NulFree(j.value.1)
    ensures Suffixed(t, hash, c, i) != Plain(t, hash, d, j)
    ensures Suffixed(t, hash, c, i) != Suffixed(t, hash, d, j)
  {
    var (p, q) := (KeyParts(t.items[c], i), KeyParts(t.items[d], j));
    PartsAreNulFree(t, c, i, c);
    PartsAreNulFree(t, d, j, d);
    if Suffixed(t, hash, c, i) == Plain(t, hash, d, j) {
      EqualKeysHaveEqualParts(hash, p + [ItemPart(c)], q);
      PlainIsNotSuffixed(t.items[d], j, t.items[c], i, c);
    } else if Suffixed(t, hash, c, i) == Suffixed(t, hash, d, j) {
      EqualKeysHaveEqualParts(hash, p + [ItemPart(c)], q + [ItemPart(d)]);
      SuffixNamesTheCard(p, c, q, d);
    }
  }

  /** What one card's key may be. */
  ghost predicate Keyed(t: Identity, hash: string -> string, cards: map<nat, set<nat>>, c: nat, key: string)
    requires c in cards
  {
    && c in t.items
    && exists i :: FirstOf(t, cards[c], i) && (key == Plain(t, hash, c, i) || key == Suffixed(t, hash, c, i))
  }

  ghost predicate FirstOf(t: Identity, members: set<nat>, i: Option<(Provider, string)>) {
    var identities := IdentitiesOf(t, members);
    if identities == {} then i == None else i.Some? && IsFirst(identities, i.value)
  }

  ghost predicate KeysDistinct(keys: map<nat, string>) {
    forall c, d :: c in keys && d in keys && c != d ==> keys[c] != keys[d]
  }

  lemma FirstIsPlain(t: Identity, members: set<nat>, i: Option<(Provider, string)>)
    requires PlainText(t) && FirstOf(t, members, i)
    ensures i.Some? ==> Stable(i.value.0) && NulFree(i.value.1)
  {
  }

  /** A key that is new as a plain key, or is the suffixed form, differs from every key given before. */
  lemma NextKeyIsNew(t: Identity, hash: string -> string, cards: map<nat, set<nat>>, keys: map<nat, string>,
                     c: nat, i: Option<(Provider, string)>, d: nat)
    requires Injective(hash) && PlainText(t) && c in cards && c in t.items && c !in keys && d in keys && d in cards
    requires FirstOf(t, cards[c], i) && Keyed(t, hash, cards, d, keys[d])
    ensures Suffixed(t, hash, c, i) != keys[d]
  {
    var j :| FirstOf(t, cards[d], j) && (keys[d] == Plain(t, hash, d, j) || keys[d] == Suffixed(t, hash, d, j));
    FirstIsPlain(t, cards[c], i);
    FirstIsPlain(t, cards[d], j);
    DifferentCardsCollideOnlyPlain(t, hash, c, i, d, j);
  }

  method ChooseIdentity(t: Identity, members: set<nat>) returns (identity: Option<(Provider, string)>)
    ensures FirstOf(t, members, identity)
  {
    var identities := IdentitiesOf(t, members);
    if identities == {} {
      return None;
    }
    var first := FirstIdentity(identities);
    return Some(first);
  }

  /** The key of one more card: plain while nobody has it, suffixed otherwise. */
  method KeyFor(t: Identity, hash: string -> string, cards: map<nat, set<nat>>, c: nat,
                ghost keys: map<nat, string>, used: set<string>) returns (key: string)
    requires Injective(hash) && PlainText(t) && c in cards && cards.Keys <= t.items.Keys
    requires c !in keys && keys.Keys <= cards.Keys
    requires forall d {:trigger keys[d]} :: d in keys ==> keys[d] in used && Keyed(t, hash, cards, d, keys[d])
    ensures Keyed(t, hash, cards, c, key) && forall d :: d in keys ==> keys[d] != key
  {
    var identity := ChooseIdentity(t, cards[c]);
    key := Plain(t, hash, c, identity);
    if key in used {
      key := Suffixed(t, hash, c, identity);
      forall d | d in keys
        ensures keys[d] != key
      {
        NextKeyIsNew(t, hash, cards, keys, c, identity, d);
      }
    }
  }

  /** Keys for all cards, in whatever order the cards come; no two are equal. */
  method AssignKeys(t: Identity, hash: string -> string, cards: map<nat, set<nat>>) returns (keys: map<nat, string>)
    requires Injective(hash) && PlainText(t) && cards.Keys <= t.items.Keys
    ensures keys.Keys == cards.Keys && KeysDistinct(keys)
    ensures forall c :: c in keys ==> Keyed(t, hash, cards, c, keys[c])
  {
    keys := map[];
    var used: set<string> := {};
    var pending := cards.Keys;
    while pending != {}
      invariant pending <= cards.Keys && keys.Keys == cards.Keys - pending && KeysDistinct(keys)
      invariant forall d {:trigger keys[d]} :: d in keys ==> keys[d] in used && Keyed(t, hash, cards, d, keys[d])
      decreases pending
    {
      var c :| c in pending;
      var key := KeyFor(t, hash, cards, c, keys, used);
      used := used + {key};
      keys := keys[c := key];
      pending := pending - {c};
    }
  }
}
