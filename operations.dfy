/** The cache bookkeeping of operations.js: `mergeWatchlists`, which reconciles a
    freshly built watchlist with the cached one, and the point updates
    `updateMovie` / `removeMovie` on the two cached lists.

    The grouping functions and lemmas take the grouping key as a parameter
    `slug`; `mergeWatchlists` groups by `Slugify`, and everything proved here for
    an arbitrary key function holds for that one. */
module Operations {
  import opened JsValues
  import opened Utils

  // ---------------------------------------------------------------------------
  // Records and their grouping key
  // ---------------------------------------------------------------------------

  /** A record whose `googleTitle` is a string, so that `slugify` can read it. */
  predicate Titled(p: Record) {
    "googleTitle" in p && p["googleTitle"].Str?
  }

  predicate AllTitled(ps: seq<Record>) {
    forall i :: 0 <= i < |ps| ==> Titled(ps[i])
  }

  /** The group key of a record: the key function applied to its `googleTitle`. */
  function KeyOf(slug: string -> string, p: Record): string
    requires Titled(p)
  {
    slug(p["googleTitle"].s)
  }

  /** A record `mergeWatchlists` can group without failing: its title is a string,
      and its slug is not `constructor`, which would meet
      `Object.prototype.constructor` in the `{}` accumulators instead of a group. */
  predicate Keyed(p: Record) {
    Titled(p) && KeyOf(Slugify, p) != "constructor"
  }

  predicate AllKeyed(ps: seq<Record>) {
    forall i :: 0 <= i < |ps| ==> Keyed(ps[i])
  }

  lemma AllTitledAppend(a: seq<Record>, b: seq<Record>)
    requires AllTitled(a) && AllTitled(b)
    ensures AllTitled(a + b)
  {
    forall i | 0 <= i < |a + b| ensures Titled((a + b)[i]) {
      if i >= |a| { assert (a + b)[i] == b[i - |a|]; }
    }
  }

  /** The group k of a list: its members whose key is k, in list order. */
  function GroupOf(ps: seq<Record>, slug: string -> string, k: string): (g: seq<Record>)
    requires AllTitled(ps)
    ensures |g| <= |ps|
    ensures AllTitled(g) && forall i :: 0 <= i < |g| ==> KeyOf(slug, g[i]) == k
  {
    if ps == [] then []
    else
      var last := ps[|ps| - 1];
      GroupOf(ps[..|ps| - 1], slug, k) + (if KeyOf(slug, last) == k then [last] else [])
  }

  /** The keys of a list in order of first appearance: the order in which the
      grouping `reduce` creates the keys of its accumulator. Each key of the
      list appears exactly once. */
  function KeyOrder(ps: seq<Record>, slug: string -> string): (order: seq<string>)
    requires AllTitled(ps)
    ensures forall k :: multiset(order)[k] == if GroupOf(ps, slug, k) == [] then 0 else 1
  {
    if ps == [] then []
    else
      var init := KeyOrder(ps[..|ps| - 1], slug);
      var k := KeyOf(slug, ps[|ps| - 1]);
      assert k in init <==> multiset(init)[k] > 0;
      if k in init then init else init + [k]
  }

  // ---------------------------------------------------------------------------
  // The records as objects
  // ---------------------------------------------------------------------------

  /** A media record as the object `mergeWatchlists` handles: the demotion pass
      assigns its `status` and `unknownState` in place. */
  class Movie {
    var props: Record

    constructor(p: Record)
      ensures props == p
    {
      props := p;
    }
  }

  /** The records the objects of a list currently hold. */
  function Props(ms: seq<Movie>): (ps: seq<Record>)
    reads set m | m in ms
    ensures |ps| == |ms| && forall i :: 0 <= i < |ms| ==> ps[i] == ms[i].props
  {
    if ms == [] then [] else Props(ms[..|ms| - 1]) + [ms[|ms| - 1].props]
  }

  lemma PropsAppend(a: seq<Movie>, b: seq<Movie>)
    ensures Props(a + b) == Props(a) + Props(b)
  {
  }

  // ---------------------------------------------------------------------------
  // mergeWatchlists, as a function of the records
  // ---------------------------------------------------------------------------

  /** `{ ...incoming, ...cached }`: every key of the cached record takes the cached
      value, every other key keeps the incoming one. */
  function Spread(incoming: Record, cached: Record): (r: Record)
    ensures forall key :: Get(r, key) == if key in cached then Get(cached, key) else Get(incoming, key)
  {
    incoming + cached
  }

  /** One group of the pairing pass: the i-th incoming record of the group is
      spread with the i-th cached record of the same group when there is one, and
      passed on as it is otherwise. */
  function PairGroup(fs: seq<Record>, cs: seq<Record>): (r: seq<Record>)
    requires AllTitled(fs) && AllTitled(cs)
    ensures |r| == |fs| && AllTitled(r)
    ensures forall i :: 0 <= i < |fs| && i < |cs| ==>
              forall key :: Get(r[i], key) == if key in cs[i] then Get(cs[i], key) else Get(fs[i], key)
    ensures forall i :: |cs| <= i < |fs| ==> r[i] == fs[i]
  {
    seq(|fs|, i requires 0 <= i < |fs| => if i < |cs| then Spread(fs[i], cs[i]) else fs[i])
  }

  /** The pairing pass over the given group keys, concatenated in their order. */
  function MergeKeys(incoming: seq<Record>, cached: seq<Record>, slug: string -> string, keys: seq<string>): (r: seq<Record>)
    requires AllTitled(incoming) && AllTitled(cached)
    ensures AllTitled(r)
  {
    if keys == [] then []
    else
      var k := keys[|keys| - 1];
      var init := MergeKeys(incoming, cached, slug, keys[..|keys| - 1]);
      var pg := PairGroup(GroupOf(incoming, slug, k), GroupOf(cached, slug, k));
      AllTitledAppend(init, pg);
      init + pg
  }

  /** The merged list before demotion: the groups of the incoming list, taken in the
      order `Object.keys(newGroups)` lists them, each paired with its cached group. */
  function MergePass(incoming: seq<Record>, cached: seq<Record>, slug: string -> string): (r: seq<Record>)
    requires AllTitled(incoming) && AllTitled(cached)
    ensures AllTitled(r)
  {
    MergeKeys(incoming, cached, slug, OwnKeysOrder(KeyOrder(incoming, slug)))
  }

  /** `movie.status && movie.status.known && movie.status.tmdb`, as a truth value. */
  predicate FullyKnown(p: Record) {
    var status := Get(p, "status");
    assert !IsArrayIndex("known") && !IsArrayIndex("tmdb") by {
      assert !IsDigit("known"[0]) && !IsDigit("tmdb"[0]);
    }
    Truthy(status) && Truthy(Member(status.value, "known")) && Truthy(Member(status.value, "tmdb"))
  }

  /** `movie.status = { ...movie.status, known: false }; movie.unknownState = 'duplicate'` */
  function Demote(p: Record): (q: Record)
    ensures Titled(p) ==> Titled(q) && q["googleTitle"] == p["googleTitle"]
  {
    var status := Obj(SpreadOf(Get(p, "status"))["known" := Bool(false)]);
    p["status" := status]["unknownState" := Str("duplicate")]
  }

  /** A record the demotion pass has marked. */
  predicate MarkedDuplicate(p: Record) {
    && Get(p, "unknownState") == Some(Str("duplicate"))
    && "status" in p && p["status"].Obj? && Get(p["status"].fields, "known") == Some(Bool(false))
  }

  /** A demoted record is marked as a duplicate, its status is a copy of the old
      one with `known` false, it is no longer fully known, and all its other
      properties are kept. */
  lemma DemoteEffect(p: Record)
    ensures var q := Demote(p);
      && MarkedDuplicate(q)
      && (forall f :: f != "known" ==> Get(q["status"].fields, f) == Get(SpreadOf(Get(p, "status")), f))
      && (forall key :: key != "status" && key != "unknownState" ==> Get(q, key) == Get(p, key))
      && !FullyKnown(q)
  {
    var q := Demote(p);
    assert Get(q, "status") == Some(q["status"]);
    assert !IsArrayIndex("known") by { assert !IsDigit("known"[0]); }
  }

  /** What the demotion pass leaves of a record whose regrouped group has the
      given size. */
  function DemoteIfDuplicate(p: Record, groupSize: nat): (q: Record)
    ensures Titled(p) ==> Titled(q) && q["googleTitle"] == p["googleTitle"]
  {
    if groupSize > 1 && !FullyKnown(p) then Demote(p) else p
  }

  /** The records of xs after the demotion decision the list ps makes for them. */
  function DemoteWithin(xs: seq<Record>, ps: seq<Record>, slug: string -> string): (r: seq<Record>)
    requires AllTitled(xs) && AllTitled(ps)
    ensures |r| == |xs| && AllTitled(r)
    ensures forall i :: 0 <= i < |xs| ==>
              r[i] == DemoteIfDuplicate(xs[i], |GroupOf(ps, slug, KeyOf(slug, xs[i]))|)
              && KeyOf(slug, r[i]) == KeyOf(slug, xs[i])
  {
    seq(|xs|, i requires 0 <= i < |xs| => DemoteIfDuplicate(xs[i], |GroupOf(ps, slug, KeyOf(slug, xs[i]))|))
  }

  /** The demotion pass: every record of a group of two or more that is not fully
      known is demoted; all other records are kept. */
  function Demotion(ps: seq<Record>, slug: string -> string): (r: seq<Record>)
    requires AllTitled(ps)
    ensures |r| == |ps| && AllTitled(r)
    ensures forall i :: 0 <= i < |ps| && |GroupOf(ps, slug, KeyOf(slug, ps[i]))| > 1 && !FullyKnown(ps[i]) ==>
              r[i] == Demote(ps[i])
    ensures forall i :: 0 <= i < |ps| && (|GroupOf(ps, slug, KeyOf(slug, ps[i]))| <= 1 || FullyKnown(ps[i])) ==>
              r[i] == ps[i]
  {
    DemoteWithin(ps, ps, slug)
  }

    /** Whether the pairing pass spreads new record i with a cached record: its
      rank in its group is below the size of the cached group of its key.
      Otherwise the record passes through as the caller's own object. */
  predicate Paired(incoming: seq<Record>, cached: seq<Record>, i: nat)
    requires AllTitled(incoming) && AllTitled(cached) && i < |incoming|
  {
    Rank(incoming, Slugify, i) < |GroupOf(cached, Slugify, KeyOf(Slugify, incoming[i]))|
  }

/** `mergeWatchlists(newData, cachedData, skipCache)`, on the records. */
  function Reconcile(incoming: seq<Record>, cached: seq<Record>, skipCache: bool): seq<Record>
    requires !skipCache ==> AllTitled(incoming) && AllTitled(cached)
  {
    if skipCache then incoming else Demotion(MergePass(incoming, cached, Slugify), Slugify)
  }

  // ---------------------------------------------------------------------------
  // Grouping lemmas
  // ---------------------------------------------------------------------------

  lemma {:induction false} GroupOfAppend(a: seq<Record>, b: seq<Record>, slug: string -> string, k: string)
    requires AllTitled(a) && AllTitled(b)
    ensures AllTitled(a + b)
    ensures GroupOf(a + b, slug, k) == GroupOf(a, slug, k) + GroupOf(b, slug, k)
    decreases |b|
  {
    AllTitledAppend(a, b);
    if b == [] {
      assert a + b == a;
    } else {
      var init := b[..|b| - 1];
      assert (a + b)[..|a + b| - 1] == a + init;
      GroupOfAppend(a, init, slug, k);
    }
  }

  /** A list whose records all have key k' is its own group k', and no other. */
  lemma {:induction false} GroupOfUniform(xs: seq<Record>, slug: string -> string, k': string, k: string)
    requires AllTitled(xs) && forall i :: 0 <= i < |xs| ==> KeyOf(slug, xs[i]) == k'
    ensures GroupOf(xs, slug, k) == if k == k' then xs else []
  {
    if xs != [] {
      GroupOfUniform(xs[..|xs| - 1], slug, k', k);
      assert xs == xs[..|xs| - 1] + [xs[|xs| - 1]];
    }
  }

  /** Every record belongs to the group of its own key. */
  lemma {:induction false} InOwnGroup(ps: seq<Record>, slug: string -> string, i: nat)
    requires AllTitled(ps) && i < |ps|
    ensures GroupOf(ps, slug, KeyOf(slug, ps[i])) != []
  {
    if i < |ps| - 1 {
      InOwnGroup(ps[..|ps| - 1], slug, i);
    }
  }

  /** Pairing a group keeps the key of each member: a paired record takes the
      title of its cached partner, which is in the same group. */
  lemma PairGroupUniform(fs: seq<Record>, cs: seq<Record>, slug: string -> string, k: string)
    requires AllTitled(fs) && AllTitled(cs)
    requires forall i :: 0 <= i < |fs| ==> KeyOf(slug, fs[i]) == k
    requires forall i :: 0 <= i < |cs| ==> KeyOf(slug, cs[i]) == k
    ensures forall i :: 0 <= i < |fs| ==> KeyOf(slug, PairGroup(fs, cs)[i]) == k
  {
    var r := PairGroup(fs, cs);
    forall i | 0 <= i < |fs| ensures KeyOf(slug, r[i]) == k {
      if i < |cs| {
        assert Get(r[i], "googleTitle") == Get(cs[i], "googleTitle");
      }
    }
  }

  /** The group k of the pairing pass over a duplicate-free list of keys is the
      pairing of group k when k is among the keys, and empty otherwise. */
  lemma {:induction false} GroupOfMergeKeys(incoming: seq<Record>, cached: seq<Record>, slug: string -> string,
                                            keys: seq<string>, k: string)
    requires AllTitled(incoming) && AllTitled(cached)
    requires multiset(keys)[k] <= 1
    ensures GroupOf(MergeKeys(incoming, cached, slug, keys), slug, k)
         == if k in keys then PairGroup(GroupOf(incoming, slug, k), GroupOf(cached, slug, k)) else []
  {
    if keys != [] {
      var init, last := keys[..|keys| - 1], keys[|keys| - 1];
      assert keys == init + [last];
      assert multiset(keys)[k] == multiset(init)[k] + (if k == last then 1 else 0);
      GroupOfMergeKeys(incoming, cached, slug, init, k);
      var pg := PairGroup(GroupOf(incoming, slug, last), GroupOf(cached, slug, last));
      PairGroupUniform(GroupOf(incoming, slug, last), GroupOf(cached, slug, last), slug, last);
      GroupOfUniform(pg, slug, last, k);
      GroupOfAppend(MergeKeys(incoming, cached, slug, init), pg, slug, k);
    }
  }

  /** The total size of the groups of ps named by keys. */
  function GroupSizes(ps: seq<Record>, slug: string -> string, keys: seq<string>): nat
    requires AllTitled(ps)
  {
    if keys == [] then 0
    else GroupSizes(ps, slug, keys[..|keys| - 1]) + |GroupOf(ps, slug, keys[|keys| - 1])|
  }

  lemma {:induction false} GroupSizesAppend(ps: seq<Record>, x: Record, slug: string -> string, keys: seq<string>)
    requires AllTitled(ps) && Titled(x)
    ensures AllTitled(ps + [x])
    ensures GroupSizes(ps + [x], slug, keys) == GroupSizes(ps, slug, keys) + multiset(keys)[KeyOf(slug, x)]
  {
    AllTitledAppend(ps, [x]);
    assert (ps + [x])[..|ps + [x]| - 1] == ps;
    if keys != [] {
      var init := keys[..|keys| - 1];
      assert keys == init + [keys[|keys| - 1]];
      GroupSizesAppend(ps, x, slug, init);
    }
  }

  lemma {:induction false} GroupSizesEmpty(slug: string -> string, keys: seq<string>)
    ensures GroupSizes([], slug, keys) == 0
  {
    if keys != [] {
      GroupSizesEmpty(slug, keys[..|keys| - 1]);
    }
  }

  /** Keys naming every key of ps once add up to the length of ps. */
  lemma {:induction false} GroupSizesCover(ps: seq<Record>, slug: string -> string, keys: seq<string>)
    requires AllTitled(ps)
    requires forall i :: 0 <= i < |ps| ==> multiset(keys)[KeyOf(slug, ps[i])] == 1
    ensures GroupSizes(ps, slug, keys) == |ps|
  {
    if ps == [] {
      GroupSizesEmpty(slug, keys);
    } else {
      var init := ps[..|ps| - 1];
      GroupSizesCover(init, slug, keys);
      GroupSizesAppend(init, ps[|ps| - 1], slug, keys);
      assert init + [ps[|ps| - 1]] == ps;
    }
  }

  lemma {:induction false} MergeKeysLength(incoming: seq<Record>, cached: seq<Record>, slug: string -> string, keys: seq<string>)
    requires AllTitled(incoming) && AllTitled(cached)
    ensures |MergeKeys(incoming, cached, slug, keys)| == GroupSizes(incoming, slug, keys)
  {
    if keys != [] {
      MergeKeysLength(incoming, cached, slug, keys[..|keys| - 1]);
    }
  }

  /** The merged list has one record per incoming record. */
  lemma MergePassLength(incoming: seq<Record>, cached: seq<Record>, slug: string -> string)
    requires AllTitled(incoming) && AllTitled(cached)
    ensures |MergePass(incoming, cached, slug)| == |incoming|
  {
    var keys := OwnKeysOrder(KeyOrder(incoming, slug));
    MergeKeysLength(incoming, cached, slug, keys);
    forall i | 0 <= i < |incoming| ensures multiset(keys)[KeyOf(slug, incoming[i])] == 1 {
      InOwnGroup(incoming, slug, i);
    }
    GroupSizesCover(incoming, slug, keys);
  }

  /** The merged list is the incoming list regrouped by key: its group k is the
      incoming group k, in order, each record spread with the cached record at the
      same position of the cached group k when there is one. */
  lemma MergePassGroups(incoming: seq<Record>, cached: seq<Record>, slug: string -> string, k: string)
    requires AllTitled(incoming) && AllTitled(cached)
    ensures GroupOf(MergePass(incoming, cached, slug), slug, k)
         == PairGroup(GroupOf(incoming, slug, k), GroupOf(cached, slug, k))
  {
    var keys := OwnKeysOrder(KeyOrder(incoming, slug));
    GroupOfMergeKeys(incoming, cached, slug, keys, k);
  }

  // ---------------------------------------------------------------------------
  // Demotion lemmas
  // ---------------------------------------------------------------------------

  /** Demoting twice is demoting once. */
  lemma DemoteIdempotent(p: Record)
    ensures Demote(Demote(p)) == Demote(p)
  {
    var q := Demote(p);
    DemoteEffect(p);
    assert SpreadOf(Get(q, "status")) == q["status"].fields;
    assert q["status"].fields["known" := Bool(false)] == q["status"].fields;
  }

  /** Lists with the same keys position by position have groups of the same sizes. */
  lemma {:induction false} GroupSizesAgree(ps: seq<Record>, qs: seq<Record>, slug: string -> string, k: string)
    requires AllTitled(ps) && AllTitled(qs) && |ps| == |qs|
    requires forall j :: 0 <= j < |ps| ==> KeyOf(slug, ps[j]) == KeyOf(slug, qs[j])
    ensures |GroupOf(ps, slug, k)| == |GroupOf(qs, slug, k)|
  {
    if ps != [] {
      GroupSizesAgree(ps[..|ps| - 1], qs[..|qs| - 1], slug, k);
    }
  }

  /** The demotion pass is idempotent. */
  lemma DemotionIdempotent(ps: seq<Record>, slug: string -> string)
    requires AllTitled(ps)
    ensures Demotion(Demotion(ps, slug), slug) == Demotion(ps, slug)
  {
    var r := Demotion(ps, slug);
    forall j | 0 <= j < |ps| ensures Demotion(r, slug)[j] == r[j] {
      GroupSizesAgree(ps, r, slug, KeyOf(slug, ps[j]));
      DemoteIdempotent(ps[j]);
    }
  }

  /** After the demotion pass every member of a group of two or more is fully
      known or marked as a duplicate with `status.known` false. */
  lemma DemotionMarksDuplicates(ps: seq<Record>, slug: string -> string, j: nat)
    requires AllTitled(ps) && j < |ps|
    ensures var r := Demotion(ps, slug);
      |GroupOf(r, slug, KeyOf(slug, r[j]))| > 1 ==> FullyKnown(r[j]) || MarkedDuplicate(r[j])
  {
    GroupSizesAgree(ps, Demotion(ps, slug), slug, KeyOf(slug, ps[j]));
    DemoteEffect(ps[j]);
  }

  // ---------------------------------------------------------------------------
  // Merging the result back in changes nothing
  // ---------------------------------------------------------------------------

  lemma DemoteWithinAppend(a: seq<Record>, b: seq<Record>, ps: seq<Record>, slug: string -> string)
    requires AllTitled(a) && AllTitled(b) && AllTitled(ps)
    ensures AllTitled(a + b)
    ensures DemoteWithin(a + b, ps, slug) == DemoteWithin(a, ps, slug) + DemoteWithin(b, ps, slug)
  {
    AllTitledAppend(a, b);
    var l, r := DemoteWithin(a + b, ps, slug), DemoteWithin(a, ps, slug) + DemoteWithin(b, ps, slug);
    forall i | 0 <= i < |a + b| ensures l[i] == r[i] {
      if i >= |a| { assert (a + b)[i] == b[i - |a|]; }
    }
  }

  lemma {:induction false} GroupOfDemoteWithin(xs: seq<Record>, ps: seq<Record>, slug: string -> string, k: string)
    requires AllTitled(xs) && AllTitled(ps)
    ensures GroupOf(DemoteWithin(xs, ps, slug), slug, k) == DemoteWithin(GroupOf(xs, slug, k), ps, slug)
  {
    if xs != [] {
      var init, last := xs[..|xs| - 1], xs[|xs| - 1];
      GroupOfDemoteWithin(init, ps, slug, k);
      var d := DemoteWithin(xs, ps, slug);
      assert d[..|d| - 1] == DemoteWithin(init, ps, slug);
      var g := GroupOf(init, slug, k);
      if KeyOf(slug, last) == k {
        DemoteWithinAppend(g, [last], ps, slug);
      }
    }
  }

  /** The groups of xs named by keys, concatenated in the order of the keys. */
  function Regroup(xs: seq<Record>, slug: string -> string, keys: seq<string>): (r: seq<Record>)
    requires AllTitled(xs)
    ensures AllTitled(r)
  {
    if keys == [] then []
    else
      var init := Regroup(xs, slug, keys[..|keys| - 1]);
      var g := GroupOf(xs, slug, keys[|keys| - 1]);
      AllTitledAppend(init, g);
      init + g
  }

  lemma {:induction false} RegroupDemoteWithin(xs: seq<Record>, ps: seq<Record>, slug: string -> string, keys: seq<string>)
    requires AllTitled(xs) && AllTitled(ps)
    ensures Regroup(DemoteWithin(xs, ps, slug), slug, keys) == DemoteWithin(Regroup(xs, slug, keys), ps, slug)
  {
    if keys != [] {
      var init, k := keys[..|keys| - 1], keys[|keys| - 1];
      RegroupDemoteWithin(xs, ps, slug, init);
      GroupOfDemoteWithin(xs, ps, slug, k);
      DemoteWithinAppend(Regroup(xs, slug, init), GroupOf(xs, slug, k), ps, slug);
    }
  }

  /** Regrouping the pairing pass by any of its own keys gives the pass over those keys. */
  lemma {:induction false} RegroupMergeKeys(incoming: seq<Record>, cached: seq<Record>, slug: string -> string,
                                            keys: seq<string>, sub: seq<string>)
    requires AllTitled(incoming) && AllTitled(cached)
    requires forall k :: multiset(keys)[k] <= 1
    requires forall k :: k in sub ==> k in keys
    ensures Regroup(MergeKeys(incoming, cached, slug, keys), slug, sub) == MergeKeys(incoming, cached, slug, sub)
  {
    if sub != [] {
      var init, k := sub[..|sub| - 1], sub[|sub| - 1];
      RegroupMergeKeys(incoming, cached, slug, keys, init);
      GroupOfMergeKeys(incoming, cached, slug, keys, k);
    }
  }

  /** Spreading a record over one that already has all its keys gives the latter. */
  lemma PairGroupCovered(fs: seq<Record>, ys: seq<Record>)
    requires AllTitled(fs) && AllTitled(ys) && |fs| == |ys|
    requires forall i :: 0 <= i < |fs| ==> fs[i].Keys <= ys[i].Keys
    ensures PairGroup(fs, ys) == ys
  {
    forall i | 0 <= i < |fs| ensures PairGroup(fs, ys)[i] == ys[i] {
      assert Spread(fs[i], ys[i]) == ys[i];
    }
  }

  lemma {:induction false} MergeKeysCovered(incoming: seq<Record>, m: seq<Record>, slug: string -> string, keys: seq<string>)
    requires AllTitled(incoming) && AllTitled(m)
    requires forall k :: k in keys ==> PairGroup(GroupOf(incoming, slug, k), GroupOf(m, slug, k)) == GroupOf(m, slug, k)
    ensures MergeKeys(incoming, m, slug, keys) == Regroup(m, slug, keys)
  {
    if keys != [] {
      MergeKeysCovered(incoming, m, slug, keys[..|keys| - 1]);
    }
  }

  /** The keys of the incoming records survive pairing and demotion. */
  lemma MergedKeepsKeys(incoming: seq<Record>, cached: seq<Record>, ps: seq<Record>, slug: string -> string, k: string)
    requires AllTitled(incoming) && AllTitled(cached) && AllTitled(ps)
    ensures var fs := GroupOf(incoming, slug, k);
      var ys := DemoteWithin(PairGroup(fs, GroupOf(cached, slug, k)), ps, slug);
      forall i :: 0 <= i < |fs| ==> fs[i].Keys <= ys[i].Keys
  {
    var fs := GroupOf(incoming, slug, k);
    var pg := PairGroup(fs, GroupOf(cached, slug, k));
    var ys := DemoteWithin(pg, ps, slug);
    forall i, key | 0 <= i < |fs| && key in fs[i] ensures key in ys[i] {
      assert Get(pg[i], key).Some?;
      DemoteEffect(pg[i]);
      if key != "status" && key != "unknownState" {
        assert Get(ys[i], key) == Get(pg[i], key);
      }
    }
  }

  /** Merging the incoming list with the result of merging it gives that result
      back, for any key function: once cached, a merged watchlist is a fixed point. */
  lemma MergeFixpoint(incoming: seq<Record>, cached: seq<Record>, slug: string -> string)
    requires AllTitled(incoming) && AllTitled(cached)
    ensures var m := Demotion(MergePass(incoming, cached, slug), slug);
      Demotion(MergePass(incoming, m, slug), slug) == m
  {
    var keys := OwnKeysOrder(KeyOrder(incoming, slug));
    var mp := MergePass(incoming, cached, slug);
    var m := Demotion(mp, slug);
    forall k | k in keys
      ensures PairGroup(GroupOf(incoming, slug, k), GroupOf(m, slug, k)) == GroupOf(m, slug, k)
    {
      GroupOfDemoteWithin(mp, mp, slug, k);
      MergePassGroups(incoming, cached, slug, k);
      MergedKeepsKeys(incoming, cached, mp, slug, k);
      PairGroupCovered(GroupOf(incoming, slug, k), GroupOf(m, slug, k));
    }
    MergeKeysCovered(incoming, m, slug, keys);
    RegroupDemoteWithin(mp, mp, slug, keys);
    RegroupMergeKeys(incoming, cached, slug, keys, keys);
    DemotionIdempotent(mp, slug);
  }

  /** Reconciling the incoming list with the result of reconciling it gives that
      result back. */
  lemma ReconcileFixpoint(incoming: seq<Record>, cached: seq<Record>)
    requires AllTitled(incoming) && AllTitled(cached)
    ensures var m := Reconcile(incoming, cached, false);
      AllTitled(m) && Reconcile(incoming, m, false) == m
  {
    MergeFixpoint(incoming, cached, Slugify);
  }

  // ---------------------------------------------------------------------------
  // mergeWatchlists, on the objects
  // ---------------------------------------------------------------------------

  /** The movies of ms whose records, given by ps position by position, have key k,
      in list order: the group the grouping `reduce` builds for k. The t-th movie
      of the group holds the t-th record of the group of ps. */
  function Pick(ms: seq<Movie>, ps: seq<Record>, slug: string -> string, k: string): (g: seq<Movie>)
    requires |ms| == |ps| && AllTitled(ps)
    ensures |g| == |GroupOf(ps, slug, k)|
  {
    if ms == [] then []
    else
      var n := |ms| - 1;
      assert ps[..n] + [ps[n]] == ps;
      Pick(ms[..n], ps[..n], slug, k) + if KeyOf(slug, ps[n]) == k then [ms[n]] else []
  }

  /** The t-th movie of a group is a movie of the list holding the t-th record of
      the group of the records. */
  lemma {:induction false} PickMember(ms: seq<Movie>, ps: seq<Record>, slug: string -> string, k: string, t: nat)
    requires |ms| == |ps| && AllTitled(ps) && t < |Pick(ms, ps, slug, k)|
    ensures exists j :: 0 <= j < |ms| && Pick(ms, ps, slug, k)[t] == ms[j] && ps[j] == GroupOf(ps, slug, k)[t]
  {
    var n := |ms| - 1;
    assert ps[..n] + [ps[n]] == ps;
    var init := Pick(ms[..n], ps[..n], slug, k);
    if t < |init| {
      PickMember(ms[..n], ps[..n], slug, k, t);
      var j :| 0 <= j < n && init[t] == ms[..n][j] && ps[..n][j] == GroupOf(ps[..n], slug, k)[t];
      assert Pick(ms, ps, slug, k)[t] == ms[j] && ps[j] == GroupOf(ps, slug, k)[t];
    } else {
      assert Pick(ms, ps, slug, k)[t] == ms[n] && ps[n] == GroupOf(ps, slug, k)[t];
    }
  }

  /** A group holds movies of the list only. */
  lemma {:induction false} PickWithin(ms: seq<Movie>, ps: seq<Record>, slug: string -> string, k: string)
    requires |ms| == |ps| && AllTitled(ps)
    ensures forall m :: m in Pick(ms, ps, slug, k) ==> m in ms
  {
    if ms != [] {
      var n := |ms| - 1;
      PickWithin(ms[..n], ps[..n], slug, k);
    }
  }

  /** The movies of a group hold, in snap, titled records of the group's key. */
  lemma {:induction false} PickRecords(ms: seq<Movie>, ps: seq<Record>, slug: string -> string, k: string,
                                       snap: map<Movie, Record>)
    requires |ms| == |ps| && AllTitled(ps)
    requires forall i :: 0 <= i < |ms| ==> ms[i] in snap && snap[ms[i]] == ps[i]
    ensures forall m :: m in Pick(ms, ps, slug, k) ==> m in snap && Titled(snap[m]) && KeyOf(slug, snap[m]) == k
  {
    if ms != [] {
      var n := |ms| - 1;
      PickRecords(ms[..n], ps[..n], slug, k, snap);
    }
  }

  /** Every movie whose record, in snap, has key k is in the group of k. */
  lemma PickComplete(ms: seq<Movie>, ps: seq<Record>, slug: string -> string, k: string,
                     snap: map<Movie, Record>)
    requires |ms| == |ps| && AllTitled(ps)
    requires forall i :: 0 <= i < |ms| ==> ms[i] in snap && snap[ms[i]] == ps[i]
    ensures forall m :: m in snap && m in ms && KeyOf(slug, snap[m]) == k ==> m in Pick(ms, ps, slug, k)
  {
    forall m | m in snap && m in ms && KeyOf(slug, snap[m]) == k ensures m in Pick(ms, ps, slug, k) {
      var i :| 0 <= i < |ms| && ms[i] == m;
      InOwnPick(ms, ps, slug, i);
    }
  }

  /** Every movie is in the group of its own key. */
  lemma {:induction false} InOwnPick(ms: seq<Movie>, ps: seq<Record>, slug: string -> string, i: nat)
    requires |ms| == |ps| && AllTitled(ps) && i < |ms|
    ensures ms[i] in Pick(ms, ps, slug, KeyOf(slug, ps[i]))
  {
    var n := |ms| - 1;
    if i < n {
      InOwnPick(ms[..n], ps[..n], slug, i);
    }
  }

  /** The position of record i within the group of its own key: the number of
      records before it with the same key. */
  function Rank(ps: seq<Record>, slug: string -> string, i: nat): nat
    requires AllTitled(ps) && i < |ps|
  {
    assert AllTitled(ps[..i]) by {
      assert forall j :: 0 <= j < i ==> ps[..i][j] == ps[j];
    }
    |GroupOf(ps[..i], slug, KeyOf(slug, ps[i]))|
  }

  /** The movie at index i sits in the group of its key at its rank. */
  lemma {:induction false} PickAt(ms: seq<Movie>, ps: seq<Record>, slug: string -> string, i: nat)
    requires |ms| == |ps| && AllTitled(ps) && i < |ms|
    ensures Rank(ps, slug, i) < |GroupOf(ps, slug, KeyOf(slug, ps[i]))|
    ensures Pick(ms, ps, slug, KeyOf(slug, ps[i]))[Rank(ps, slug, i)] == ms[i]
  {
    var n := |ms| - 1;
    var k := KeyOf(slug, ps[i]);
    assert ps[..n] + [ps[n]] == ps;
    if i < n {
      PickAt(ms[..n], ps[..n], slug, i);
      assert ps[..n][..i] == ps[..i];
    }
  }

  /** Taking one more record extends the key order when its key is new. */
  lemma KeyOrderStep(ps: seq<Record>, slug: string -> string, i: nat)
    requires AllTitled(ps) && i < |ps|
    ensures var k, pre := KeyOf(slug, ps[i]), KeyOrder(ps[..i], slug);
      KeyOrder(ps[..i + 1], slug) == if k in pre then pre else pre + [k]
  {
    assert ps[..i + 1][..i] == ps[..i];
  }

  /** The accumulator the grouping `reduce` builds from the movies ms, whose
      records are ps: each movie is pushed onto the group of its key, which is
      created first when the key is new. */
  function GroupMap(ms: seq<Movie>, ps: seq<Record>, slug: string -> string): (groups: map<string, seq<Movie>>)
    requires |ms| == |ps| && AllTitled(ps)
  {
    if ms == [] then map[]
    else
      var n := |ms| - 1;
      var init := GroupMap(ms[..n], ps[..n], slug);
      var key := KeyOf(slug, ps[n]);
      var acc := if key in init then init else init[key := []];
      acc[key := acc[key] + [ms[n]]]
  }

  /** One step of the grouping `reduce`, in the terms the loop of `GroupBy` keeps:
      the key of the next movie has a group exactly when it is in the key order. */
  lemma GroupByStep(ms: seq<Movie>, ps: seq<Record>, slug: string -> string, i: nat)
    requires |ms| == |ps| && AllTitled(ps) && i < |ms|
    ensures var groups, order, key := GroupMap(ms[..i], ps[..i], slug), KeyOrder(ps[..i], slug), KeyOf(slug, ps[i]);
      var acc := if key in groups then groups else groups[key := []];
      && (key in groups <==> key in order)
      && GroupMap(ms[..i + 1], ps[..i + 1], slug) == acc[key := acc[key] + [ms[i]]]
      && KeyOrder(ps[..i + 1], slug) == if key in groups then order else order + [key]
  {
    var key := KeyOf(slug, ps[i]);
    var ms', ps' := ms[..i + 1], ps[..i + 1];
    TakeTake(ms, i);
    TakeTake(ps, i);
    assert ps'[|ps'| - 1] == ps[i] && ms'[|ms'| - 1] == ms[i];
    var groups, order := GroupMap(ms[..i], ps[..i], slug), KeyOrder(ps[..i], slug);
    GroupMapPick(ms[..i], ps[..i], slug, key);
    assert key in order <==> multiset(order)[key] > 0;
    assert KeyOrder(ps', slug) == if key in order then order else order + [key];
  }

  /** The accumulator has a group exactly for the keys of the list, and the group
      of a key holds the movies whose records are the group of that key. */
  lemma {:induction false} GroupMapPick(ms: seq<Movie>, ps: seq<Record>, slug: string -> string, k: string)
    requires |ms| == |ps| && AllTitled(ps)
    ensures k in GroupMap(ms, ps, slug) <==> GroupOf(ps, slug, k) != []
    ensures k in GroupMap(ms, ps, slug) ==> GroupMap(ms, ps, slug)[k] == Pick(ms, ps, slug, k)
  {
    if ms != [] {
      var n := |ms| - 1;
      assert ps[..n] + [ps[n]] == ps;
      GroupMapPick(ms[..n], ps[..n], slug, k);
    }
  }

  /** The grouping `reduce`: for each movie in turn, creates the group of its key
      if there is none yet and pushes the movie onto it. `order` lists the keys in
      the order the accumulator object created them. */
  method GroupBy(ms: seq<Movie>, slug: string -> string, ghost ps: seq<Record>) returns (groups: map<string, seq<Movie>>, order: seq<string>)
    requires |ps| == |ms| && AllTitled(ps) && forall i :: 0 <= i < |ms| ==> ms[i].props == ps[i]
    ensures groups == GroupMap(ms, ps, slug) && order == KeyOrder(ps, slug)
  {
    groups, order := map[], [];
    var i := 0;
    while i < |ms|
      invariant 0 <= i <= |ms|
      invariant groups == GroupMap(ms[..i], ps[..i], slug) && order == KeyOrder(ps[..i], slug)
    {
      var movie := ms[i];
      var key := slug(movie.props["googleTitle"].s);
      GroupByStep(ms, ps, slug, i);
      assert movie == ms[i] && key == KeyOf(slug, ps[i]);
      if key !in groups {
        groups := groups[key := []];
        order := order + [key];
      }
      groups := groups[key := groups[key] + [movie]];
      i := i + 1;
    }
    assert ms[..|ms|] == ms && ps[..|ms|] == ps;
  }

  /** The inner `forEach` of the pairing pass, over one group: the i-th new movie
      is spread with the i-th cached movie into a new object when there is one,
      and pushed as it is otherwise. fs and cs are the records the movies hold. */
  method PairMovies(newMovies: seq<Movie>, cachedMovies: seq<Movie>, ghost fs: seq<Record>, ghost cs: seq<Record>)
    returns (out: seq<Movie>)
    requires AllTitled(fs) && AllTitled(cs)
    requires |newMovies| == |fs| && forall t :: 0 <= t < |fs| ==> newMovies[t].props == fs[t]
    requires |cachedMovies| == |cs| && forall t :: 0 <= t < |cs| ==> cachedMovies[t].props == cs[t]
    ensures Props(out) == PairGroup(fs, cs)
    ensures forall t :: 0 <= t < |newMovies| ==> if t < |cachedMovies| then fresh(out[t]) else out[t] == newMovies[t]
    ensures forall m :: m in out ==> m in newMovies || fresh(m)
  {
    ghost var pg := PairGroup(fs, cs);
    out := [];
    var index := 0;
    while index < |newMovies|
      invariant 0 <= index <= |newMovies|
      invariant |out| == index && forall t :: 0 <= t < index ==> out[t].props == pg[t]
      invariant forall t :: 0 <= t < index ==> if t < |cachedMovies| then fresh(out[t]) else out[t] == newMovies[t]
      invariant forall m :: m in out ==> m in newMovies || fresh(m)
    {
      var mergedMovie := PairOne(newMovies[index], cachedMovies, index);
      out := out + [mergedMovie];
      index := index + 1;
    }
    assert Props(out) == pg;
  }

  /** The callback of the inner `forEach`: the new movie itself, or a new object
      spreading the cached movie at the same index over it. */
  method PairOne(newMovie: Movie, cachedMovies: seq<Movie>, index: nat) returns (mergedMovie: Movie)
    ensures index < |cachedMovies| ==>
              fresh(mergedMovie) && mergedMovie.props == Spread(newMovie.props, cachedMovies[index].props)
    ensures index >= |cachedMovies| ==> mergedMovie == newMovie
  {
    mergedMovie := newMovie;
    if index < |cachedMovies| {
      mergedMovie := new Movie(Spread(newMovie.props, cachedMovies[index].props));
    }
  }

  /** The movies of a group hold the records of the group. */
  lemma PickProps(ms: seq<Movie>, ps: seq<Record>, slug: string -> string, k: string)
    requires |ms| == |ps| && AllTitled(ps)
    requires forall i :: 0 <= i < |ms| ==> ms[i].props == ps[i]
    ensures Props(Pick(ms, ps, slug, k)) == GroupOf(ps, slug, k)
  {
    var g := Pick(ms, ps, slug, k);
    forall t | 0 <= t < |g| ensures g[t].props == GroupOf(ps, slug, k)[t] {
      PickMember(ms, ps, slug, k, t);
    }
  }

  /** What `groups[key] || []` yields: the movies of the list holding the group
      of key. */
  lemma GroupLookup(ms: seq<Movie>, ps: seq<Record>, slug: string -> string,
                    groups: map<string, seq<Movie>>, k: string)
    requires |ms| == |ps| && AllTitled(ps) && forall i :: 0 <= i < |ms| ==> ms[i].props == ps[i]
    requires groups == GroupMap(ms, ps, slug)
    ensures var g := if k in groups then groups[k] else [];
      Props(g) == GroupOf(ps, slug, k) && forall m :: m in g ==> m in ms
  {
    GroupMapPick(ms, ps, slug, k);
    PickProps(ms, ps, slug, k);
    PickWithin(ms, ps, slug, k);
  }

  /** One step of the outer `forEach` of the pairing pass. */
  lemma MergeKeysStep(merged: seq<Movie>, pair: seq<Movie>, incoming: seq<Record>, cached: seq<Record>,
                      slug: string -> string, keys: seq<string>, j: nat)
    requires AllTitled(incoming) && AllTitled(cached) && j < |keys|
    requires Props(merged) == MergeKeys(incoming, cached, slug, keys[..j])
    requires Props(pair) == PairGroup(GroupOf(incoming, slug, keys[j]), GroupOf(cached, slug, keys[j]))
    ensures Props(merged + pair) == MergeKeys(incoming, cached, slug, keys[..j + 1])
  {
    TakeTake(keys, j);
    PropsAppend(merged, pair);
  }

  /** Every movie of the new group k past the size of the cached group k, the
      movies the pairing pass leaves unpaired, is among ms. */
  ghost predicate UnpairedIn(newData: seq<Movie>, incoming: seq<Record>, cached: seq<Record>,
                             slug: string -> string, k: string, ms: seq<Movie>)
    requires |newData| == |incoming| && AllTitled(incoming) && AllTitled(cached)
  {
    forall t :: |GroupOf(cached, slug, k)| <= t < |GroupOf(incoming, slug, k)| ==> Pick(newData, incoming, slug, k)[t] in ms
  }

  /** Appending the pairing of one more key keeps the unpaired movies of the
      keys before it and adds those of that key. */
  lemma UnpairedInStep(newData: seq<Movie>, incoming: seq<Record>, cached: seq<Record>, slug: string -> string,
                       keys: seq<string>, j: nat, merged: seq<Movie>, pair: seq<Movie>)
    requires |newData| == |incoming| && AllTitled(incoming) && AllTitled(cached) && j < |keys|
    requires forall k :: k in keys[..j] ==> UnpairedIn(newData, incoming, cached, slug, k, merged)
    requires UnpairedIn(newData, incoming, cached, slug, keys[j], pair)
    ensures forall k :: k in keys[..j + 1] ==> UnpairedIn(newData, incoming, cached, slug, k, merged + pair)
  {
    assert keys[..j + 1] == keys[..j] + [keys[j]];
  }

  /** One call of the outer `forEach` of the pairing pass: the new group of key
      paired with the cached group of the same key, or with none. */
  method PairKey(newGroups: map<string, seq<Movie>>, cachedGroups: map<string, seq<Movie>>,
                 key: string, slug: string -> string,
                 ghost newData: seq<Movie>, ghost cachedData: seq<Movie>,
                 ghost incoming: seq<Record>, ghost cached: seq<Record>)
    returns (pair: seq<Movie>)
    requires |newData| == |incoming| && AllTitled(incoming)
    requires |cachedData| == |cached| && AllTitled(cached)
    requires forall i :: 0 <= i < |newData| ==> newData[i].props == incoming[i]
    requires forall i :: 0 <= i < |cachedData| ==> cachedData[i].props == cached[i]
    requires newGroups == GroupMap(newData, incoming, slug) && cachedGroups == GroupMap(cachedData, cached, slug)
    requires key in newGroups
    ensures Props(pair) == PairGroup(GroupOf(incoming, slug, key), GroupOf(cached, slug, key))
    ensures UnpairedIn(newData, incoming, cached, slug, key, pair)
    ensures forall m :: m in pair ==> m in newData || fresh(m)
  {
    GroupMapPick(newData, incoming, slug, key);
    GroupMapPick(cachedData, cached, slug, key);
    var newMovies := newGroups[key];
    var cachedMovies := if key in cachedGroups then cachedGroups[key] else [];
    GroupLookup(newData, incoming, slug, newGroups, key);
    GroupLookup(cachedData, cached, slug, cachedGroups, key);
    pair := PairMovies(newMovies, cachedMovies, GroupOf(incoming, slug, key), GroupOf(cached, slug, key));
  }

  /** The outer `forEach` of the pairing pass: the groups of the new list, in the
      order given, each paired with the cached group of the same key. */
  method PairGroups(newGroups: map<string, seq<Movie>>, cachedGroups: map<string, seq<Movie>>,
                    keys: seq<string>, slug: string -> string,
                    ghost newData: seq<Movie>, ghost cachedData: seq<Movie>,
                    ghost incoming: seq<Record>, ghost cached: seq<Record>)
    returns (merged: seq<Movie>)
    requires |newData| == |incoming| && AllTitled(incoming)
    requires |cachedData| == |cached| && AllTitled(cached)
    requires forall i :: 0 <= i < |newData| ==> newData[i].props == incoming[i]
    requires forall i :: 0 <= i < |cachedData| ==> cachedData[i].props == cached[i]
    requires newGroups == GroupMap(newData, incoming, slug) && cachedGroups == GroupMap(cachedData, cached, slug)
    requires forall k :: k in keys ==> k in newGroups
    ensures Props(merged) == MergeKeys(incoming, cached, slug, keys)
    ensures forall k :: k in keys ==> UnpairedIn(newData, incoming, cached, slug, k, merged)
    ensures forall m :: m in merged ==> m in newData || fresh(m)
  {
    merged := [];
    var j := 0;
    while j < |keys|
      invariant 0 <= j <= |keys|
      invariant Props(merged) == MergeKeys(incoming, cached, slug, keys[..j])
      invariant forall k :: k in keys[..j] ==> UnpairedIn(newData, incoming, cached, slug, k, merged)
      invariant forall m :: m in merged ==> m in newData || fresh(m)
    {
      var pair := PairKey(newGroups, cachedGroups, keys[j], slug, newData, cachedData, incoming, cached);
      MergeKeysStep(merged, pair, incoming, cached, slug, keys, j);
      UnpairedInStep(newData, incoming, cached, slug, keys, j, merged, pair);
      merged := merged + pair;
      j := j + 1;
    }
    assert keys[..|keys|] == keys;
  }

  /** The decision the demotion pass makes for a record of the merged list ps. */
  ghost function Decide(p: Record, ps: seq<Record>, slug: string -> string): Record
    requires Titled(p) && AllTitled(ps)
  {
    DemoteIfDuplicate(p, |GroupOf(ps, slug, KeyOf(slug, p))|)
  }

  /** The inner `forEach` of the demotion pass, over one group of two or more:
      every member that is not fully known gets `status.known` set to false and
      `unknownState` set to `'duplicate'`, in place. snap holds the records the
      movies had before the pass, and a movie met twice is demoted once. */
  method DemoteGroup(group: seq<Movie>, ghost snap: map<Movie, Record>)
    requires |group| > 1
    requires forall m :: m in group ==> m in snap
    requires forall m :: m in group ==> m.props == snap[m] || m.props == Demote(snap[m])
    requires forall m :: m in group && FullyKnown(snap[m]) ==> m.props == snap[m]
    modifies set m | m in group
    ensures forall m :: m in group ==> m.props == DemoteIfDuplicate(snap[m], |group|)
  {
    var t := 0;
    while t < |group|
      invariant 0 <= t <= |group|
      invariant forall s :: 0 <= s < t ==> group[s].props == DemoteIfDuplicate(snap[group[s]], |group|)
      invariant forall m :: m in group ==> m.props == snap[m] || m.props == Demote(snap[m])
      invariant forall m :: m in group && FullyKnown(snap[m]) ==> m.props == snap[m]
    {
      var movie := group[t];
      DemoteEffect(snap[movie]);
      DemoteIdempotent(snap[movie]);
      if !FullyKnown(movie.props) {
        movie.props := movie.props["status" := Obj(SpreadOf(Get(movie.props, "status"))["known" := Bool(false)])];
        movie.props := movie.props["unknownState" := Str("duplicate")];
      }
      t := t + 1;
    }
  }

  /** The outer `forEach` of the demotion pass, over the groups listed by keys:
      each group of two or more is demoted. snap holds the records the movies had
      before the pass, ps the merged list; every group holds exactly the movies
      whose records have its key. */
  method DemoteGroups(groups: map<string, seq<Movie>>, keys: seq<string>, slug: string -> string,
                      ghost snap: map<Movie, Record>, ghost ps: seq<Record>)
    requires AllTitled(ps) && forall m :: m in snap ==> Titled(snap[m])
    requires forall k :: k in keys ==> k in groups
    requires forall k :: k in groups ==> |groups[k]| == |GroupOf(ps, slug, k)|
    requires forall k, m :: k in groups && m in groups[k] ==> m in snap && KeyOf(slug, snap[m]) == k
    requires forall k, m :: k in groups && m in snap && KeyOf(slug, snap[m]) == k ==> m in groups[k]
    requires forall m :: m in snap ==> m.props == snap[m]
    modifies snap.Keys
    ensures forall m :: m in snap ==> m.props == if KeyOf(slug, snap[m]) in keys then Decide(snap[m], ps, slug) else snap[m]
  {
    ghost var seen: set<string> := {};
    var j := 0;
    while j < |keys|
      invariant 0 <= j <= |keys|
      invariant forall k :: k in seen <==> k in keys[..j]
      invariant forall m :: m in snap ==> m.props == if KeyOf(slug, snap[m]) in seen then Decide(snap[m], ps, slug) else snap[m]
    {
      var group := groups[keys[j]];
      assert forall m :: m in group ==> Decide(snap[m], ps, slug) == DemoteIfDuplicate(snap[m], |group|);
      if |group| > 1 {
        DemoteGroup(group, snap);
      }
      seen := seen + {keys[j]};
      TakeTake(keys, j);
      j := j + 1;
    }
    assert keys[..|keys|] == keys;
  }

  /** The demotion pass: regroups the merged movies and, in every group of two or
      more, demotes in place each member that is not fully known. */
  method DemoteDuplicates(merged: seq<Movie>, slug: string -> string)
    requires AllTitled(Props(merged))
    modifies set m | m in merged
    ensures Props(merged) == Demotion(old(Props(merged)), slug)
    ensures forall m :: m in merged ==> m.props == old(m.props) || m.props == Demote(old(m.props))
  {
    ghost var ps := Props(merged);
    var groups, order := GroupBy(merged, slug, ps);
    ghost var snap := map m | m in merged :: m.props;
    assert forall i :: 0 <= i < |merged| ==> merged[i] in snap && snap[merged[i]] == ps[i];
    var keys := OwnKeysOrder(order);
    forall k | k in keys ensures k in groups {
      GroupMapPick(merged, ps, slug, k);
      assert multiset(keys)[k] > 0;
    }
    forall k | k in groups
      ensures |groups[k]| == |GroupOf(ps, slug, k)|
      ensures forall m :: m in groups[k] ==> m in snap && KeyOf(slug, snap[m]) == k
      ensures forall m :: m in snap && KeyOf(slug, snap[m]) == k ==> m in groups[k]
    {
      GroupMapPick(merged, ps, slug, k);
      PickRecords(merged, ps, slug, k, snap);
      PickComplete(merged, ps, slug, k, snap);
    }
    forall i | 0 <= i < |merged| ensures KeyOf(slug, ps[i]) in keys {
      var k := KeyOf(slug, ps[i]);
      InOwnGroup(ps, slug, i);
      assert multiset(keys)[k] == multiset(order)[k] == 1;
    }
    DemoteGroups(groups, keys, slug, snap, ps);
    DemotedProps(merged, ps, slug, snap, keys);
  }

  /** After the demotion pass the movies hold the demoted list. */
  lemma DemotedProps(merged: seq<Movie>, ps: seq<Record>, slug: string -> string,
                     snap: map<Movie, Record>, keys: seq<string>)
    requires |ps| == |merged| && AllTitled(ps) && forall m :: m in snap ==> Titled(snap[m])
    requires forall i :: 0 <= i < |merged| ==> merged[i] in snap && snap[merged[i]] == ps[i]
    requires forall i :: 0 <= i < |merged| ==> KeyOf(slug, ps[i]) in keys
    requires forall m :: m in snap ==> m.props == if KeyOf(slug, snap[m]) in keys then Decide(snap[m], ps, slug) else snap[m]
    ensures Props(merged) == Demotion(ps, slug)
    ensures forall m :: m in merged ==> m.props == snap[m] || m.props == Demote(snap[m])
  {
    var out := DemoteWithin(ps, ps, slug);
    forall i | 0 <= i < |merged| ensures merged[i].props == out[i] {
    }
  }

  /** `mergeWatchlists(newData, cachedData, skipCache)`. With `skipCache` the new
      list itself is returned. Otherwise the result holds, for each group of the new
      list, its movies paired with the cached movies of the same group, and the
      duplicates demoted: new movies left unpaired are the caller's own objects and
      may be demoted in place, paired ones are new objects, and a cached movie is
      touched only when the same object is also in the new list. */
  method MergeWatchlists(newData: seq<Movie>, cachedData: seq<Movie>, skipCache: bool) returns (merged: seq<Movie>)
    requires !skipCache ==> AllKeyed(Props(newData)) && AllKeyed(Props(cachedData))
    modifies set m | m in newData
    ensures skipCache ==> merged == newData && forall m :: m in newData ==> m.props == old(m.props)
    ensures !skipCache ==> AllTitled(old(Props(newData))) && AllTitled(old(Props(cachedData)))
    ensures !skipCache ==> Props(merged) == Reconcile(old(Props(newData)), old(Props(cachedData)), false)
    ensures forall m :: m in merged ==> m in newData || fresh(m)
    ensures !skipCache ==> forall i :: 0 <= i < |newData| && !Paired(old(Props(newData)), old(Props(cachedData)), i) ==>
              newData[i] in merged
    ensures forall m :: m in newData ==> m.props == old(m.props) || m.props == Demote(old(m.props))
    ensures forall m :: m in newData && m !in merged ==> m.props == old(m.props)
    ensures forall m :: m in cachedData && m !in newData ==> m.props == old(m.props)
  {
    if skipCache {
      return newData;
    }
    ghost var incoming, cached := Props(newData), Props(cachedData);
    assert AllTitled(incoming) && AllTitled(cached) by {
      assert forall i :: 0 <= i < |incoming| ==> Keyed(incoming[i]);
      assert forall i :: 0 <= i < |cached| ==> Keyed(cached[i]);
    }
    var cachedGroups, cachedOrder := GroupBy(cachedData, Slugify, cached);
    var newGroups, newOrder := GroupBy(newData, Slugify, incoming);
    var keys := OwnKeysOrder(newOrder);
    forall k | k in keys ensures k in newGroups {
      assert multiset(newOrder)[k] == multiset(keys)[k] > 0;
      GroupMapPick(newData, incoming, Slugify, k);
    }
    merged := PairGroups(newGroups, cachedGroups, keys, Slugify, newData, cachedData, incoming, cached);
    UnpairedKept(newData, incoming, cached, newOrder, keys, merged);
    DemoteDuplicates(merged, Slugify);
  }

  /** Every new movie the pairing pass leaves unpaired is in its result, as the
      same object. */
  lemma UnpairedKept(newData: seq<Movie>, incoming: seq<Record>, cached: seq<Record>,
                     order: seq<string>, keys: seq<string>, merged: seq<Movie>)
    requires |newData| == |incoming| && AllTitled(incoming) && AllTitled(cached)
    requires order == KeyOrder(incoming, Slugify) && multiset(keys) == multiset(order)
    requires forall k :: k in keys ==> UnpairedIn(newData, incoming, cached, Slugify, k, merged)
    ensures forall i :: 0 <= i < |newData| && !Paired(incoming, cached, i) ==> newData[i] in merged
  {
    forall i | 0 <= i < |newData| && !Paired(incoming, cached, i) ensures newData[i] in merged {
      var k, r := KeyOf(Slugify, incoming[i]), Rank(incoming, Slugify, i);
      PickAt(newData, incoming, Slugify, i);
      assert k in keys by {
        assert GroupOf(incoming, Slugify, k) != [];
        assert multiset(keys)[k] == multiset(order)[k] == 1;
      }
      assert UnpairedIn(newData, incoming, cached, Slugify, k, merged);
      assert |GroupOf(cached, Slugify, k)| <= r < |GroupOf(incoming, Slugify, k)|;
    }
  }

  // ---------------------------------------------------------------------------
  // updateMovie and removeMovie: point edits of the two cached lists
  // ---------------------------------------------------------------------------

  /** `item.uuid === uuid`: strict equality, so an absent `uuid` argument matches
      exactly the records that have no `uuid`. */
  predicate HasUuid(item: Record, uuid: Option<Json>) {
    StrictEquals(Get(item, "uuid"), uuid)
  }

  /** Entry j is the first entry of the list that has the uuid. */
  predicate FirstWith(list: seq<Record>, uuid: Option<Json>, j: int)
    requires 0 <= j < |list|
  {
    HasUuid(list[j], uuid) && forall k :: 0 <= k < j ==> !HasUuid(list[k], uuid)
  }

  /** `list.findIndex(item => item.uuid === uuid)`: the index of the first entry
      with the uuid, or -1 when there is none. */
  function FindIndex(list: seq<Record>, uuid: Option<Json>): (i: int)
    ensures -1 <= i < |list|
    ensures 0 <= i ==> FirstWith(list, uuid, i)
    ensures i == -1 ==> forall j :: 0 <= j < |list| ==> !HasUuid(list[j], uuid)
  {
    if list == [] then -1
    else if HasUuid(list[0], uuid) then 0
    else
      var i := FindIndex(list[1..], uuid);
      if i == -1 then -1 else i + 1
  }

  /** The patch `updateMovie` merges: `movieData`, or `{}` when it is left out. */
  function PatchOf(movieData: Option<Json>): Json {
    if movieData.Some? then movieData.value else Obj(map[])
  }

  /** `list[i] = deepMerge(list[i], patch)` at the first entry with the uuid. With
      no such entry the index is -1, `deepMerge(undefined, patch)` is `undefined`,
      and the assignment creates a property "-1" that `JSON.stringify` does not
      write out: the saved list is the old one. Either way the list keeps its
      length, and only the first entry with the uuid changes. */
  function Patched(list: seq<Record>, uuid: Option<Json>, patch: Json): (r: seq<Record>)
    ensures |r| == |list|
    ensures forall j :: 0 <= j < |list| ==>
              r[j] == if FirstWith(list, uuid, j) then MergeOne(Obj(list[j]), patch).fields else list[j]
  {
    var i := FindIndex(list, uuid);
    if i == -1 then list else list[i := MergeOne(Obj(list[i]), patch).fields]
  }

  /** Where the patch is an object, the patched entry holds everything it says,
      and keeps the fields it does not mention. */
  lemma PatchedCovers(list: seq<Record>, uuid: Option<Json>, patch: Json, j: int)
    requires 0 <= j < |list| && FirstWith(list, uuid, j) && patch.Obj?
    ensures Covers(Obj(Patched(list, uuid, patch)[j]), patch)
    ensures forall k :: k in list[j] && k !in patch.fields ==>
              k in Patched(list, uuid, patch)[j] && Patched(list, uuid, patch)[j][k] == list[j][k]
  {
    MergeOneCovers(Obj(list[j]), patch);
  }

  /** Applying the same update twice saves what applying it once does, as long as
      the patch does not rewrite the uuid the entry was found by. */
  lemma PatchedIdempotent(list: seq<Record>, uuid: Option<Json>, patch: Json)
    requires patch.Obj? ==> "uuid" !in patch.fields
    ensures Patched(Patched(list, uuid, patch), uuid, patch) == Patched(list, uuid, patch)
  {
    var i := FindIndex(list, uuid);
    if i != -1 {
      var once := Patched(list, uuid, patch);
      var merged := MergeOne(Obj(list[i]), patch);
      if patch.Obj? {
        MergeOneCovers(Obj(list[i]), patch);
      }
      assert Get(merged.fields, "uuid") == Get(list[i], "uuid");
      assert FirstWith(once, uuid, i) by {
        forall k | 0 <= k < i ensures !HasUuid(once[k], uuid) {
          assert once[k] == list[k];
        }
      }
      assert FindIndex(once, uuid) == i;
      MergeOneIdempotent(Obj(list[i]), patch);
    }
  }

  /** `list.filter(item => item.uuid !== uuid)` */
  function Without(list: seq<Record>, uuid: Option<Json>): seq<Record> {
    Where(list, "uuid", uuid, false)
  }

  /** The two cache files, `watchlist.json` and `unknownlist.json`, as the `data`
      lists they hold. Reading a file is reading the field; writing it back is
      assigning the field. */
  class Cache {
    var watchlist: seq<Record>
    var unknownlist: seq<Record>

    constructor(watchlist: seq<Record>, unknownlist: seq<Record>)
      ensures this.watchlist == watchlist && this.unknownlist == unknownlist
    {
      this.watchlist := watchlist;
      this.unknownlist := unknownlist;
    }

    /** `updateMovie(uuid, movieData = {})`: deep-merges the patch into the first
        entry with the uuid in each list, and answers true. */
    method UpdateMovie(uuid: Option<Json>, movieData: Option<Json>) returns (ok: bool)
      modifies this
      ensures watchlist == Patched(old(watchlist), uuid, PatchOf(movieData))
      ensures unknownlist == Patched(old(unknownlist), uuid, PatchOf(movieData))
      ensures ok
    {
      var patch := if movieData.Some? then movieData.value else Obj(map[]);
      var wIndex := FindIndex(watchlist, uuid);
      var uIndex := FindIndex(unknownlist, uuid);
      if wIndex != -1 {
        var merged := DeepMerge(Obj(watchlist[wIndex]), [patch]);
        watchlist := watchlist[wIndex := merged.fields];
      }
      if uIndex != -1 {
        var merged := DeepMerge(Obj(unknownlist[uIndex]), [patch]);
        unknownlist := unknownlist[uIndex := merged.fields];
      }
      ok := true;
    }

    /** `removeMovie(uuid)`: drops every entry with the uuid from the unknown
        list, leaves the watchlist alone, and answers true. */
    method RemoveMovie(uuid: Option<Json>) returns (ok: bool)
      modifies this
      ensures unknownlist == Without(old(unknownlist), uuid)
      ensures watchlist == old(watchlist)
      ensures ok
    {
      unknownlist := Without(unknownlist, uuid);
      ok := true;
    }
  }
}
