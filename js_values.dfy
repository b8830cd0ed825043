/** The JavaScript values the watchlist code handles once a cache document has been
    parsed, and the few language operations on them that the code relies on:
    truthiness, `||`, property access, strict equality, `String(v)`, object spread
    and the order in which `Object.keys` lists an object's own keys. */
module JsValues {

  datatype Option<+T> = None | Some(value: T)

  /** A value of a parsed JSON document. Numbers are integers (ids, timestamps,
      years); an object is the map from its own property names to their values. */
  datatype Json =
    | Null
    | Bool(b: bool)
    | Num(n: int)
    | Str(s: string)
    | Arr(items: seq<Json>)
    | Obj(fields: map<string, Json>)

  /** A plain object: a media record, its `status`, a patch. A property whose value
      is `undefined` is absent from the map (JSON.stringify drops it as well). */
  type Record = map<string, Json>

  /** `obj[key]`; None is `undefined`. */
  function Get(r: Record, key: string): (v: Option<Json>)
    ensures v.Some? <==> key in r
    ensures v.Some? ==> v.value == r[key]
  {
    if key in r then Some(r[key]) else None
  }

  /** Sets `obj[key] = v`, where storing `undefined` leaves no property behind. */
  function Put(r: Record, key: string, v: Option<Json>): Record {
    if v.Some? then r[key := v.value] else r - {key}
  }

  /** JavaScript truthiness of a value (None is `undefined`). */
  predicate Truthy(v: Option<Json>) {
    match v
    case None => false
    case Some(Null) => false
    case Some(Bool(b)) => b
    case Some(Num(n)) => n != 0
    case Some(Str(s)) => s != ""
    case Some(_) => true
  }

  /** `a || b`: the first operand if it is truthy, else the second. */
  function Or(a: Option<Json>, b: Option<Json>): (r: Option<Json>)
    ensures Truthy(a) ==> r == a
    ensures !Truthy(a) ==> r == b
    ensures Truthy(r) <==> Truthy(a) || Truthy(b)
  {
    if Truthy(a) then a else b
  }

  /** `v.name` for a property name that is not an array index, on a value that is
      neither null nor undefined: objects give their own property, strings and
      arrays only their `length`, numbers and booleans nothing. */
  function Member(v: Json, name: string): (r: Option<Json>)
    requires !IsArrayIndex(name) && !v.Null?
    ensures v.Obj? ==> r == Get(v.fields, name)
    ensures v.Arr? ==> r == if name == "length" then Some(Num(|v.items|)) else None
    ensures v.Str? ==> r == if name == "length" then Some(Num(|v.s|)) else None
    ensures (v.Bool? || v.Num?) ==> r == None
  {
    match v
    case Obj(m) => Get(m, name)
    case Arr(items) => if name == "length" then Some(Num(|items|)) else None
    case Str(s) => if name == "length" then Some(Num(|s|)) else None
    case _ => None
  }

  /** `v[i]` on a value that is neither null nor undefined. */
  function At(v: Json, i: nat): (r: Option<Json>)
    ensures v.Arr? ==> (r.Some? <==> i < |v.items|)
    ensures v.Arr? && i < |v.items| ==> r == Some(v.items[i])
  {
    match v
    case Arr(items) => if i < |items| then Some(items[i]) else None
    case Str(s) => if i < |s| then Some(Str([s[i]])) else None
    case Obj(m) => Get(m, DecimalString(i))
    case _ => None
  }

  /** `a === b`. Two objects or arrays read from separately parsed documents are
      never the same object, so they are never strictly equal. */
  predicate StrictEquals(a: Option<Json>, b: Option<Json>) {
    match (a, b)
    case (None, None) => true
    case (Some(Null), Some(Null)) => true
    case (Some(Bool(x)), Some(Bool(y))) => x == y
    case (Some(Num(x)), Some(Num(y))) => x == y
    case (Some(Str(x)), Some(Str(y))) => x == y
    case _ => false
  }

  /** `{...v}`: the own enumerable properties of v as a fresh object; null,
      undefined, booleans and numbers spread to nothing, a string or an array to
      its indexed elements. */
  function SpreadOf(v: Option<Json>): (r: Record)
    ensures v.Some? && v.value.Obj? ==> r == v.value.fields
    ensures v.None? || (v.Some? && (v.value.Null? || v.value.Bool? || v.value.Num?)) ==> r == map[]
  {
    match v
    case Some(Obj(m)) => m
    case Some(Arr(items)) => IndexedProps(items)
    case Some(Str(s)) => IndexedProps(seq(|s|, i requires 0 <= i < |s| => Str([s[i]])))
    case _ => map[]
  }

  /** The object `{0: xs[0], 1: xs[1], ...}`. */
  function IndexedProps(xs: seq<Json>): Record
  {
    if xs == [] then map[]
    else IndexedProps(xs[..|xs| - 1])[DecimalString(|xs| - 1) := xs[|xs| - 1]]
  }

  // ---------------------------------------------------------------------------
  // Decimal numerals, array indices and String(v)
  // ---------------------------------------------------------------------------

  predicate IsDigit(c: char) { '0' <= c <= '9' }

  function DigitChar(d: nat): (c: char)
    requires d < 10
    ensures IsDigit(c)
  {
    ['0', '1', '2', '3', '4', '5', '6', '7', '8', '9'][d]
  }

  /** The decimal numeral of n, without leading zeros. */
  function DecimalString(n: nat): (s: string)
    ensures |s| > 0 && (forall i :: 0 <= i < |s| ==> IsDigit(s[i]))
    ensures s[0] == '0' ==> |s| == 1
  {
    if n < 10 then [DigitChar(n)] else DecimalString(n / 10) + [DigitChar(n % 10)]
  }

  /** The number a string of digits denotes. */
  function DecimalValue(s: string): nat
    requires forall i :: 0 <= i < |s| ==> IsDigit(s[i])
  {
    if s == [] then 0
    else
      assert IsDigit(s[|s| - 1]);
      10 * DecimalValue(s[..|s| - 1]) + (s[|s| - 1] as int - '0' as int)
  }

  /** ECMAScript's array index: the canonical numeral of an integer below 2^32 - 1. */
  predicate IsArrayIndex(k: string) {
    && |k| > 0
    && (forall i :: 0 <= i < |k| ==> IsDigit(k[i]))
    && (k[0] != '0' || |k| == 1)
    && DecimalValue(k) < 0xFFFF_FFFF
  }

  /** `String(v)` (and the conversion `+` applies to a non-string operand). */
  function ToJsString(v: Option<Json>): string
    decreases if v.Some? then v.value else Null, if v.Some? then 1 else 0
  {
    match v
    case None => "undefined"
    case Some(Null) => "null"
    case Some(Bool(b)) => if b then "true" else "false"
    case Some(Num(n)) => if n < 0 then "-" + DecimalString(-n) else DecimalString(n)
    case Some(Str(s)) => s
    case Some(Arr(items)) => JoinElements(v.value, |items|)
    case Some(Obj(_)) => "[object Object]"
  }

  /** `Array.prototype.join(',')` on the first n elements of an array: null and
      undefined elements become empty. */
  function JoinElements(arr: Json, n: nat): string
    requires arr.Arr? && n <= |arr.items|
    decreases arr, 0, n
  {
    if n == 0 then ""
    else
      var last := arr.items[n - 1];
      assert last < arr;
      var piece := if last.Null? then "" else ToJsString(Some(last));
      if n == 1 then piece else JoinElements(arr, n - 1) + "," + piece
  }

  // ---------------------------------------------------------------------------
  // The order of Object.keys
  // ---------------------------------------------------------------------------

  /** Keeps the keys that are array indices (`want`) or the others (`!want`), in order. */
  function FilterIndexKeys(ks: seq<string>, want: bool): (r: seq<string>)
    ensures multiset(r) <= multiset(ks)
  {
    if ks == [] then []
    else
      var rest := FilterIndexKeys(ks[..|ks| - 1], want);
      var k := ks[|ks| - 1];
      assert ks == ks[..|ks| - 1] + [k];
      if IsArrayIndex(k) == want then rest + [k] else rest
  }

  /** The kept keys are exactly the keys of the list of the wanted kind. */
  lemma {:induction false} FilterIndexKeysMembers(ks: seq<string>, want: bool)
    ensures forall k :: k in FilterIndexKeys(ks, want) <==> k in ks && IsArrayIndex(k) == want
  {
    if ks != [] {
      FilterIndexKeysMembers(ks[..|ks| - 1], want);
      assert ks == ks[..|ks| - 1] + [ks[|ks| - 1]];
    }
  }

  lemma {:induction false} FilterIndexKeysSplit(ks: seq<string>)
    ensures multiset(FilterIndexKeys(ks, true)) + multiset(FilterIndexKeys(ks, false)) == multiset(ks)
  {
    if ks != [] {
      FilterIndexKeysSplit(ks[..|ks| - 1]);
      assert ks == ks[..|ks| - 1] + [ks[|ks| - 1]];
    }
  }

  /** The numeric value of an array-index key (0 for any other key). */
  function IndexValue(k: string): nat {
    if IsArrayIndex(k) then DecimalValue(k) else 0
  }

  /** A key paired with the number it is ordered by. */
  datatype Ranked = Ranked(rank: nat, key: string)

  predicate Ascending(ps: seq<Ranked>) {
    forall i, j :: 0 <= i < j < |ps| ==> ps[i].rank <= ps[j].rank
  }

  /** Inserts into a list kept in ascending rank, after every entry of equal rank. */
  function Insert(p: Ranked, sorted: seq<Ranked>): (r: seq<Ranked>)
    ensures multiset(r) == multiset(sorted) + multiset{p}
  {
    if sorted == [] then [p]
    else if p.rank < sorted[0].rank then [p] + sorted
    else
      assert sorted == [sorted[0]] + sorted[1..];
      [sorted[0]] + Insert(p, sorted[1..])
  }

  lemma {:induction false} InsertAscending(p: Ranked, sorted: seq<Ranked>)
    requires Ascending(sorted)
    ensures Ascending(Insert(p, sorted))
  {
    if sorted != [] && p.rank >= sorted[0].rank {
      var rest := sorted[1..];
      var tail := Insert(p, rest);
      assert Ascending(rest) by {
        forall i, j | 0 <= i < j < |rest| ensures rest[i].rank <= rest[j].rank {
          assert rest[i] == sorted[i + 1] && rest[j] == sorted[j + 1];
        }
      }
      InsertAscending(p, rest);
      assert forall i :: 0 <= i < |rest| ==> sorted[0].rank <= rest[i].rank by {
        forall i | 0 <= i < |rest| ensures sorted[0].rank <= rest[i].rank {
          assert rest[i] == sorted[i + 1];
        }
      }
      InsertBound(p, rest, tail, sorted[0].rank);
      var r := [sorted[0]] + tail;
      assert Insert(p, sorted) == r;
      forall i, j | 0 <= i < j < |r| ensures r[i].rank <= r[j].rank {
        if i > 0 { assert r[i] == tail[i - 1] && r[j] == tail[j - 1]; }
      }
    }
  }

  lemma {:induction false} InsertKeys(p: Ranked, sorted: seq<Ranked>)
    ensures multiset(Keys(Insert(p, sorted))) == multiset(Keys(sorted)) + multiset{p.key}
  {
    if sorted == [] {
    } else if p.rank < sorted[0].rank {
      KeysAppend([p], sorted);
    } else {
      var tail := Insert(p, sorted[1..]);
      InsertKeys(p, sorted[1..]);
      assert sorted == [sorted[0]] + sorted[1..];
      KeysAppend([sorted[0]], sorted[1..]);
      KeysAppend([sorted[0]], tail);
    }
  }

  lemma KeysAppend(a: seq<Ranked>, b: seq<Ranked>)
    ensures Keys(a + b) == Keys(a) + Keys(b)
  {
  }

  lemma InsertBound(p: Ranked, s: seq<Ranked>, t: seq<Ranked>, lo: nat)
    requires multiset(t) == multiset(s) + multiset{p}
    requires lo <= p.rank && forall i :: 0 <= i < |s| ==> lo <= s[i].rank
    ensures forall j :: 0 <= j < |t| ==> lo <= t[j].rank
  {
    forall j | 0 <= j < |t| ensures lo <= t[j].rank {
      assert t[j] in multiset(t);
      if t[j] != p {
        assert t[j] in multiset(s);
        var i :| 0 <= i < |s| && s[i] == t[j];
      }
    }
  }

  /** Stable insertion sort by rank. */
  function SortRanked(ps: seq<Ranked>): (r: seq<Ranked>)
    ensures multiset(r) == multiset(ps)
    ensures multiset(Keys(r)) == multiset(Keys(ps))
  {
    if ps == [] then []
    else
      assert ps == ps[..|ps| - 1] + [ps[|ps| - 1]];
      KeysAppend(ps[..|ps| - 1], [ps[|ps| - 1]]);
      InsertKeys(ps[|ps| - 1], SortRanked(ps[..|ps| - 1]));
      Insert(ps[|ps| - 1], SortRanked(ps[..|ps| - 1]))
  }

  lemma {:induction false} SortRankedAscending(ps: seq<Ranked>)
    ensures Ascending(SortRanked(ps))
  {
    if ps != [] {
      SortRankedAscending(ps[..|ps| - 1]);
      InsertAscending(ps[|ps| - 1], SortRanked(ps[..|ps| - 1]));
    }
  }

  function Keys(ps: seq<Ranked>): (ks: seq<string>)
    ensures |ks| == |ps| && forall i :: 0 <= i < |ps| ==> ks[i] == ps[i].key
  {
    seq(|ps|, i requires 0 <= i < |ps| => ps[i].key)
  }

  /** Each key ranked by its numeric value. */
  function RankByValue(ks: seq<string>): (ps: seq<Ranked>)
    ensures |ps| == |ks| && forall i :: 0 <= i < |ks| ==> ps[i] == Ranked(IndexValue(ks[i]), ks[i])
  {
    seq(|ks|, i requires 0 <= i < |ks| => Ranked(IndexValue(ks[i]), ks[i]))
  }

  /** The order in which `Object.keys` lists an ordinary object's own string keys,
      given the order in which they were created: array indices first, in ascending
      numeric order, then every other key in creation order. */
  function OwnKeysOrder(created: seq<string>): (r: seq<string>)
    ensures multiset(r) == multiset(created)
  {
    var idx := FilterIndexKeys(created, true);
    var sorted := SortRanked(RankByValue(idx));
    assert Keys(RankByValue(idx)) == idx;
    FilterIndexKeysSplit(created);
    Keys(sorted) + FilterIndexKeys(created, false)
  }

  /** `Object.keys` lists the array-index keys first, ordered by their numeric
      value, and then the other keys in the order they were created. */
  lemma OwnKeysOrderSpec(created: seq<string>)
    ensures exists sorted :: && Ascending(sorted)
                             && multiset(sorted) == multiset(RankByValue(FilterIndexKeys(created, true)))
                             && OwnKeysOrder(created) == Keys(sorted) + FilterIndexKeys(created, false)
  {
    SortRankedAscending(RankByValue(FilterIndexKeys(created, true)));
  }

  // ---------------------------------------------------------------------------
  // Filtering records by a field
  // ---------------------------------------------------------------------------

  /** `list.filter(item => (item[key] === v) == equal)`: the records whose field
      strictly equals v (`equal`) or does not (`!equal`), in their order. */
  function Where(list: seq<Record>, key: string, v: Option<Json>, equal: bool): (r: seq<Record>)
    ensures |r| <= |list|
    ensures forall x :: x in r <==> x in list && StrictEquals(Get(x, key), v) == equal
  {
    if list == [] then []
    else
      var rest := Where(list[1..], key, v, equal);
      if StrictEquals(Get(list[0], key), v) == equal then [list[0]] + rest else rest
  }

  /** The filter keeps the order of what it keeps: it distributes over
      concatenation. */
  lemma {:induction false} WhereAppend(a: seq<Record>, b: seq<Record>, key: string, v: Option<Json>, equal: bool)
    ensures Where(a + b, key, v, equal) == Where(a, key, v, equal) + Where(b, key, v, equal)
  {
    if a != [] {
      assert (a + b)[0] == a[0] && (a + b)[1..] == a[1..] + b;
      WhereAppend(a[1..], b, key, v, equal);
    } else {
      assert a + b == b;
    }
  }

  /** A list all of whose records pass is kept whole. */
  lemma {:induction false} WhereAll(list: seq<Record>, key: string, v: Option<Json>, equal: bool)
    requires forall j :: 0 <= j < |list| ==> StrictEquals(Get(list[j], key), v) == equal
    ensures Where(list, key, v, equal) == list
  {
    if list != [] {
      WhereAll(list[1..], key, v, equal);
    }
  }

  /** Filtering twice filters nothing more. */
  lemma WhereIdempotent(list: seq<Record>, key: string, v: Option<Json>, equal: bool)
    ensures Where(Where(list, key, v, equal), key, v, equal) == Where(list, key, v, equal)
  {
    WhereAll(Where(list, key, v, equal), key, v, equal);
  }

  // ---------------------------------------------------------------------------
  // Sequence facts
  // ---------------------------------------------------------------------------

  lemma TakeTake<T>(s: seq<T>, j: nat)
    requires j < |s|
    ensures s[..j + 1][..j] == s[..j]
  {
  }
}
