/** The string keys and the recursive object merge of utils.js: `slugify`, the
    grouping key every comparison of titles uses, `normalize`, `isObject` and
    `deepMerge`. Character classes are those of ASCII: `toLowerCase` folds A-Z only
    and `\s` / `trim` know only the six ASCII blanks. */
module Utils {
  import opened JsValues

  // ---------------------------------------------------------------------------
  // Character classes
  // ---------------------------------------------------------------------------

  predicate IsUpper(c: char) { 'A' <= c <= 'Z' }

  predicate IsLowerAlnum(c: char) { 'a' <= c <= 'z' || IsDigit(c) }

  /** `\w` */
  predicate IsWordChar(c: char) { 'a' <= c <= 'z' || IsUpper(c) || IsDigit(c) || c == '_' }

  /** `\s`: space, tab, line feed, vertical tab, form feed, carriage return. */
  predicate IsSpace(c: char) { c == ' ' || '\t' <= c <= '\r' }

  /** The characters the first replace of `slugify` keeps: `[\w\s-]`. */
  predicate IsKept(c: char) { IsWordChar(c) || IsSpace(c) || c == '-' }

  /** The characters whose runs collapse into one dash: `[\s_-]`. */
  predicate IsSeparator(c: char) { IsSpace(c) || c == '_' || c == '-' }

  /** The characters a slug is made of. */
  predicate IsSlugChar(c: char) { IsLowerAlnum(c) || c == '-' }

  // ---------------------------------------------------------------------------
  // The stages of slugify
  // ---------------------------------------------------------------------------

  function LowerChar(c: char): (d: char)
    ensures !IsUpper(d)
    ensures IsWordChar(d) <==> IsWordChar(c)
    ensures IsSpace(d) <==> IsSpace(c)
    ensures d == '-' <==> c == '-'
    ensures d == '_' <==> c == '_'
    ensures !IsUpper(c) ==> d == c
  {
    if IsUpper(c) then (c as int + 32) as char else c
  }

  /** `toLowerCase()` */
  function ToLower(s: string): (r: string)
    ensures |r| == |s| && forall i :: 0 <= i < |s| ==> r[i] == LowerChar(s[i])
  {
    seq(|s|, i requires 0 <= i < |s| => LowerChar(s[i]))
  }

  /** The character classes whose runs the stages of slugify strip or collapse. */
  datatype Run = Blanks | Separators | Dashes

  predicate InRun(c: char, k: Run) {
    match k
    case Blanks => IsSpace(c)
    case Separators => IsSeparator(c)
    case Dashes => c == '-'
  }

  /** The length of the longest prefix of s made of characters of class k. */
  function LeadingRun(s: string, k: Run): (n: nat)
    ensures n <= |s|
    ensures forall i :: 0 <= i < n ==> InRun(s[i], k)
    ensures n < |s| ==> !InRun(s[n], k)
  {
    if s != [] && InRun(s[0], k) then 1 + LeadingRun(s[1..], k) else 0
  }

  /** The length of the longest suffix of s made of characters of class k. */
  function TrailingRun(s: string, k: Run): (n: nat)
    ensures n <= |s|
    ensures forall i :: |s| - n <= i < |s| ==> InRun(s[i], k)
    ensures n < |s| ==> !InRun(s[|s| - n - 1], k)
  {
    if s != [] && InRun(s[|s| - 1], k) then 1 + TrailingRun(s[..|s| - 1], k) else 0
  }

  lemma {:induction false} LeadingRunIs(s: string, k: Run, n: nat)
    requires n <= |s| && (forall i :: 0 <= i < n ==> InRun(s[i], k))
    requires n < |s| ==> !InRun(s[n], k)
    ensures LeadingRun(s, k) == n
  {
    if n > 0 {
      LeadingRunIs(s[1..], k, n - 1);
    }
  }

  lemma {:induction false} TrailingRunIs(s: string, k: Run, n: nat)
    requires n <= |s| && (forall i :: |s| - n <= i < |s| ==> InRun(s[i], k))
    requires n < |s| ==> !InRun(s[|s| - n - 1], k)
    ensures TrailingRun(s, k) == n
  {
    if n > 0 {
      TrailingRunIs(s[..|s| - 1], k, n - 1);
    }
  }

  /** `trim()`: drops the blanks at both ends. */
  function Trim(s: string): string {
    var front := s[LeadingRun(s, Blanks)..];
    front[..|front| - TrailingRun(front, Blanks)]
  }

  /** `replace(/[^\w\s-]/g, '')` */
  function StripDisallowed(s: string): string {
    if s == [] then []
    else (if IsKept(s[0]) then [s[0]] else []) + StripDisallowed(s[1..])
  }

  /** What the first replace keeps: characters of `[\w\s-]` taken from its input. */
  lemma {:induction false} StripDisallowedKeeps(s: string)
    ensures forall i :: 0 <= i < |StripDisallowed(s)| ==>
              IsKept(StripDisallowed(s)[i]) && StripDisallowed(s)[i] in s
  {
    if s != [] {
      StripDisallowedKeeps(s[1..]);
      var r := StripDisallowed(s);
      var rest := StripDisallowed(s[1..]);
      var head := if IsKept(s[0]) then [s[0]] else [];
      assert r == head + rest;
      forall i | 0 <= i < |r| ensures IsKept(r[i]) && r[i] in s {
        if i >= |head| { assert r[i] == rest[i - |head|]; }
      }
    }
  }

  /** Drops the leading run of separators. */
  function DropSeparators(s: string): (r: string)
    ensures |r| <= |s|
  {
    s[LeadingRun(s, Separators)..]
  }

  /** `replace(/[\s_-]+/g, '-')` */
  function CollapseSeparators(s: string): string
    decreases |s|
  {
    if s == [] then []
    else if IsSeparator(s[0]) then "-" + CollapseSeparators(DropSeparators(s[1..]))
    else [s[0]] + CollapseSeparators(s[1..])
  }

  /** What the second replace produces: dashes and the input's other characters,
      never two dashes in a row, a leading dash exactly when the input starts with a
      separator, and an empty result only for an empty input. */
  lemma {:induction false} CollapseSeparatorsShape(s: string)
    ensures var r := CollapseSeparators(s);
      && (forall i :: 0 <= i < |r| ==> r[i] == '-' || (r[i] in s && !IsSeparator(r[i])))
      && (r != [] ==> s != [] && (r[0] == '-' <==> IsSeparator(s[0])))
      && (s != [] ==> r != [])
      && NoDoubleDash(r)
    decreases |s|
  {
    if s != [] {
      var r := CollapseSeparators(s);
      if IsSeparator(s[0]) {
        var d := DropSeparators(s[1..]);
        CollapseSeparatorsShape(d);
        var rest := CollapseSeparators(d);
        assert r == "-" + rest;
        assert forall c :: c in d ==> c in s;
        forall i | 0 <= i < |r| ensures r[i] == '-' || (r[i] in s && !IsSeparator(r[i])) {
          if i > 0 { assert r[i] == rest[i - 1]; }
        }
        assert rest != [] ==> rest[0] != '-' by {
          if rest != [] {
            var n := LeadingRun(s[1..], Separators);
            assert d != [] && d[0] == s[1..][n];
          }
        }
      } else {
        CollapseSeparatorsShape(s[1..]);
        var rest := CollapseSeparators(s[1..]);
        assert r == [s[0]] + rest;
        forall i | 0 <= i < |r| ensures r[i] == '-' || (r[i] in s && !IsSeparator(r[i])) {
          if i > 0 { assert r[i] == rest[i - 1]; assert rest[i - 1] in s[1..] || rest[i - 1] == '-'; }
        }
      }
    }
  }

  predicate NoDoubleDash(s: string) {
    forall i :: 0 <= i < |s| - 1 ==> !(s[i] == '-' && s[i + 1] == '-')
  }

  /** `replace(/^-+|-+$/g, '')` */
  function TrimDashes(s: string): string {
    var front := s[LeadingRun(s, Dashes)..];
    front[..|front| - TrailingRun(front, Dashes)]
  }

  /** `slugify(str)` (utils.js): the grouping key of a title. */
  function Slugify(s: string): string {
    TrimDashes(CollapseSeparators(StripDisallowed(Trim(ToLower(s)))))
  }

  /** What a slug looks like: lower-case letters and digits joined by single dashes. */
  predicate IsSlug(t: string) {
    && (forall i :: 0 <= i < |t| ==> IsSlugChar(t[i]))
    && (t != [] ==> t[0] != '-' && t[|t| - 1] != '-')
    && NoDoubleDash(t)
  }

  // ---------------------------------------------------------------------------
  // What slugify produces
  // ---------------------------------------------------------------------------

  lemma TrimmedLowerHasNoUpper(s: string)
    ensures forall i :: 0 <= i < |Trim(ToLower(s))| ==> !IsUpper(Trim(ToLower(s))[i])
  {
    var y := ToLower(s);
    var a := LeadingRun(y, Blanks);
    var front := y[a..];
    var t := Trim(y);
    assert forall i :: 0 <= i < |t| ==> t[i] == y[a + i];
  }

  lemma CollapsedTextIsSlugText(x: string)
    requires forall i :: 0 <= i < |x| ==> !IsUpper(x[i])
    ensures forall i :: 0 <= i < |CollapseSeparators(StripDisallowed(x))| ==>
              IsSlugChar(CollapseSeparators(StripDisallowed(x))[i])
  {
    var kept := StripDisallowed(x);
    var collapsed := CollapseSeparators(kept);
    StripDisallowedKeeps(x);
    CollapseSeparatorsShape(kept);
    forall i | 0 <= i < |collapsed| ensures IsSlugChar(collapsed[i]) {
      var c := collapsed[i];
      if c != '-' {
        assert c in kept && !IsSeparator(c);
        assert IsKept(c) && c in x;
      }
    }
  }

  lemma TrimDashesIsSlug(y: string)
    requires forall i :: 0 <= i < |y| ==> IsSlugChar(y[i])
    requires NoDoubleDash(y)
    ensures IsSlug(TrimDashes(y))
  {
    var a := LeadingRun(y, Dashes);
    var front := y[a..];
    var b := TrailingRun(front, Dashes);
    var t := TrimDashes(y);
    assert t == front[..|front| - b];
    assert forall i :: 0 <= i < |t| ==> t[i] == y[a + i];
  }

  /** A slug holds only lower-case letters, digits and single inner dashes. */
  lemma SlugifyIsSlug(s: string)
    ensures IsSlug(Slugify(s))
  {
    TrimmedLowerHasNoUpper(s);
    CollapsedTextIsSlugText(Trim(ToLower(s)));
    CollapseSeparatorsShape(StripDisallowed(Trim(ToLower(s))));
    TrimDashesIsSlug(CollapseSeparators(StripDisallowed(Trim(ToLower(s)))));
  }

  // ---------------------------------------------------------------------------
  // Slugify leaves slugs alone
  // ---------------------------------------------------------------------------

  lemma {:induction false} CollapseKeepsSlugText(t: string)
    requires forall i :: 0 <= i < |t| ==> IsSlugChar(t[i])
    requires NoDoubleDash(t)
    ensures CollapseSeparators(t) == t
    decreases |t|
  {
    if t != [] {
      CollapseKeepsSlugText(t[1..]);
      if t[0] == '-' {
        LeadingRunIs(t[1..], Separators, 0);
        assert DropSeparators(t[1..]) == t[1..];
      }
      assert t == [t[0]] + t[1..];
    }
  }

  lemma {:induction false} StripKeepsKeptText(t: string)
    requires forall i :: 0 <= i < |t| ==> IsKept(t[i])
    ensures StripDisallowed(t) == t
  {
    if t != [] {
      StripKeepsKeptText(t[1..]);
      assert t == [t[0]] + t[1..];
    }
  }

  lemma LowerOfSlug(t: string)
    requires IsSlug(t)
    ensures ToLower(t) == t
  {
  }

  lemma TrimOfSlug(t: string)
    requires IsSlug(t)
    ensures Trim(t) == t
  {
    if t != [] {
      LeadingRunIs(t, Blanks, 0);
      TrailingRunIs(t, Blanks, 0);
    }
  }

  lemma TrimDashesOfSlug(t: string)
    requires IsSlug(t)
    ensures TrimDashes(t) == t
  {
    if t != [] {
      LeadingRunIs(t, Dashes, 0);
      TrailingRunIs(t, Dashes, 0);
    }
  }

  /** A slug is its own slug. */
  lemma SlugifyOfSlug(t: string)
    requires IsSlug(t)
    ensures Slugify(t) == t
  {
    LowerOfSlug(t);
    TrimOfSlug(t);
    StripKeepsKeptText(t);
    CollapseKeepsSlugText(t);
    TrimDashesOfSlug(t);
  }

  /** slugify is idempotent. */
  lemma SlugifyIdempotent(s: string)
    ensures Slugify(Slugify(s)) == Slugify(s)
  {
    SlugifyIsSlug(s);
    SlugifyOfSlug(Slugify(s));
  }

  // ---------------------------------------------------------------------------
  // Slugify ignores case, surrounding blanks and characters outside [\w\s-]
  // ---------------------------------------------------------------------------

  lemma {:induction false} StripAppend(a: string, b: string)
    ensures StripDisallowed(a + b) == StripDisallowed(a) + StripDisallowed(b)
  {
    if a != [] {
      StripAppend(a[1..], b);
      assert (a + b)[1..] == a[1..] + b;
    } else {
      assert a + b == b;
    }
  }

  /** Dropping the separators in front of `a + b`. */
  lemma DropSeparatorsConcat(a: string, b: string)
    ensures DropSeparators(a) != [] ==> DropSeparators(a + b) == DropSeparators(a) + b
    ensures DropSeparators(a) == [] ==> DropSeparators(a + b) == DropSeparators(b)
  {
    var n := LeadingRun(a, Separators);
    if n < |a| {
      LeadingRunIs(a + b, Separators, n);
      assert (a + b)[n..] == a[n..] + b;
    } else {
      LeadingRunIs(a + b, Separators, n + LeadingRun(b, Separators));
      assert (a + b)[n + LeadingRun(b, Separators)..] == b[LeadingRun(b, Separators)..];
    }
  }

  lemma TrimDashesPrependDash(x: string)
    ensures TrimDashes("-" + x) == TrimDashes(x)
  {
    LeadingRunIs("-" + x, Dashes, 1 + LeadingRun(x, Dashes));
    assert ("-" + x)[1 + LeadingRun(x, Dashes)..] == x[LeadingRun(x, Dashes)..];
  }

  lemma TrimDashesAppendDash(x: string)
    ensures TrimDashes(x + "-") == TrimDashes(x)
  {
    var a := LeadingRun(x, Dashes);
    if a == |x| {
      LeadingRunIs(x + "-", Dashes, a + 1);
    } else {
      LeadingRunIs(x + "-", Dashes, a);
      assert (x + "-")[a..] == x[a..] + "-";
      DropTrailingDashes(x[a..]);
    }
  }

  /** A dash appended to a text is dropped with the dashes that end it. */
  lemma DropTrailingDashes(front: string)
    ensures var g := front + "-";
      g[..|g| - TrailingRun(g, Dashes)] == front[..|front| - TrailingRun(front, Dashes)]
  {
    var t := TrailingRun(front, Dashes);
    TrailingRunIs(front + "-", Dashes, 1 + t);
    assert (front + "-")[..|front| - t] == front[..|front| - t];
  }

  lemma DropSeparatorsStep(z: string)
    ensures DropSeparators(z) == (if z != [] && IsSeparator(z[0]) then DropSeparators(z[1..]) else z)
  {
    if z != [] && IsSeparator(z[0]) {
      LeadingRunIs(z, Separators, 1 + LeadingRun(z[1..], Separators));
    } else {
      LeadingRunIs(z, Separators, 0);
    }
  }

  lemma CollapseAtSeparator(z: string)
    requires z != [] && IsSeparator(z[0])
    ensures CollapseSeparators(z) == "-" + CollapseSeparators(DropSeparators(z))
  {
    DropSeparatorsStep(z);
  }

  lemma {:induction false} DropAfterSeparators(ws: string, z: string)
    requires forall i :: 0 <= i < |ws| ==> IsSeparator(ws[i])
    ensures DropSeparators(ws + z) == DropSeparators(z)
  {
    if ws != [] {
      DropSeparatorsStep(ws + z);
      assert (ws + z)[1..] == ws[1..] + z;
      DropAfterSeparators(ws[1..], z);
    } else {
      assert ws + z == z;
    }
  }

  /** The slug of a string is that of the string without its leading separators. */
  lemma SlugOfDropped(z: string)
    ensures TrimDashes(CollapseSeparators(z)) == TrimDashes(CollapseSeparators(DropSeparators(z)))
  {
    DropSeparatorsStep(z);
    if z != [] && IsSeparator(z[0]) {
      CollapseAtSeparator(z);
      TrimDashesPrependDash(CollapseSeparators(DropSeparators(z)));
    }
  }

  /** Separators in front of a string do not change its slug. */
  lemma LeadingSeparatorsIgnored(ws: string, z: string)
    requires forall i :: 0 <= i < |ws| ==> IsSeparator(ws[i])
    ensures TrimDashes(CollapseSeparators(ws + z)) == TrimDashes(CollapseSeparators(z))
  {
    DropAfterSeparators(ws, z);
    SlugOfDropped(ws + z);
    SlugOfDropped(z);
  }

  /** Separators after a string add one dash unless it already ends in one. */
  lemma {:induction false} CollapseTrailingSeparators(z: string, ws: string)
    requires ws != [] && forall i :: 0 <= i < |ws| ==> IsSeparator(ws[i])
    ensures CollapseSeparators(z + ws)
         == CollapseSeparators(z) + (if z != [] && IsSeparator(z[|z| - 1]) then "" else "-")
    decreases |z|
  {
    if z == [] {
      assert z + ws == ws;
      CollapseOfSeparators(ws);
    } else if IsSeparator(z[0]) {
      CollapseTrailingSepStep(z, ws);
    } else {
      CollapseTrailingWordStep(z, ws);
    }
  }

  lemma CollapseOfSeparators(ws: string)
    requires ws != [] && forall i :: 0 <= i < |ws| ==> IsSeparator(ws[i])
    ensures CollapseSeparators(ws) == "-"
  {
    CollapseAtSeparator(ws);
    DropAfterSeparators(ws, []);
    assert ws + [] == ws;
    LeadingRunIs([], Separators, 0);
  }

  lemma {:induction false} CollapseTrailingWordStep(z: string, ws: string)
    requires z != [] && !IsSeparator(z[0])
    requires ws != [] && forall i :: 0 <= i < |ws| ==> IsSeparator(ws[i])
    ensures CollapseSeparators(z + ws)
         == CollapseSeparators(z) + (if IsSeparator(z[|z| - 1]) then "" else "-")
    decreases |z|, 0
  {
    assert (z + ws)[1..] == z[1..] + ws;
    CollapseTrailingSeparators(z[1..], ws);
    if z[1..] != [] {
      assert z[1..][|z[1..]| - 1] == z[|z| - 1];
    }
  }

  lemma {:induction false} CollapseTrailingSepStep(z: string, ws: string)
    requires z != [] && IsSeparator(z[0])
    requires ws != [] && forall i :: 0 <= i < |ws| ==> IsSeparator(ws[i])
    ensures CollapseSeparators(z + ws)
         == CollapseSeparators(z) + (if IsSeparator(z[|z| - 1]) then "" else "-")
    decreases |z|, 0
  {
    CollapseAtSeparator(z);
    CollapseAtSeparator(z + ws);
    var n := LeadingRun(z, Separators);
    var d := DropSeparators(z);
    DropSeparatorsConcat(z, ws);
    if d == [] {
      CollapseOfSeparators(ws);
      assert IsSeparator(z[|z| - 1]);
    } else {
      CollapseTrailingSeparators(d, ws);
      assert d[|d| - 1] == z[|z| - 1];
    }
  }

  /** Separators after a string do not change its slug. */
  lemma TrailingSeparatorsIgnored(z: string, ws: string)
    requires forall i :: 0 <= i < |ws| ==> IsSeparator(ws[i])
    ensures TrimDashes(CollapseSeparators(z + ws)) == TrimDashes(CollapseSeparators(z))
  {
    if ws == [] {
      assert z + ws == z;
    } else {
      CollapseTrailingSeparators(z, ws);
      var c := CollapseSeparators(z);
      if z != [] && IsSeparator(z[|z| - 1]) {
        assert c + "" == c;
      } else {
        TrimDashesAppendDash(c);
      }
    }
  }

  /** Cuts a string into the blanks `trim()` removes and what it keeps. */
  lemma TrimSplit(y: string) returns (ws1: string, ws2: string)
    ensures y == ws1 + Trim(y) + ws2
    ensures forall i :: 0 <= i < |ws1| ==> IsSpace(ws1[i])
    ensures forall i :: 0 <= i < |ws2| ==> IsSpace(ws2[i])
  {
    var n1 := LeadingRun(y, Blanks);
    var front := y[n1..];
    var n2 := TrailingRun(front, Blanks);
    ws1, ws2 := y[..n1], front[|front| - n2..];
    assert forall i :: 0 <= i < |ws1| ==> IsSpace(ws1[i]) by {
      BlankSlice(y, 0, n1);
      assert y[0..n1] == ws1;
    }
    assert forall i :: 0 <= i < |ws2| ==> IsSpace(ws2[i]) by {
      BlankSlice(front, |front| - n2, |front|);
      assert front[|front| - n2..|front|] == ws2;
    }
    assert y == ws1 + Trim(y) + ws2 by {
      CutThree(y, n1, |front| - n2);
    }
  }

  /** A slice of blanks, as `LeadingRun` and `TrailingRun` measure them. */
  lemma BlankSlice(s: string, lo: nat, hi: nat)
    requires lo <= hi <= |s|
    requires forall i :: lo <= i < hi ==> InRun(s[i], Blanks)
    ensures forall i :: 0 <= i < hi - lo ==> IsSpace(s[lo..hi][i])
  {
    forall i | 0 <= i < hi - lo ensures IsSpace(s[lo..hi][i]) {
      assert s[lo..hi][i] == s[lo + i] && InRun(s[lo + i], Blanks);
    }
  }

  /** A string is its prefix, the kept middle and the rest. */
  lemma CutThree(y: string, n1: nat, m: nat)
    requires n1 <= |y| && m <= |y| - n1
    ensures y == y[..n1] + y[n1..][..m] + y[n1..][m..]
  {
    assert y[n1..] == y[n1..][..m] + y[n1..][m..];
    assert y == y[..n1] + y[n1..];
    AppendAssoc(y[..n1], y[n1..][..m], y[n1..][m..]);
  }

  lemma AppendAssoc(a: string, b: string, c: string)
    ensures a + (b + c) == a + b + c
  {
  }

  lemma StripAroundBlanks(ws1: string, mid: string, ws2: string)
    requires forall i :: 0 <= i < |ws1| ==> IsSpace(ws1[i])
    requires forall i :: 0 <= i < |ws2| ==> IsSpace(ws2[i])
    ensures StripDisallowed(ws1 + mid + ws2) == ws1 + StripDisallowed(mid) + ws2
  {
    StripAppend(ws1 + mid, ws2);
    StripAppend(ws1, mid);
    StripKeepsKeptText(ws1);
    StripKeepsKeptText(ws2);
  }

  /** `trim()` never changes a slug: the blanks it removes would have become dashes
      at the ends, and those are dropped anyway. */
  lemma SlugifyWithoutTrim(s: string)
    ensures Slugify(s) == TrimDashes(CollapseSeparators(StripDisallowed(ToLower(s))))
  {
    var y := ToLower(s);
    var ws1, ws2 := TrimSplit(y);
    var z := StripDisallowed(Trim(y));
    StripAroundBlanks(ws1, Trim(y), ws2);
    TrailingSeparatorsIgnored(ws1 + z, ws2);
    LeadingSeparatorsIgnored(ws1, z);
  }

  lemma ToLowerAppend(a: string, b: string)
    ensures ToLower(a + b) == ToLower(a) + ToLower(b)
  {
  }

  lemma StripDropsDisallowed(a: string, c: char, b: string)
    requires !IsKept(c)
    ensures StripDisallowed(a + [c] + b) == StripDisallowed(a + b)
  {
    StripAppend(a + [c], b);
    StripAppend(a, [c]);
    StripAppend(a, b);
    assert StripDisallowed([c]) == [];
  }

  /** slugify ignores every character outside `[\w\s-]`, wherever it stands. */
  lemma SlugifyIgnoresDisallowed(a: string, c: char, b: string)
    requires !IsKept(c)
    ensures Slugify(a + [c] + b) == Slugify(a + b)
  {
    SlugifyWithoutTrim(a + [c] + b);
    SlugifyWithoutTrim(a + b);
    ToLowerAppend(a + [c], b);
    ToLowerAppend(a, [c]);
    ToLowerAppend(a, b);
    assert ToLower([c]) == [LowerChar(c)];
    StripDropsDisallowed(ToLower(a), LowerChar(c), ToLower(b));
  }

  /** slugify ignores case. */
  lemma SlugifyIgnoresCase(s: string, t: string)
    requires |s| == |t| && forall i :: 0 <= i < |s| ==> LowerChar(s[i]) == LowerChar(t[i])
    ensures Slugify(s) == Slugify(t)
  {
    assert ToLower(s) == ToLower(t);
  }

  // ---------------------------------------------------------------------------
  // normalize
  // ---------------------------------------------------------------------------

  /** `replace(/\W+/g, '')` */
  function KeepWordChars(s: string): (r: string)
    ensures forall i :: 0 <= i < |r| ==> IsWordChar(r[i]) && r[i] in s
  {
    if s == [] then []
    else (if IsWordChar(s[0]) then [s[0]] else []) + KeepWordChars(s[1..])
  }

  /** `normalize(string)` (utils.js) on a string. */
  function Normalize(s: string): string {
    KeepWordChars(ToLower(s))
  }

  /** normalize yields lower-case letters, digits and underscores only. */
  lemma NormalizeChars(s: string)
    ensures forall i :: 0 <= i < |Normalize(s)| ==>
              IsLowerAlnum(Normalize(s)[i]) || Normalize(s)[i] == '_'
  {
    var r := Normalize(s);
    forall i | 0 <= i < |r| ensures IsLowerAlnum(r[i]) || r[i] == '_' {
      assert r[i] in ToLower(s);
    }
  }

  lemma {:induction false} KeepWordCharsOfWords(t: string)
    requires forall i :: 0 <= i < |t| ==> IsWordChar(t[i])
    ensures KeepWordChars(t) == t
  {
    if t != [] {
      KeepWordCharsOfWords(t[1..]);
      assert t == [t[0]] + t[1..];
    }
  }

  /** normalize is idempotent. */
  lemma NormalizeIdempotent(s: string)
    ensures Normalize(Normalize(s)) == Normalize(s)
  {
    var r := Normalize(s);
    NormalizeChars(s);
    assert ToLower(r) == r;
    KeepWordCharsOfWords(r);
  }

  // ---------------------------------------------------------------------------
  // isObject and deepMerge
  // ---------------------------------------------------------------------------

  /** `isObject(item)`: a plain object, that is neither null nor an array. */
  predicate IsObject(v: Option<Json>) {
    v.Some? && v.value.Obj?
  }

  /** The value `deepMerge(target, source)` leaves under `key` of an object target
      when the source object has that key. */
  function MergedValue(target: Record, source: Record, key: string): Json
    requires key in source
    decreases Obj(source), 0
  {
    var sv := source[key];
    if IsObject(Some(sv)) && IsObject(Get(target, key)) then MergeOne(target[key], sv)
    else sv
  }

  /** `deepMerge(target, source)` with one source: when both are plain objects,
      every own key of the source is merged into the target (nested plain objects
      recursively, everything else replaced); otherwise the target is returned. */
  function MergeOne(target: Json, source: Json): Json
    decreases source, 1
  {
    if target.Obj? && source.Obj? then
      Obj(map k | k in target.fields.Keys + source.fields.Keys ::
            if k in source.fields then MergedValue(target.fields, source.fields, k)
            else target.fields[k])
    else target
  }

  /** `deepMerge(target, ...sources)`: the sources applied one after another. */
  function MergeAll(target: Json, sources: seq<Json>): Json
    decreases |sources|
  {
    if sources == [] then target else MergeAll(MergeOne(target, sources[0]), sources[1..])
  }

  /** `deepMerge(target, source)` for a single source, as the source runs it: a
      `for...in` over the source's keys that overwrites `target[key]`, recursing
      where both sides hold plain objects. */
  method MergeInto(target: Json, source: Json) returns (r: Json)
    ensures r == MergeOne(target, source)
    decreases source
  {
    if !(target.Obj? && source.Obj?) {
      return target;
    }
    var fields := target.fields;
    var pending := source.fields.Keys;
    while pending != {}
      invariant pending <= source.fields.Keys
      invariant fields.Keys == target.fields.Keys + (source.fields.Keys - pending)
      invariant forall k :: k in fields ==>
        fields[k] == if k in source.fields && k !in pending
                     then MergedValue(target.fields, source.fields, k)
                     else target.fields[k]
      decreases pending
    {
      var key :| key in pending;
      var sourceValue := source.fields[key];
      if IsObject(Some(sourceValue)) && IsObject(Get(fields, key)) {
        var sub := MergeInto(fields[key], sourceValue);
        fields := fields[key := sub];
      } else {
        fields := fields[key := sourceValue];
      }
      pending := pending - {key};
    }
    r := Obj(fields);
  }

  /** `deepMerge(target, ...sources)`: takes the sources off the front one at a
      time (`sources.shift()`), merging each into the target. */
  method DeepMerge(target: Json, sources: seq<Json>) returns (r: Json)
    ensures r == MergeAll(target, sources)
  {
    r := target;
    var rest := sources;
    while rest != []
      invariant MergeAll(r, rest) == MergeAll(target, sources)
      decreases |rest|
    {
      var source := rest[0];
      rest := rest[1..];
      r := MergeInto(r, source);
    }
  }

  // ---------------------------------------------------------------------------
  // What deepMerge guarantees
  // ---------------------------------------------------------------------------

  /** `r` holds everything `source` says: each key of the source is in `r`, with
      the same value unless both are plain objects, in which case recursively. */
  predicate Covers(r: Json, source: Json)
    decreases source
  {
    r.Obj? && source.Obj? &&
    forall k :: k in source.fields ==>
      k in r.fields &&
      if source.fields[k].Obj? then Covers(r.fields[k], source.fields[k])
      else r.fields[k] == source.fields[k]
  }

  /** After merging a plain-object source into a plain-object target, the source's
      values are all there, and every key of the target the source lacks keeps its
      value. */
  lemma {:induction false} MergeOneCovers(target: Json, source: Json)
    requires target.Obj? && source.Obj?
    ensures Covers(MergeOne(target, source), source)
    ensures MergeOne(target, source).fields.Keys == target.fields.Keys + source.fields.Keys
    ensures forall k :: k in target.fields && k !in source.fields ==>
              MergeOne(target, source).fields[k] == target.fields[k]
    decreases source
  {
    var r := MergeOne(target, source);
    forall k | k in source.fields && source.fields[k].Obj?
      ensures Covers(r.fields[k], source.fields[k])
    {
      if IsObject(Get(target.fields, k)) {
        MergeOneCovers(target.fields[k], source.fields[k]);
      } else {
        CoversSelf(source.fields[k]);
      }
    }
  }

  lemma {:induction false} CoversSelf(v: Json)
    requires v.Obj?
    ensures Covers(v, v)
    decreases v
  {
    forall k | k in v.fields && v.fields[k].Obj? ensures Covers(v.fields[k], v.fields[k]) {
      CoversSelf(v.fields[k]);
    }
  }

  /** Merging an object into itself changes nothing. */
  lemma {:induction false} MergeOneSelf(v: Json)
    ensures MergeOne(v, v) == v
    decreases v
  {
    if v.Obj? {
      forall k | k in v.fields && v.fields[k].Obj? ensures MergeOne(v.fields[k], v.fields[k]) == v.fields[k] {
        MergeOneSelf(v.fields[k]);
      }
      assert MergeOne(v, v).fields == v.fields;
    }
  }

  /** Applying the same patch twice is applying it once. */
  lemma {:induction false} MergeOneIdempotent(target: Json, source: Json)
    ensures MergeOne(MergeOne(target, source), source) == MergeOne(target, source)
    decreases source
  {
    if target.Obj? && source.Obj? {
      var once := MergeOne(target, source);
      var twice := MergeOne(once, source);
      assert twice.fields.Keys == once.fields.Keys;
      forall k | k in twice.fields ensures twice.fields[k] == once.fields[k] {
        if k in source.fields {
          var sv := source.fields[k];
          assert once.fields[k] == MergedValue(target.fields, source.fields, k);
          assert twice.fields[k] == MergedValue(once.fields, source.fields, k);
          if sv.Obj? {
            if IsObject(Get(target.fields, k)) {
              MergeOneIdempotent(target.fields[k], sv);
              assert once.fields[k] == MergeOne(target.fields[k], sv);
            } else {
              MergeOneSelf(sv);
              assert once.fields[k] == sv;
            }
          }
        }
      }
      assert twice.fields == once.fields;
    }
  }

  /** Sources apply left to right: merging `a + b` is merging `a`, then `b`. */
  lemma {:induction false} MergeAllAppend(target: Json, a: seq<Json>, b: seq<Json>)
    ensures MergeAll(target, a + b) == MergeAll(MergeAll(target, a), b)
    decreases |a|
  {
    if a == [] {
      assert a + b == b;
    } else {
      assert (a + b)[0] == a[0] && (a + b)[1..] == a[1..] + b;
      MergeAllAppend(MergeOne(target, a[0]), a[1..], b);
    }
  }

  /** A source that is not a plain object is skipped, and a target that is not a
      plain object comes back unchanged whatever the sources. */
  lemma {:induction false} MergeAllSkips(target: Json, a: seq<Json>, s: Json, b: seq<Json>)
    requires !s.Obj?
    ensures MergeAll(target, a + [s] + b) == MergeAll(target, a + b)
  {
    MergeAllAppend(target, a + [s], b);
    MergeAllAppend(target, a, [s]);
    MergeAllAppend(target, a, b);
    assert [s][1..] == [];
  }

  lemma {:induction false} MergeAllNonObjectTarget(target: Json, sources: seq<Json>)
    requires !target.Obj?
    ensures MergeAll(target, sources) == target
    decreases |sources|
  {
    if sources != [] {
      MergeAllNonObjectTarget(target, sources[1..]);
    }
  }

  /** The last source wins: whatever a later plain-object source says is in the
      result, whatever came before it. */
  lemma LastSourceWins(target: Json, sources: seq<Json>, last: Json)
    requires target.Obj? && last.Obj?
    ensures Covers(MergeAll(target, sources + [last]), last)
  {
    MergeAllAppend(target, sources, [last]);
    MergeAllKeepsObject(target, sources);
    MergeOneCovers(MergeAll(target, sources), last);
  }

  lemma {:induction false} MergeAllKeepsObject(target: Json, sources: seq<Json>)
    requires target.Obj?
    ensures MergeAll(target, sources).Obj?
    decreases |sources|
  {
    if sources != [] {
      MergeAllKeepsObject(MergeOne(target, sources[0]), sources[1..]);
    }
  }
}
