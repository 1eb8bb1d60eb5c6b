/** The two group statistics the transform imputes with: pandas' `median()`
    of a float column and `mode()[0]` of a string column, both taken over the
    non-missing values only. */
module Stats {
  import opened Wrappers

  // ---------------------------------------------------------------------
  // Counting
  // ---------------------------------------------------------------------

  /** Number of elements of `xs` that satisfy `p`. */
  function CountIf<T>(xs: seq<T>, p: T -> bool): (n: nat)
    ensures n <= |xs|
  {
    if xs == [] then 0 else (if p(xs[0]) then 1 else 0) + CountIf(xs[1..], p)
  }

  lemma {:induction false} CountIfAppend<T>(a: seq<T>, b: seq<T>, p: T -> bool)
    ensures CountIf(a + b, p) == CountIf(a, p) + CountIf(b, p)
  {
    if a == [] {
      assert a + b == b;
    } else {
      assert (a + b)[1..] == a[1..] + b;
      CountIfAppend(a[1..], b, p);
    }
  }

  lemma {:induction false} CountIfNone<T>(xs: seq<T>, p: T -> bool)
    requires forall i :: 0 <= i < |xs| ==> !p(xs[i])
    ensures CountIf(xs, p) == 0
  {
    if xs != [] {
      CountIfNone(xs[1..], p);
    }
  }

  lemma CountIfCons<T>(x: T, t: seq<T>, p: T -> bool)
    ensures CountIf([x] + t, p) == (if p(x) then 1 else 0) + CountIf(t, p)
  {
    assert ([x] + t)[1..] == t;
  }

  function Below(m: real): real -> bool { x => x < m }

  function Above(m: real): real -> bool { x => x > m }

  // ---------------------------------------------------------------------
  // Median
  // ---------------------------------------------------------------------

  predicate Sorted(s: seq<real>) {
    forall i, j :: 0 <= i < j < |s| ==> s[i] <= s[j]
  }

  /** Puts `x` before the first element not below it. */
  function Insert(x: real, s: seq<real>): (r: seq<real>)
    ensures multiset(r) == multiset(s) + multiset{x}
  {
    if s == [] || x <= s[0] then [x] + s
    else
      assert s == [s[0]] + s[1..];
      [s[0]] + Insert(x, s[1..])
  }

  lemma SortedCons(a: real, t: seq<real>)
    requires Sorted(t) && forall y :: y in t ==> a <= y
    ensures Sorted([a] + t)
  {
    var r := [a] + t;
    forall i, j | 0 <= i < j < |r| ensures r[i] <= r[j] {
      assert r[j] == t[j - 1] && t[j - 1] in t;
      if i > 0 {
        assert r[i] == t[i - 1];
      }
    }
  }

  /** Inserting into sorted values keeps them sorted. */
  lemma {:induction false} InsertSorted(x: real, s: seq<real>)
    requires Sorted(s)
    ensures Sorted(Insert(x, s))
  {
    if s == [] || x <= s[0] {
      SortedCons(x, s);
    } else {
      var t := Insert(x, s[1..]);
      InsertSorted(x, s[1..]);
      forall y | y in t ensures s[0] <= y {
        assert y in multiset(t);
        assert y == x || y in multiset(s[1..]);
      }
      SortedCons(s[0], t);
    }
  }

  /** Ascending order of the values (insertion sort). */
  function SortReals(xs: seq<real>): (r: seq<real>)
    ensures Sorted(r)
    ensures multiset(r) == multiset(xs)
  {
    if xs == [] then []
    else
      assert xs == [xs[0]] + xs[1..];
      InsertSorted(xs[0], SortReals(xs[1..]));
      Insert(xs[0], SortReals(xs[1..]))
  }

  /** Inserting `x` adds its share to a count and changes nothing else. */
  lemma {:induction false} CountIfInsert(x: real, s: seq<real>, p: real -> bool)
    ensures CountIf(Insert(x, s), p) == CountIf(s, p) + (if p(x) then 1 else 0)
  {
    if s == [] || x <= s[0] {
      CountIfCons(x, s, p);
    } else {
      CountIfInsert(x, s[1..], p);
      CountIfCons(s[0], Insert(x, s[1..]), p);
    }
  }

  /** Sorting does not change a count. */
  lemma {:induction false} CountIfSorted(xs: seq<real>, p: real -> bool)
    ensures CountIf(SortReals(xs), p) == CountIf(xs, p)
  {
    if xs != [] {
      CountIfSorted(xs[1..], p);
      CountIfInsert(xs[0], SortReals(xs[1..]), p);
    }
  }

  /** The middle value of sorted values, or the mean of the two middle
      values when their number is even. */
  function Middle(s: seq<real>): real
    requires s != []
  {
    var h := |s| / 2;
    if |s| % 2 == 1 then s[h] else (s[h - 1] + s[h]) / 2.0
  }

  /** pandas' median of the non-missing values: the middle of the sorted
      values; NaN (here `None`) when there are no values. */
  function Median(xs: seq<real>): (m: Option<real>)
    ensures m.None? <==> xs == []
  {
    if xs == [] then None else Some(Middle(SortReals(xs)))
  }

  /** The sorted values split around position `cut`: none of those from
      `cut` on is below `m`, so at most `cut` of them are. */
  lemma SortedCountBelow(s: seq<real>, cut: nat, m: real)
    requires cut <= |s|
    requires forall i :: cut <= i < |s| ==> s[i] >= m
    ensures CountIf(s, Below(m)) <= cut
  {
    assert s == s[..cut] + s[cut..];
    CountIfAppend(s[..cut], s[cut..], Below(m));
    assert forall i :: 0 <= i < |s[cut..]| ==> !Below(m)(s[cut..][i]);
    CountIfNone(s[cut..], Below(m));
  }

  /** Dually: none of the values before `cut` is above `m`. */
  lemma SortedCountAbove(s: seq<real>, cut: nat, m: real)
    requires cut <= |s|
    requires forall i :: 0 <= i < cut ==> s[i] <= m
    ensures CountIf(s, Above(m)) <= |s| - cut
  {
    assert s == s[..cut] + s[cut..];
    CountIfAppend(s[..cut], s[cut..], Above(m));
    assert forall i :: 0 <= i < |s[..cut]| ==> !Above(m)(s[..cut][i]);
    CountIfNone(s[..cut], Above(m));
  }

  lemma MiddleOfOdd(s: seq<real>)
    requires Sorted(s) && |s| % 2 == 1
    ensures CountIf(s, Below(Middle(s))) <= |s| / 2
    ensures CountIf(s, Above(Middle(s))) <= |s| / 2
  {
    var h := |s| / 2;
    assert Middle(s) == s[h];
    SortedCountBelow(s, h, s[h]);
    SortedCountAbove(s, h + 1, s[h]);
  }

  lemma MiddleOfEven(s: seq<real>)
    requires Sorted(s) && s != [] && |s| % 2 == 0
    ensures CountIf(s, Below(Middle(s))) <= |s| / 2
    ensures CountIf(s, Above(Middle(s))) <= |s| / 2
  {
    var h := |s| / 2;
    var m := Middle(s);
    assert s[h - 1] <= m <= s[h];
    SortedCountBelow(s, h, m);
    SortedCountAbove(s, h, m);
  }

  lemma MiddleSplitsInHalves(s: seq<real>)
    requires s != [] && Sorted(s)
    ensures CountIf(s, Below(Middle(s))) <= |s| / 2
    ensures CountIf(s, Above(Middle(s))) <= |s| / 2
  {
    if |s| % 2 == 1 {
      MiddleOfOdd(s);
    } else {
      MiddleOfEven(s);
    }
  }

  /** What makes the median a median: at most half of the values lie strictly
      below it and at most half strictly above it. */
  lemma MedianSplitsInHalves(xs: seq<real>)
    requires xs != []
    ensures var m := Median(xs).value;
      CountIf(xs, Below(m)) <= |xs| / 2 && CountIf(xs, Above(m)) <= |xs| / 2
  {
    var s := SortReals(xs);
    MiddleSplitsInHalves(s);
    CountIfSorted(xs, Below(Middle(s)));
    CountIfSorted(xs, Above(Middle(s)));
  }

  /** The median of an odd number of values is one of the values. */
  lemma MedianOfOddCountIsAValue(xs: seq<real>)
    requires |xs| % 2 == 1
    ensures Median(xs).Some? && Median(xs).value in xs
  {
    var s := SortReals(xs);
    assert s[|s| / 2] in multiset(s);
  }

  // ---------------------------------------------------------------------
  // Mode
  // ---------------------------------------------------------------------

  /** Python's string order: lexicographic by code point. */
  predicate StrLe(a: string, b: string)
  {
    |a| == 0 || (|b| > 0 && (a[0] < b[0] || (a[0] == b[0] && StrLe(a[1..], b[1..]))))
  }

  lemma {:induction false} StrLeReflexive(a: string)
    ensures StrLe(a, a)
  {
    if |a| > 0 {
      StrLeReflexive(a[1..]);
    }
  }

  lemma {:induction false} StrLeTotal(a: string, b: string)
    ensures StrLe(a, b) || StrLe(b, a)
  {
    if |a| > 0 && |b| > 0 && a[0] == b[0] {
      StrLeTotal(a[1..], b[1..]);
    }
  }

  lemma {:induction false} StrLeTransitive(a: string, b: string, c: string)
    requires StrLe(a, b) && StrLe(b, c)
    ensures StrLe(a, c)
  {
    if |a| > 0 && a[0] == b[0] && b[0] == c[0] {
      StrLeTransitive(a[1..], b[1..], c[1..]);
    }
  }

  lemma {:induction false} StrLeAntisymmetric(a: string, b: string)
    requires StrLe(a, b) && StrLe(b, a)
    ensures a == b
  {
    if |a| > 0 {
      StrLeAntisymmetric(a[1..], b[1..]);
      assert a == [a[0]] + a[1..] && b == [b[0]] + b[1..];
    }
  }

  function Occurrences(xs: seq<string>, v: string): (n: nat)
    ensures v in xs ==> n > 0
  {
    if xs == [] then 0 else (if xs[0] == v then 1 else 0) + Occurrences(xs[1..], v)
  }

  lemma {:induction false} OccurrencesAppend(a: seq<string>, b: seq<string>, v: string)
    ensures Occurrences(a + b, v) == Occurrences(a, v) + Occurrences(b, v)
  {
    if a == [] {
      assert a + b == b;
    } else {
      assert (a + b)[1..] == a[1..] + b;
      OccurrencesAppend(a[1..], b, v);
    }
  }

  /** `a` is at least as good a mode as `b`: more frequent, or as frequent
      and not after it in sorted order. */
  predicate Beats(xs: seq<string>, a: string, b: string)
  {
    Occurrences(xs, a) > Occurrences(xs, b)
    || (Occurrences(xs, a) == Occurrences(xs, b) && StrLe(a, b))
  }

  lemma BeatsTransitive(xs: seq<string>, a: string, b: string, cands: seq<string>)
    requires Beats(xs, a, b)
    requires forall c :: c in cands ==> Beats(xs, b, c)
    ensures forall c :: c in cands ==> Beats(xs, a, c)
  {
    forall c | c in cands ensures Beats(xs, a, c) {
      if Occurrences(xs, a) == Occurrences(xs, b) == Occurrences(xs, c) {
        StrLeTransitive(a, b, c);
      }
    }
  }

  /** The candidate that beats every other candidate. */
  function Best(xs: seq<string>, cands: seq<string>): (r: string)
    requires cands != []
    ensures r in cands
    ensures forall c :: c in cands ==> Beats(xs, r, c)
  {
    if |cands| == 1 then
      StrLeReflexive(cands[0]);
      cands[0]
    else
      var b := Best(xs, cands[1..]);
      assert cands == [cands[0]] + cands[1..];
      if Beats(xs, cands[0], b) then
        StrLeReflexive(cands[0]);
        BeatsTransitive(xs, cands[0], b, cands[1..]);
        cands[0]
      else
        StrLeTotal(cands[0], b);
        b
  }

  /** `v` is what pandas' `mode()[0]` returns for `xs`: a most frequent value,
      and the smallest one when several are equally frequent (pandas returns
      the modes sorted). */
  predicate IsModeOf(xs: seq<string>, v: string)
  {
    v in xs && forall c :: c in xs ==> Beats(xs, v, c)
  }

  /** pandas' `mode()[0]` over the non-missing values; `None` where pandas
      raises because the mode is empty. */
  function Mode(xs: seq<string>): (r: Option<string>)
    ensures r.None? <==> xs == []
    ensures r.Some? ==> IsModeOf(xs, r.value)
  {
    if xs == [] then None else Some(Best(xs, xs))
  }

  /** Ties are broken deterministically: there is exactly one mode. */
  lemma ModeIsUnique(xs: seq<string>, v: string)
    requires IsModeOf(xs, v)
    ensures Mode(xs) == Some(v)
  {
    var r := Mode(xs).value;
    assert Beats(xs, r, v) && Beats(xs, v, r);
    StrLeAntisymmetric(r, v);
  }
}
