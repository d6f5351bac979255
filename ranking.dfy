/** Counting and ranking as Python's `collections.Counter` and `sorted(...,
    reverse=True)` do them: a tally keeps its items in first-seen order, and the
    sort by count is stable, so items with equal counts keep their relative order.
    `Counter.most_common(n)` is the stable sort followed by the first n. */
module Ranking {
  import opened Common

  /** One dictionary item `(item, count)` of a tally. */
  datatype Tally<T> = Tally(item: T, count: nat)

  function TallyCount<T>(t: Tally<T>): int
  {
    t.count
  }

  function Items<T>(ts: seq<Tally<T>>): (r: seq<T>)
    ensures |r| == |ts|
    ensures forall k :: 0 <= k < |ts| ==> r[k] == ts[k].item
  {
    if ts == [] then [] else [ts[0].item] + Items(ts[1..])
  }

  /** `counts.get(x, 0)`. */
  function CountIn<T(==)>(ts: seq<Tally<T>>, x: T): nat
  {
    if ts == [] then 0 else if ts[0].item == x then ts[0].count else CountIn(ts[1..], x)
  }

  ghost predicate DistinctItems<T>(ts: seq<Tally<T>>)
  {
    forall i, j :: 0 <= i < j < |ts| ==> ts[i].item != ts[j].item
  }

  /** `counts[x] = counts.get(x, 0) + 1`: an existing key keeps its place, a new
      key goes to the end. */
  function Bump<T(==)>(ts: seq<Tally<T>>, x: T): seq<Tally<T>>
  {
    if ts == [] then [Tally(x, 1)]
    else if ts[0].item == x then [Tally(x, ts[0].count + 1)] + ts[1..]
    else [ts[0]] + Bump(ts[1..], x)
  }

  /** The tally of `xs`, built one occurrence at a time. */
  function Counts<T(==)>(xs: seq<T>): seq<Tally<T>>
  {
    if xs == [] then [] else Bump(Counts(xs[..|xs| - 1]), xs[|xs| - 1])
  }

  /** The distinct elements of `xs` in the order of their first occurrence. */
  function FirstSeen<T(==)>(xs: seq<T>): seq<T>
  {
    if xs == [] then []
    else
      var init := xs[..|xs| - 1];
      FirstSeen(init) + (if xs[|xs| - 1] in init then [] else [xs[|xs| - 1]])
  }

  lemma {:induction false} FirstSeenMembers<T>(xs: seq<T>)
    ensures forall y :: y in FirstSeen(xs) <==> y in xs
  {
    if xs != [] {
      var init := xs[..|xs| - 1];
      FirstSeenMembers(init);
      assert xs == init + [xs[|xs| - 1]];
    }
  }

  /** A bump adds one to the count of `x` and leaves every other count alone. */
  lemma {:induction false} BumpCount<T>(ts: seq<Tally<T>>, x: T, y: T)
    ensures CountIn(Bump(ts, x), y) == CountIn(ts, y) + (if y == x then 1 else 0)
  {
    if ts != [] && ts[0].item != x {
      BumpCount(ts[1..], x, y);
      assert Bump(ts, x)[1..] == Bump(ts[1..], x);
    } else if ts != [] {
      assert Bump(ts, x)[1..] == ts[1..];
    }
  }

  /** A bump keeps the items in place and appends `x` when it is new. */
  lemma {:induction false} BumpItems<T>(ts: seq<Tally<T>>, x: T)
    ensures Items(Bump(ts, x)) == Items(ts) + (if x in Items(ts) then [] else [x])
  {
    if ts != [] && ts[0].item != x {
      var rest := ts[1..];
      BumpItems(rest, x);
      assert Items(ts) == [ts[0].item] + Items(rest);
      assert Bump(ts, x) == [ts[0]] + Bump(rest, x);
      assert Items(Bump(ts, x)) == [ts[0].item] + Items(Bump(rest, x));
      assert x in Items(ts) <==> x in Items(rest);
    } else if ts != [] {
      var rest := ts[1..];
      assert Items(Bump(ts, x)) == [x] + Items(rest);
      assert Items(ts) == [x] + Items(rest);
    }
  }

  lemma BumpDistinct<T>(ts: seq<Tally<T>>, x: T)
    requires DistinctItems(ts)
    ensures DistinctItems(Bump(ts, x))
  {
    var b := Bump(ts, x);
    BumpItems(ts, x);
    forall i, j | 0 <= i < j < |b| ensures b[i].item != b[j].item {
      assert Items(b)[i] == b[i].item && Items(b)[j] == b[j].item;
      if j < |ts| {
        assert Items(ts)[i] == ts[i].item && Items(ts)[j] == ts[j].item;
      } else {
        assert b[j].item == x && x !in Items(ts);
        assert Items(ts)[i] == b[i].item;
      }
    }
  }

  lemma BumpSpec<T>(ts: seq<Tally<T>>, x: T)
    requires DistinctItems(ts)
    ensures DistinctItems(Bump(ts, x))
    ensures forall y :: CountIn(Bump(ts, x), y) == CountIn(ts, y) + (if y == x then 1 else 0)
    ensures Items(Bump(ts, x)) == Items(ts) + (if x in Items(ts) then [] else [x])
  {
    BumpDistinct(ts, x);
    BumpItems(ts, x);
    forall y ensures CountIn(Bump(ts, x), y) == CountIn(ts, y) + (if y == x then 1 else 0) {
      BumpCount(ts, x, y);
    }
  }

  /** `Counter(xs)`: one tally per distinct element, in first-seen order, whose
      count is the element's number of occurrences. */
  lemma {:induction false} CountsSpec<T>(xs: seq<T>)
    ensures DistinctItems(Counts(xs))
    ensures forall y :: CountIn(Counts(xs), y) == multiset(xs)[y]
    ensures Items(Counts(xs)) == FirstSeen(xs)
  {
    if xs != [] {
      var init := xs[..|xs| - 1];
      var x := xs[|xs| - 1];
      CountsSpec(init);
      BumpSpec(Counts(init), x);
      assert xs == init + [x];
      FirstSeenMembers(init);
      assert x in Items(Counts(init)) <==> x in FirstSeen(init);
    }
  }

  /** The count of a tally is the count the tally holds for its item. */
  lemma {:induction false} CountInAt<T>(ts: seq<Tally<T>>, k: nat)
    requires DistinctItems(ts) && k < |ts|
    ensures CountIn(ts, ts[k].item) == ts[k].count
  {
    if k > 0 {
      CountInAt(ts[1..], k - 1);
    }
  }

  /** A tally's entries are exactly the elements of `xs`, each with its number of
      occurrences. */
  lemma CountsEntries<T>(xs: seq<T>)
    ensures forall y :: y in Items(Counts(xs)) <==> y in xs
    ensures forall k :: 0 <= k < |Counts(xs)| ==> Counts(xs)[k].count == multiset(xs)[Counts(xs)[k].item] > 0
  {
    CountsSpec(xs);
    FirstSeenMembers(xs);
    forall k | 0 <= k < |Counts(xs)|
      ensures Counts(xs)[k].count == multiset(xs)[Counts(xs)[k].item] > 0
    {
      CountInAt(Counts(xs), k);
      assert Counts(xs)[k].item in Items(Counts(xs));
    }
  }

  // ---------------------------------------------------------------------------
  // Stable sort by a key, largest first

  ghost predicate NonIncreasing<T>(s: seq<T>, key: T -> int)
  {
    forall i, j :: 0 <= i < j < |s| ==> key(s[i]) >= key(s[j])
  }

  /** Puts `x`, which came before every element of `s`, after the elements
      with a strictly larger key. */
  function InsertDesc<T>(x: T, s: seq<T>, key: T -> int): seq<T>
  {
    if s == [] then [x]
    else if key(x) >= key(s[0]) then [x] + s
    else [s[0]] + InsertDesc(x, s[1..], key)
  }

  /** `sorted(s, key=key, reverse=True)`. */
  function SortDesc<T>(s: seq<T>, key: T -> int): seq<T>
  {
    if s == [] then [] else InsertDesc(s[0], SortDesc(s[1..], key), key)
  }

  lemma {:induction false} InsertDescPermutation<T>(x: T, s: seq<T>, key: T -> int)
    ensures multiset(InsertDesc(x, s, key)) == multiset(s) + multiset{x}
  {
    if s != [] && key(x) < key(s[0]) {
      InsertDescPermutation(x, s[1..], key);
      assert s == [s[0]] + s[1..];
    }
  }

  /** Inserting an element no larger than a bound keeps every key within it. */
  lemma {:induction false} InsertDescBelow<T>(x: T, s: seq<T>, key: T -> int, b: int)
    requires key(x) <= b
    requires forall k :: 0 <= k < |s| ==> key(s[k]) <= b
    ensures |InsertDesc(x, s, key)| == |s| + 1
    ensures forall k :: 0 <= k < |InsertDesc(x, s, key)| ==> key(InsertDesc(x, s, key)[k]) <= b
  {
    var r := InsertDesc(x, s, key);
    if s != [] && key(x) < key(s[0]) {
      var rest := InsertDesc(x, s[1..], key);
      InsertDescBelow(x, s[1..], key, b);
      assert r == [s[0]] + rest;
      forall k | 0 <= k < |r| ensures key(r[k]) <= b {
        if k > 0 {
          assert r[k] == rest[k - 1];
        }
      }
    } else if s != [] {
      assert r == [x] + s;
      forall k | 0 <= k < |r| ensures key(r[k]) <= b {
        if k > 0 {
          assert r[k] == s[k - 1];
        }
      }
    }
  }

  lemma {:induction false} InsertDescSorted<T>(x: T, s: seq<T>, key: T -> int)
    requires NonIncreasing(s, key)
    ensures NonIncreasing(InsertDesc(x, s, key), key)
  {
    var r := InsertDesc(x, s, key);
    if s != [] && key(x) < key(s[0]) {
      var rest := InsertDesc(x, s[1..], key);
      InsertDescSorted(x, s[1..], key);
      forall k | 0 <= k < |s[1..]| ensures key(s[1..][k]) <= key(s[0]) {
        assert s[1..][k] == s[k + 1];
      }
      InsertDescBelow(x, s[1..], key, key(s[0]));
      assert r == [s[0]] + rest;
      forall i, j | 0 <= i < j < |r| ensures key(r[i]) >= key(r[j]) {
        assert r[j] == rest[j - 1];
        if i > 0 {
          assert r[i] == rest[i - 1];
        }
      }
    } else if s != [] {
      assert r == [x] + s;
      forall i, j | 0 <= i < j < |r| ensures key(r[i]) >= key(r[j]) {
        assert r[j] == s[j - 1];
        if i > 0 {
          assert r[i] == s[i - 1];
        } else {
          assert key(s[0]) >= key(s[j - 1]) || j - 1 == 0;
        }
      }
    }
  }

  lemma {:induction false} InsertDescFilter<T>(x: T, s: seq<T>, key: T -> int, p: T -> bool)
    requires forall e, e' :: p(e) && p(e') ==> key(e) == key(e')
    ensures Filter(InsertDesc(x, s, key), p) == (if p(x) then [x] else []) + Filter(s, p)
  {
    if s == [] {
      assert [x] + s == [x];
      FilterAppend([x], s, p);
    } else if key(x) >= key(s[0]) {
      FilterAppend([x], s, p);
    } else {
      var rest := InsertDesc(x, s[1..], key);
      InsertDescFilter(x, s[1..], key, p);
      FilterAppend([s[0]], rest, p);
      assert s == [s[0]] + s[1..];
      FilterAppend([s[0]], s[1..], p);
      assert !(p(x) && p(s[0]));
    }
  }

  lemma {:induction false} SortDescSorted<T>(s: seq<T>, key: T -> int)
    ensures NonIncreasing(SortDesc(s, key), key)
  {
    if s != [] {
      SortDescSorted(s[1..], key);
      InsertDescSorted(s[0], SortDesc(s[1..], key), key);
    }
  }

  lemma {:induction false} SortDescPermutation<T>(s: seq<T>, key: T -> int)
    ensures multiset(SortDesc(s, key)) == multiset(s)
  {
    if s != [] {
      SortDescPermutation(s[1..], key);
      InsertDescPermutation(s[0], SortDesc(s[1..], key), key);
      assert s == [s[0]] + s[1..];
    }
  }

  /** Stability: the elements that share one key appear in the sorted sequence in
      the order they had in `s`. */
  lemma {:induction false} SortDescStable<T>(s: seq<T>, key: T -> int, p: T -> bool)
    requires forall e, e' :: p(e) && p(e') ==> key(e) == key(e')
    ensures Filter(SortDesc(s, key), p) == Filter(s, p)
  {
    if s != [] {
      SortDescStable(s[1..], key, p);
      InsertDescFilter(s[0], SortDesc(s[1..], key), key, p);
    }
  }

  lemma {:induction false} InsertDescDistinct<T, K>(x: T, s: seq<T>, key: T -> int, id: T -> K)
    requires forall i, j :: 0 <= i < j < |s| ==> id(s[i]) != id(s[j])
    requires forall k :: 0 <= k < |s| ==> id(s[k]) != id(x)
    ensures forall i, j :: 0 <= i < j < |InsertDesc(x, s, key)| ==>
              id(InsertDesc(x, s, key)[i]) != id(InsertDesc(x, s, key)[j])
  {
    if s != [] && key(x) < key(s[0]) {
      var rest := InsertDesc(x, s[1..], key);
      InsertDescDistinct(x, s[1..], key, id);
      InsertDescPermutation(x, s[1..], key);
      forall k | 0 <= k < |rest| ensures id(rest[k]) != id(s[0]) {
        assert rest[k] in multiset(rest);
        if rest[k] != x {
          assert rest[k] in multiset(s[1..]);
          var m :| 0 <= m < |s[1..]| && s[1..][m] == rest[k];
          assert s[m + 1] == rest[k];
        }
      }
    }
  }

  lemma {:induction false} SortDescDistinct<T, K>(s: seq<T>, key: T -> int, id: T -> K)
    requires forall i, j :: 0 <= i < j < |s| ==> id(s[i]) != id(s[j])
    ensures forall i, j :: 0 <= i < j < |SortDesc(s, key)| ==> id(SortDesc(s, key)[i]) != id(SortDesc(s, key)[j])
  {
    if s != [] {
      var rest := SortDesc(s[1..], key);
      SortDescDistinct(s[1..], key, id);
      SortDescPermutation(s[1..], key);
      forall k | 0 <= k < |rest| ensures id(rest[k]) != id(s[0]) {
        assert rest[k] in multiset(s[1..]);
        var m :| 0 <= m < |s[1..]| && s[1..][m] == rest[k];
        assert s[m + 1] == rest[k];
      }
      InsertDescDistinct(s[0], rest, key, id);
    }
  }

  // ---------------------------------------------------------------------------
  // most_common

  function TallyItem<T>(t: Tally<T>): T
  {
    t.item
  }

  /** `Counter(xs).most_common(n)`. */
  function MostCommon<T(==)>(xs: seq<T>, n: nat): seq<Tally<T>>
  {
    Take(SortDesc(Counts(xs), TallyCount), n)
  }

  /** `most_common(n)` lists n distinct elements of `xs`, or all of them
      when there are fewer, by non-increasing count. */
  lemma MostCommonSorted<T>(xs: seq<T>, n: nat)
    ensures |MostCommon(xs, n)| == Min(n, |FirstSeen(xs)|)
    ensures NonIncreasing(MostCommon(xs, n), TallyCount)
    ensures DistinctItems(MostCommon(xs, n))
  {
    var cs := Counts(xs);
    CountsSpec(xs);
    SortDescSorted(cs, TallyCount);
    SortDescDistinct(cs, TallyCount, TallyItem);
    SortDescPermutation(cs, TallyCount);
    assert |SortDesc(cs, TallyCount)| == |multiset(cs)| == |cs| == |Items(cs)|;
  }

  /** The first n elements of a list sorted by non-increasing key have keys
      no smaller than any element left out. */
  lemma PrefixDominates<T>(sorted: seq<T>, n: nat, key: T -> int)
    requires NonIncreasing(sorted, key)
    ensures var r := Take(sorted, n);
            forall k, e :: 0 <= k < |r| && e in multiset(sorted) - multiset(r) ==> key(e) <= key(r[k])
  {
    var r := Take(sorted, n);
    var rest := sorted[|r|..];
    assert sorted == r + rest;
    forall k, e | 0 <= k < |r| && e in multiset(sorted) - multiset(r)
      ensures key(e) <= key(r[k])
    {
      assert e in multiset(rest);
      var j :| 0 <= j < |rest| && rest[j] == e;
      assert sorted[|r| + j] == e && sorted[k] == r[k];
    }
  }

  /** The first n of the stable sort: n elements of `s` (all of them when
      there are fewer) whose keys are no smaller than any element left out. */
  lemma SortedPrefixTop<T>(s: seq<T>, n: nat, key: T -> int)
    ensures |Take(SortDesc(s, key), n)| == Min(n, |s|)
    ensures multiset(Take(SortDesc(s, key), n)) <= multiset(s)
    ensures forall k, e :: 0 <= k < |Take(SortDesc(s, key), n)| && e in multiset(s) - multiset(Take(SortDesc(s, key), n)) ==>
              key(e) <= key(Take(SortDesc(s, key), n)[k])
  {
    var sorted := SortDesc(s, key);
    SortDescSorted(s, key);
    SortDescPermutation(s, key);
    PermutationLength(sorted, s);
    PrefixDominates(sorted, n, key);
    PrefixSubMultiset(sorted, n);
  }

  lemma PermutationLength<T>(a: seq<T>, b: seq<T>)
    requires multiset(a) == multiset(b)
    ensures |a| == |b|
  {
    assert |multiset(a)| == |a|;
  }

  lemma PrefixSubMultiset<T>(s: seq<T>, n: nat)
    ensures multiset(Take(s, n)) <= multiset(s)
  {
    var r := Take(s, n);
    assert s == r + s[|r|..];
  }

  /** Each listed element occurs in `xs`, and its count is its number of
      occurrences. */
  lemma MostCommonEntries<T>(xs: seq<T>, n: nat)
    ensures forall k :: 0 <= k < |MostCommon(xs, n)| ==>
              MostCommon(xs, n)[k].item in xs && MostCommon(xs, n)[k].count == multiset(xs)[MostCommon(xs, n)[k].item]
  {
    var cs := Counts(xs);
    var sorted := SortDesc(cs, TallyCount);
    var r := MostCommon(xs, n);
    CountsEntries(xs);
    SortDescPermutation(cs, TallyCount);
    assert r == sorted[..|r|];
    forall k | 0 <= k < |r|
      ensures r[k].item in xs && r[k].count == multiset(xs)[r[k].item]
    {
      assert r[k] == sorted[k];
      assert r[k] in multiset(cs);
      var m :| 0 <= m < |cs| && cs[m] == r[k];
      assert cs[m].item in Items(cs);
    }
  }

  /** No element left out of `most_common(n)` occurs more often than one that
      was listed. */
  lemma MostCommonTop<T>(xs: seq<T>, n: nat, k: nat, y: T)
    requires k < |MostCommon(xs, n)| && y in xs && y !in Items(MostCommon(xs, n))
    ensures MostCommon(xs, n)[k].count >= multiset(xs)[y]
  {
    var cs := Counts(xs);
    var sorted := SortDesc(cs, TallyCount);
    var r := MostCommon(xs, n);
    CountsEntries(xs);
    var m :| 0 <= m < |cs| && cs[m].item == y;
    SortDescPermutation(cs, TallyCount);
    assert cs[m] in multiset(sorted);
    var j :| 0 <= j < |sorted| && sorted[j] == cs[m];
    forall i | 0 <= i < |r| ensures r[i].item != y {
      assert Items(r)[i] == r[i].item;
    }
    LaterThanPrefix(sorted, r, j, y);
    SortDescSorted(cs, TallyCount);
    assert TallyCount(sorted[k]) >= TallyCount(sorted[j]);
  }

  lemma LaterThanPrefix<T>(sorted: seq<Tally<T>>, r: seq<Tally<T>>, j: nat, y: T)
    requires |r| <= |sorted| && r == sorted[..|r|]
    requires j < |sorted| && sorted[j].item == y
    requires forall k :: 0 <= k < |r| ==> r[k].item != y
    ensures j >= |r|
  {
  }

  function HasCount<T>(c: int): Tally<T> -> bool
  {
    (t: Tally<T>) => t.count == c
  }

  /** Ties keep first-seen order: the listed elements with count c are the first
      of the tally's elements with count c, in the tally's (first-seen) order. */
  lemma MostCommonTies<T>(xs: seq<T>, n: nat, c: int)
    ensures var f := Filter(MostCommon(xs, n), HasCount(c));
            |f| <= |Filter(Counts(xs), HasCount(c))| && f == Filter(Counts(xs), HasCount(c))[..|f|]
  {
    var cs := Counts(xs);
    var sorted := SortDesc(cs, TallyCount);
    var r := MostCommon(xs, n);
    assert sorted == r + sorted[|r|..];
    FilterAppend(r, sorted[|r|..], HasCount(c));
    SortDescStable(cs, TallyCount, HasCount(c));
  }
}
