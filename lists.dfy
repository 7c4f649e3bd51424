/** The array operations of JavaScript that the core relies on: `filter`,
    `Array.from(new Set(xs))`, `includes`-guarded toggles, and `sort` with a
    comparator on one string key. */
module Lists {
  import opened Common

  /** `xs.findIndex(p)`: the first position whose element satisfies `p`. */
  function FindIndex<T>(xs: seq<T>, p: T -> bool): (r: Option<nat>)
    ensures r.Some? ==> r.value < |xs| && p(xs[r.value])
    ensures r.Some? ==> forall i :: 0 <= i < r.value ==> !p(xs[i])
    ensures r.None? ==> forall i :: 0 <= i < |xs| ==> !p(xs[i])
  {
    if xs == [] then None
    else if p(xs[0]) then Some(0)
    else match FindIndex(xs[1..], p)
      case None => None
      case Some(k) => Some(k + 1)
  }

  /** `xs.find(p)`: the first element satisfying `p`. */
  function Find<T>(xs: seq<T>, p: T -> bool): (r: Option<T>)
    ensures r.None? <==> forall i :: 0 <= i < |xs| ==> !p(xs[i])
    ensures r.Some? ==> r.value in xs && p(r.value)
  {
    match FindIndex(xs, p)
    case None => None
    case Some(k) => Some(xs[k])
  }

  /** `a` is an order-preserving subsequence of `b`. */
  predicate Subseq<T(==,!new)>(a: seq<T>, b: seq<T>)
    decreases |b|
  {
    if a == [] then true
    else if b == [] then false
    else if a[0] == b[0] then Subseq(a[1..], b[1..])
    else Subseq(a, b[1..])
  }

  /** `xs.filter(p)`: the elements satisfying `p`, every occurrence, in order. */
  function Filter<T(==,!new)>(xs: seq<T>, p: T -> bool): (r: seq<T>)
    ensures |r| <= |xs|
    ensures forall x :: x in r <==> x in xs && p(x)
  {
    if xs == [] then []
    else
      assert xs == [xs[0]] + xs[1..];
      (if p(xs[0]) then [xs[0]] else []) + Filter(xs[1..], p)
  }

  /** Filtering keeps each satisfying element with all its occurrences and
      drops every other one. */
  lemma {:induction false} FilterCounts<T(!new)>(xs: seq<T>, p: T -> bool)
    ensures forall x :: multiset(Filter(xs, p))[x] == if p(x) then multiset(xs)[x] else 0
  {
    if xs != [] {
      FilterCounts(xs[1..], p);
      assert xs == [xs[0]] + xs[1..];
      assert multiset(xs) == multiset{xs[0]} + multiset(xs[1..]);
    }
  }

  /** The filtered list is an order-preserving subsequence of the input. */
  lemma {:induction false} FilterSubseq<T(!new)>(xs: seq<T>, p: T -> bool)
    ensures Subseq(Filter(xs, p), xs)
  {
    if xs != [] {
      var rest := Filter(xs[1..], p);
      FilterSubseq(xs[1..], p);
      assert xs == [xs[0]] + xs[1..];
      if p(xs[0]) {
        assert ([xs[0]] + rest)[1..] == rest;
      } else {
        assert [] + rest == rest;
        SubseqDropFirst(rest, xs[1..], xs[0]);
      }
    }
  }

  /** Dropping the first element of a subsequence keeps it a subsequence. */
  lemma {:induction false} SubseqTail<T(!new)>(a: seq<T>, b: seq<T>)
    requires a != [] && Subseq(a, b)
    ensures Subseq(a[1..], b)
    decreases |b|, 0
  {
    if b != [] {
      if a[0] != b[0] {
        SubseqTail(a, b[1..]);
      }
      SubseqDropFirst(a[1..], b[1..], b[0]);
      assert [b[0]] + b[1..] == b;
    }
  }

  /** A subsequence of the tail is a subsequence of the whole. */
  lemma {:induction false} SubseqDropFirst<T(!new)>(a: seq<T>, t: seq<T>, h: T)
    requires Subseq(a, t)
    ensures Subseq(a, [h] + t)
    decreases |t|, 1
  {
    assert ([h] + t)[1..] == t;
    if a != [] && a[0] == h {
      SubseqTail(a, t);
    }
  }

  lemma {:induction false} FilterSnoc<T(!new)>(xs: seq<T>, y: T, p: T -> bool)
    ensures Filter(xs + [y], p) == Filter(xs, p) + (if p(y) then [y] else [])
  {
    if xs == [] {
      assert [] + [y] == [y];
      assert [y][1..] == [];
    } else {
      assert (xs + [y])[0] == xs[0];
      assert (xs + [y])[1..] == xs[1..] + [y];
      FilterSnoc(xs[1..], y, p);
    }
  }

  lemma AppendAssoc<T>(a: seq<T>, b: seq<T>, c: seq<T>)
    ensures a + b + c == a + (b + c)
  {
  }

  /** Filtering distributes over concatenation. */
  lemma {:induction false} FilterConcat<T(!new)>(a: seq<T>, b: seq<T>, p: T -> bool)
    ensures Filter(a + b, p) == Filter(a, p) + Filter(b, p)
  {
    if a == [] {
      assert a + b == b;
    } else {
      assert (a + b)[0] == a[0];
      assert (a + b)[1..] == a[1..] + b;
      FilterConcat(a[1..], b, p);
    }
  }

  /** One more round of a filtering loop. */
  lemma FilterPrefixSnoc<T(!new)>(xs: seq<T>, i: nat, p: T -> bool)
    requires i < |xs|
    ensures Filter(xs[..i + 1], p) == Filter(xs[..i], p) + (if p(xs[i]) then [xs[i]] else [])
  {
    assert xs[..i + 1] == xs[..i] + [xs[i]];
    FilterSnoc(xs[..i], xs[i], p);
  }

  /** Filtering with a predicate no element satisfies gives nothing. */
  lemma {:induction false} FilterNone<T(!new)>(xs: seq<T>, p: T -> bool)
    requires forall i :: 0 <= i < |xs| ==> !p(xs[i])
    ensures Filter(xs, p) == []
  {
    if xs != [] {
      assert forall i :: 0 <= i < |xs[1..]| ==> xs[1..][i] == xs[i + 1];
      FilterNone(xs[1..], p);
    }
  }

  /** Filtering with a predicate that every element satisfies changes nothing. */
  lemma {:induction false} FilterKeepsAll<T(!new)>(xs: seq<T>, p: T -> bool)
    requires forall x :: x in xs ==> p(x)
    ensures Filter(xs, p) == xs
  {
    if xs != [] {
      FilterKeepsAll(xs[1..], p);
      assert xs == [xs[0]] + xs[1..];
    }
  }

  /** `xs.map(f)`. */
  function Map<A, B>(xs: seq<A>, f: A -> B): (r: seq<B>)
    ensures |r| == |xs| && forall i :: 0 <= i < |xs| ==> r[i] == f(xs[i])
  {
    seq(|xs|, i requires 0 <= i < |xs| => f(xs[i]))
  }

  /** The predicate `x => x !== item`. */
  function Except<T(==,!new)>(item: T): T -> bool
  {
    x => x != item
  }

  predicate NoDups<T(==,!new)>(s: seq<T>)
  {
    forall i, j :: 0 <= i < j < |s| ==> s[i] != s[j]
  }

  /** `Array.from(new Set(xs))`: a set remembers insertion order, so an
      element stays where it first occurred and later copies are dropped. */
  function Dedup<T(==,!new)>(xs: seq<T>): (r: seq<T>)
    ensures NoDups(r)
    ensures forall x :: x in r <==> x in xs
    decreases |xs|
  {
    if xs == [] then []
    else
      var d := Dedup(xs[..|xs| - 1]);
      assert xs == xs[..|xs| - 1] + [xs[|xs| - 1]];
      if xs[|xs| - 1] in d then d else d + [xs[|xs| - 1]]
  }

  /** The position of the first occurrence of `x`. */
  function FirstIndex<T(==,!new)>(xs: seq<T>, x: T): (k: nat)
    requires x in xs
    ensures k < |xs| && xs[k] == x && x !in xs[..k]
  {
    if xs[0] == x then 0 else 1 + FirstIndex(xs[1..], x)
  }

  lemma {:induction false} FirstIndexPrefix<T(!new)>(xs: seq<T>, n: nat, x: T)
    requires n <= |xs| && x in xs[..n]
    ensures x in xs && FirstIndex(xs, x) == FirstIndex(xs[..n], x)
    decreases n
  {
    var p := xs[..n];
    var k :| 0 <= k < |p| && p[k] == x;
    assert xs[k] == x;
    assert p[0] == xs[0];
    if xs[0] != x {
      assert p[1..] == xs[1..][..n - 1];
      assert p[1..][k - 1] == x;
      FirstIndexPrefix(xs[1..], n - 1, x);
    }
  }

  /** Dedup keeps first-occurrence order: the elements of its result appear
      in the order of their first occurrences in the input. */
  lemma {:induction false} DedupFirstOccurrenceOrder<T(!new)>(xs: seq<T>)
    ensures forall i, j :: 0 <= i < j < |Dedup(xs)| ==>
      FirstIndex(xs, Dedup(xs)[i]) < FirstIndex(xs, Dedup(xs)[j])
    decreases |xs|
  {
    if xs != [] {
      var n := |xs| - 1;
      var init := xs[..n];
      var d := Dedup(init);
      DedupFirstOccurrenceOrder(init);
      assert xs == init + [xs[n]];
      forall i | 0 <= i < |d| ensures FirstIndex(xs, d[i]) == FirstIndex(init, d[i]) {
        FirstIndexPrefix(xs, n, d[i]);
      }
      if xs[n] !in d {
        assert xs[n] !in init;
        assert FirstIndex(xs, xs[n]) == n;
      }
    }
  }

  /** The deduplicated prefix is a prefix of the deduplicated whole. */
  lemma {:induction false} DedupPrefix<T(!new)>(a: seq<T>, b: seq<T>)
    ensures Dedup(a) <= Dedup(a + b)
    decreases |b|
  {
    if b == [] {
      assert a + b == a;
    } else {
      var n := |b| - 1;
      assert (a + b)[..|a + b| - 1] == a + b[..n];
      DedupPrefix(a, b[..n]);
    }
  }

  /** Deduplicating a list without duplicates changes nothing. */
  lemma {:induction false} DedupOfDistinct<T(!new)>(xs: seq<T>)
    requires NoDups(xs)
    ensures Dedup(xs) == xs
    decreases |xs|
  {
    if xs != [] {
      var n := |xs| - 1;
      DedupOfDistinct(xs[..n]);
      assert xs[n] !in xs[..n];
      assert xs == xs[..n] + [xs[n]];
    }
  }

  /** Remove every occurrence when present, otherwise put `item` first
      (the onboarding interest and skill toggles). */
  function ToggleFront<T(==,!new)>(xs: seq<T>, item: T): seq<T>
  {
    if item in xs then Filter(xs, Except(item)) else [item] + xs
  }

  /** Remove every occurrence when present, otherwise put `item` last
      (the provider and work-style toggles). */
  function ToggleBack<T(==,!new)>(xs: seq<T>, item: T): seq<T>
  {
    if item in xs then Filter(xs, Except(item)) else xs + [item]
  }

  /** After a toggle the item is present exactly when it was absent, and
      every other element keeps its multiplicity. */
  lemma ToggleFlips<T(!new)>(xs: seq<T>, item: T)
    ensures item in ToggleFront(xs, item) <==> item !in xs
    ensures item in ToggleBack(xs, item) <==> item !in xs
    ensures forall y :: y != item ==> multiset(ToggleFront(xs, item))[y] == multiset(xs)[y]
    ensures forall y :: y != item ==> multiset(ToggleBack(xs, item))[y] == multiset(xs)[y]
  {
    FilterCounts(xs, Except(item));
  }

  /** Toggling an absent item on and off again restores the list. */
  lemma ToggleFrontTwice<T(!new)>(xs: seq<T>, item: T)
    requires item !in xs
    ensures ToggleFront(ToggleFront(xs, item), item) == xs
  {
    var ys := [item] + xs;
    assert ys == [ys[0]] + ys[1..] && ys[1..] == xs;
    assert Filter(ys, Except(item)) == Filter(xs, Except(item));
    FilterKeepsAll(xs, Except(item));
  }

  lemma ToggleBackTwice<T(!new)>(xs: seq<T>, item: T)
    requires item !in xs
    ensures ToggleBack(ToggleBack(xs, item), item) == xs
  {
    FilterAppendDropped(xs, item, Except(item));
    FilterKeepsAll(xs, Except(item));
  }

  lemma {:induction false} FilterAppendDropped<T(!new)>(xs: seq<T>, y: T, p: T -> bool)
    requires !p(y)
    ensures Filter(xs + [y], p) == Filter(xs, p)
  {
    if xs == [] {
      assert [] + [y] == [y];
      assert [y][1..] == [];
    } else {
      assert (xs + [y])[0] == xs[0];
      assert (xs + [y])[1..] == xs[1..] + [y];
      FilterAppendDropped(xs[1..], y, p);
    }
  }

  /** Lexicographic order on code points, standing for `localeCompare`. */
  predicate StrLe(a: string, b: string)
  {
    if a == [] then true
    else if b == [] then false
    else if a[0] != b[0] then a[0] < b[0]
    else StrLe(a[1..], b[1..])
  }

  lemma StrLeTotal(a: string, b: string)
    ensures StrLe(a, b) || StrLe(b, a)
  {
    if a != [] && b != [] && a[0] == b[0] { StrLeTotal(a[1..], b[1..]); }
  }

  lemma StrLeTrans(a: string, b: string, c: string)
    requires StrLe(a, b) && StrLe(b, c)
    ensures StrLe(a, c)
  {
    if a != [] && b != [] && c != [] && a[0] == b[0] && b[0] == c[0] {
      StrLeTrans(a[1..], b[1..], c[1..]);
    }
  }

  predicate SortedBy<T>(s: seq<T>, key: T -> string)
  {
    forall i, j :: 0 <= i < j < |s| ==> StrLe(key(s[i]), key(s[j]))
  }

  lemma SortedCons<T>(h: T, t: seq<T>, key: T -> string)
    requires SortedBy(t, key)
    requires forall y :: y in t ==> StrLe(key(h), key(y))
    ensures SortedBy([h] + t, key)
  {
    var s := [h] + t;
    forall i, j | 0 <= i < j < |s| ensures StrLe(key(s[i]), key(s[j])) {
      if i == 0 { assert s[j] == t[j - 1] && t[j - 1] in t; }
      else { assert s[i] == t[i - 1] && s[j] == t[j - 1]; }
    }
  }

  /** Insert `x` before the first element whose key is not smaller. */
  function Insert<T(==,!new)>(x: T, s: seq<T>, key: T -> string): (r: seq<T>)
    requires SortedBy(s, key)
    ensures SortedBy(r, key)
    ensures multiset(r) == multiset(s) + multiset{x}
  {
    if s == [] then [x]
    else if StrLe(key(x), key(s[0])) then
      forall y | y in s ensures StrLe(key(x), key(y)) {
        var j :| 0 <= j < |s| && s[j] == y;
        if j > 0 { StrLeTrans(key(x), key(s[0]), key(s[j])); }
      }
      SortedCons(x, s, key);
      [x] + s
    else
      StrLeTotal(key(x), key(s[0]));
      assert s == [s[0]] + s[1..];
      var t := Insert(x, s[1..], key);
      forall y | y in t ensures StrLe(key(s[0]), key(y)) {
        assert y in multiset(t);
        if y != x {
          var j :| 0 <= j < |s[1..]| && s[1..][j] == y;
          assert s[j + 1] == y;
        }
      }
      SortedCons(s[0], t, key);
      [s[0]] + t
  }

  /** `xs.sort((a, b) => key(a).localeCompare(key(b)))` on a fresh array:
      sorted by the key and a permutation of the input. */
  function SortBy<T(==,!new)>(xs: seq<T>, key: T -> string): (r: seq<T>)
    ensures SortedBy(r, key)
    ensures multiset(r) == multiset(xs)
  {
    if xs == [] then []
    else
      assert xs == [xs[0]] + xs[1..];
      Insert(xs[0], SortBy(xs[1..], key), key)
  }

  lemma MapCons<A, B>(h: A, t: seq<A>, f: A -> B)
    ensures Map([h] + t, f) == [f(h)] + Map(t, f)
  {
  }

  /** Inserting adds the inserted element's image to the images. */
  lemma {:induction false} InsertMap<T(!new), B(!new)>(x: T, s: seq<T>, key: T -> string, g: T -> B)
    requires SortedBy(s, key)
    ensures multiset(Map(Insert(x, s, key), g)) == multiset(Map(s, g)) + multiset{g(x)}
  {
    if s == [] {
    } else if StrLe(key(x), key(s[0])) {
      MapCons(x, s, g);
    } else {
      assert s == [s[0]] + s[1..];
      assert SortedBy(s[1..], key);
      InsertMap(x, s[1..], key, g);
      MapCons(s[0], Insert(x, s[1..], key), g);
      MapCons(s[0], s[1..], g);
    }
  }

  /** Sorting keeps the multiset of any projection, for instance of the
      ids. */
  lemma {:induction false} SortByMap<T(!new), B(!new)>(xs: seq<T>, key: T -> string, g: T -> B)
    ensures multiset(Map(SortBy(xs, key), g)) == multiset(Map(xs, g))
  {
    if xs != [] {
      assert xs == [xs[0]] + xs[1..];
      SortByMap(xs[1..], key, g);
      InsertMap(xs[0], SortBy(xs[1..], key), key, g);
      MapCons(xs[0], xs[1..], g);
    }
  }
}
