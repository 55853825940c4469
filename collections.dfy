/** Sequence operations shared by the scheduler and the vocabulary store: the
    shapes of JavaScript's Array.prototype.filter, a stable sort by a numeric
    key, and Array.prototype.slice(0, k). */
module Collections {

  datatype Option<+T> = None | Some(value: T) {
    /** The value, or a default when absent (the `x ?? d` / `x || d` idiom). */
    function GetOr(default: T): T {
      match this
      case Some(v) => v
      case None => default
    }
  }

  function Min(a: int, b: int): int { if a <= b then a else b }
  function Max(a: int, b: int): int { if a >= b then a else b }
  function MinReal(a: real, b: real): real { if a <= b then a else b }
  function MaxReal(a: real, b: real): real { if a >= b then a else b }

  /** Keeps, in order, the elements that satisfy `p`. */
  function Filter<T>(p: T -> bool, s: seq<T>): (r: seq<T>)
    ensures |r| <= |s|
    ensures forall i :: 0 <= i < |r| ==> r[i] in s && p(r[i])
    ensures forall i :: 0 <= i < |s| && p(s[i]) ==> s[i] in r
    decreases |s|
  {
    if s == [] then []
    else (if p(s[0]) then [s[0]] else []) + Filter(p, s[1..])
  }

  lemma FilterLengthSplit<T>(p: T -> bool, s: seq<T>)
    requires s != []
    ensures |Filter(p, s)| == (if p(s[0]) then 1 else 0) + |Filter(p, s[1..])|
  {
  }

  /** `r` is `s` with some elements left out, the rest in their order. */
  predicate IsSubseq<T(==)>(r: seq<T>, s: seq<T>)
    decreases |s|
  {
    if r == [] then true
    else if s == [] then false
    else if r[0] == s[0] then IsSubseq(r[1..], s[1..])
    else IsSubseq(r, s[1..])
  }

  lemma {:induction false} IsSubseqRefl<T>(s: seq<T>)
    ensures IsSubseq(s, s)
    decreases |s|
  {
    if s != [] { IsSubseqRefl(s[1..]); }
  }

  lemma {:induction false} FilterIsSubseq<T>(p: T -> bool, s: seq<T>)
    ensures IsSubseq(Filter(p, s), s)
    decreases |s|
  {
    if s != [] {
      FilterIsSubseq(p, s[1..]);
      var rest := Filter(p, s[1..]);
      if p(s[0]) {
        assert Filter(p, s) == [s[0]] + rest;
        assert (([s[0]] + rest)[1..]) == rest;
      } else {
        assert Filter(p, s) == rest;
        if rest != [] {
          assert rest[0] in rest;
          assert p(rest[0]);
          assert rest[0] != s[0];
        }
      }
    }
  }

  /** Each element occurs in the filtered sequence exactly as often as in the
      input when it passes, and not at all otherwise. */
  lemma {:induction false} FilterMultiset<T>(p: T -> bool, s: seq<T>, x: T)
    ensures multiset(Filter(p, s))[x] == if p(x) then multiset(s)[x] else 0
    decreases |s|
  {
    if s != [] {
      FilterMultiset(p, s[1..], x);
      assert s == [s[0]] + s[1..];
      assert multiset(s) == multiset([s[0]]) + multiset(s[1..]);
      var head := if p(s[0]) then [s[0]] else [];
      assert multiset(Filter(p, s)) == multiset(head) + multiset(Filter(p, s[1..]));
    }
  }

  lemma {:induction false} FilterAppend<T>(p: T -> bool, a: seq<T>, b: seq<T>)
    ensures Filter(p, a + b) == Filter(p, a) + Filter(p, b)
    decreases |a|
  {
    if a == [] {
      assert a + b == b;
    } else {
      assert (a + b)[0] == a[0];
      assert (a + b)[1..] == a[1..] + b;
      FilterAppend(p, a[1..], b);
    }
  }

  /** Filtering one more element of `s` extends the result by that element when it passes. */
  lemma FilterSnoc<T>(p: T -> bool, s: seq<T>, n: int)
    requires 0 <= n < |s|
    ensures Filter(p, s[..n + 1]) == Filter(p, s[..n]) + (if p(s[n]) then [s[n]] else [])
  {
    assert s[..n + 1] == s[..n] + [s[n]];
    FilterAppend(p, s[..n], [s[n]]);
  }

  /** Filtering keeps everything when every element passes. */
  lemma {:induction false} FilterAll<T>(p: T -> bool, s: seq<T>)
    requires forall x :: x in s ==> p(x)
    ensures Filter(p, s) == s
    decreases |s|
  {
    if s != [] {
      assert s[0] in s;
      assert forall x :: x in s[1..] ==> x in s;
      FilterAll(p, s[1..]);
      assert [s[0]] + s[1..] == s;
    }
  }

  /** Filtering keeps nothing when no element passes. */
  lemma {:induction false} FilterNone<T>(p: T -> bool, s: seq<T>)
    requires forall i :: 0 <= i < |s| ==> !p(s[i])
    ensures Filter(p, s) == []
    decreases |s|
  {
    if s != [] {
      assert !p(s[0]);
      FilterNone(p, s[1..]);
    }
  }

  /** The number of elements of `s` that satisfy `p`. */
  function Count<T>(p: T -> bool, s: seq<T>): nat
    decreases |s|
  {
    if s == [] then 0 else (if p(s[0]) then 1 else 0) + Count(p, s[1..])
  }

  /** Filtering keeps as many elements as satisfy the predicate, at most all of them. */
  lemma {:induction false} FilterCount<T>(p: T -> bool, s: seq<T>)
    ensures |Filter(p, s)| == Count(p, s) <= |s|
    decreases |s|
  {
    if s != [] {
      FilterCount(p, s[1..]);
      FilterLengthSplit(p, s);
    }
  }

  /** The union of two exclusive predicates counts the elements of each. */
  lemma {:induction false} CountUnion<T>(p: T -> bool, q: T -> bool, r: T -> bool, s: seq<T>)
    requires forall x :: r(x) == (p(x) || q(x))
    requires forall x :: !(p(x) && q(x))
    ensures Count(r, s) == Count(p, s) + Count(q, s)
    decreases |s|
  {
    if s != [] {
      CountUnion(p, q, r, s[1..]);
      assert r(s[0]) == (p(s[0]) || q(s[0]));
      assert !(p(s[0]) && q(s[0]));
    }
  }

  /** Filtering twice with the same predicate changes nothing more. */
  lemma FilterIdempotent<T>(p: T -> bool, s: seq<T>)
    ensures Filter(p, Filter(p, s)) == Filter(p, s)
  {
    FilterAll(p, Filter(p, s));
  }

  /** Keys are ascending along `s`. */
  predicate SortedByKey<T>(s: seq<T>, key: T -> int) {
    forall i, j :: 0 <= i < j < |s| ==> key(s[i]) <= key(s[j])
  }

  /** Inserts `x` before the first element whose key is not smaller. */
  function Insert<T>(x: T, s: seq<T>, key: T -> int): (r: seq<T>)
    decreases |s|
  {
    if s == [] || key(x) <= key(s[0]) then [x] + s
    else [s[0]] + Insert(x, s[1..], key)
  }

  lemma {:induction false} InsertMultiset<T>(x: T, s: seq<T>, key: T -> int)
    ensures multiset(Insert(x, s, key)) == multiset(s) + multiset{x}
    ensures |Insert(x, s, key)| == |s| + 1
    decreases |s|
  {
    if s != [] && key(x) > key(s[0]) {
      InsertMultiset(x, s[1..], key);
      assert s == [s[0]] + s[1..];
    }
  }

  /** The suffix of a sorted sequence is sorted. */
  lemma SortedTail<T>(s: seq<T>, key: T -> int)
    requires s != [] && SortedByKey(s, key)
    ensures SortedByKey(s[1..], key)
  {
    var t := s[1..];
    forall i, j | 0 <= i < j < |t| ensures key(t[i]) <= key(t[j]) {
      assert t[i] == s[i + 1] && t[j] == s[j + 1];
    }
  }

  /** A sorted sequence with an element in front that is not larger than any
      of its elements is sorted. */
  lemma SortedCons<T>(y: T, t: seq<T>, key: T -> int)
    requires SortedByKey(t, key)
    requires forall k :: 0 <= k < |t| ==> key(y) <= key(t[k])
    ensures SortedByKey([y] + t, key)
  {
    var r := [y] + t;
    forall i, j | 0 <= i < j < |r| ensures key(r[i]) <= key(r[j]) {
      assert r[j] == t[j - 1];
      if i > 0 { assert r[i] == t[i - 1]; }
    }
  }

  lemma {:induction false} InsertSorted<T>(x: T, s: seq<T>, key: T -> int)
    requires SortedByKey(s, key)
    ensures SortedByKey(Insert(x, s, key), key)
    decreases |s|
  {
    if s == [] || key(x) <= key(s[0]) {
      forall k | 0 <= k < |s| ensures key(x) <= key(s[k]) {
        if k > 0 { assert key(s[0]) <= key(s[k]); }
      }
      SortedCons(x, s, key);
    } else {
      var t := s[1..];
      SortedTail(s, key);
      InsertSorted(x, t, key);
      InsertMultiset(x, t, key);
      var u := Insert(x, t, key);
      forall k | 0 <= k < |u| ensures key(s[0]) <= key(u[k]) {
        assert u[k] in multiset(u);
        if u[k] != x {
          assert u[k] in multiset(t);
          var m :| 0 <= m < |t| && t[m] == u[k];
          assert s[m + 1] == t[m];
        }
      }
      SortedCons(s[0], u, key);
    }
  }

  lemma ConsMultiset<T>(s: seq<T>)
    requires s != []
    ensures multiset(s) == multiset(s[1..]) + multiset{s[0]}
  {
    assert s == [s[0]] + s[1..];
  }

  /** Stable insertion sort, ascending by `key`: the behaviour of
      Array.prototype.sort with comparator `(a, b) => key(a) - key(b)`, which
      keeps elements of equal key in their input order. */
  function SortByKey<T>(s: seq<T>, key: T -> int): (r: seq<T>)
    ensures multiset(r) == multiset(s)
    ensures SortedByKey(r, key)
    ensures |r| == |s|
    decreases |s|
  {
    if s == [] then []
    else
      var rest := SortByKey(s[1..], key);
      InsertMultiset(s[0], rest, key);
      InsertSorted(s[0], rest, key);
      ConsMultiset(s);
      Insert(s[0], rest, key)
  }

  /** Sorting keeps exactly the elements it was given. */
  lemma SortByKeyMembers<T>(s: seq<T>, key: T -> int)
    ensures forall x :: x in SortByKey(s, key) <==> x in s
  {
    var r := SortByKey(s, key);
    forall x ensures x in r <==> x in s {
      assert x in r <==> x in multiset(r);
      assert x in s <==> x in multiset(s);
    }
  }

  /** Sorting what a filter keeps holds exactly the elements that satisfy it. */
  lemma SortedFilterMembers<T>(p: T -> bool, s: seq<T>, key: T -> int)
    ensures forall x :: x in SortByKey(Filter(p, s), key) <==> x in s && p(x)
  {
    var kept := Filter(p, s);
    SortByKeyMembers(kept, key);
    forall x | x in s && p(x) ensures x in kept {
      var i :| 0 <= i < |s| && s[i] == x;
    }
    forall x | x in kept ensures x in s && p(x) {
      var i :| 0 <= i < |kept| && kept[i] == x;
    }
  }

  /** The elements whose key is `k`. */
  function KeyIs<T>(key: T -> int, k: int): T -> bool {
    (x: T) => key(x) == k
  }

  /** Within every key, `r` lists the elements of that key in the order `s`
      lists them: what a stable sort promises. */
  ghost predicate TiesInOrder<T>(r: seq<T>, s: seq<T>, key: T -> int) {
    forall k :: Filter(KeyIs(key, k), r) == Filter(KeyIs(key, k), s)
  }

  /** Within every key, the elements of that key in `r` are the first ones of
      that key in `s`, in the order `s` lists them: what a stable sort followed
      by a cut keeps. */
  ghost predicate TiesArePrefixes<T>(r: seq<T>, s: seq<T>, key: T -> int) {
    forall k :: Filter(KeyIs(key, k), r) <= Filter(KeyIs(key, k), s)
  }

  /** Filtering a sequence with one element in front. */
  lemma FilterCons<T>(p: T -> bool, y: T, t: seq<T>)
    ensures Filter(p, [y] + t) == (if p(y) then [y] else []) + Filter(p, t)
  {
    assert ([y] + t)[0] == y && ([y] + t)[1..] == t;
  }

  /** Two elements that do not both pass a filter can trade places in front. */
  lemma FilterPastHead<T>(p: T -> bool, x: T, y: T, t: seq<T>, u: seq<T>)
    requires !(p(x) && p(y))
    requires Filter(p, u) == Filter(p, [x] + t)
    ensures Filter(p, [y] + u) == Filter(p, [x] + ([y] + t))
  {
    FilterCons(p, y, u);
    FilterCons(p, x, t);
    FilterCons(p, y, t);
    FilterCons(p, x, [y] + t);
  }

  /** Swapping two neighbours that do not both pass a filter leaves the filtered sequence alone. */
  lemma FilterSwapNeighbours<T>(p: T -> bool, s: seq<T>, j: int)
    requires 0 < j < |s| && !(p(s[j - 1]) && p(s[j]))
    ensures Filter(p, s[j - 1 := s[j]][j := s[j - 1]]) == Filter(p, s)
  {
    var a, b, head, tail := s[j - 1], s[j], s[..j - 1], s[j + 1..];
    assert s == head + ([a] + ([b] + tail));
    assert s[j - 1 := b][j := a] == head + ([b] + ([a] + tail));
    FilterAppend(p, head, [a] + ([b] + tail));
    FilterAppend(p, head, [b] + ([a] + tail));
    FilterPastHead(p, a, b, tail, [a] + tail);
  }

  /** Inserting only moves `x` past elements of smaller key, so no element of
      its own key is passed. */
  lemma {:induction false} InsertKeepsTies<T>(x: T, s: seq<T>, key: T -> int, k: int)
    ensures Filter(KeyIs(key, k), Insert(x, s, key)) == Filter(KeyIs(key, k), [x] + s)
    decreases |s|
  {
    if s != [] && key(x) > key(s[0]) {
      var t := s[1..];
      InsertKeepsTies(x, t, key, k);
      assert s == [s[0]] + t;
      FilterPastHead(KeyIs(key, k), x, s[0], t, Insert(x, t, key));
    }
  }

  lemma {:induction false} SortByKeyKeepsTies<T>(s: seq<T>, key: T -> int, k: int)
    ensures Filter(KeyIs(key, k), SortByKey(s, key)) == Filter(KeyIs(key, k), s)
    decreases |s|
  {
    if s != [] {
      var q := KeyIs(key, k);
      var rest := SortByKey(s[1..], key);
      SortByKeyKeepsTies(s[1..], key, k);
      InsertKeepsTies(s[0], rest, key, k);
      FilterAppend(q, [s[0]], rest);
      FilterAppend(q, [s[0]], s[1..]);
      assert s == [s[0]] + s[1..];
    }
  }

  /** SortByKey is stable: elements of equal key keep their input order. */
  lemma SortByKeyStable<T>(s: seq<T>, key: T -> int)
    ensures TiesInOrder(SortByKey(s, key), s, key)
  {
    forall k ensures Filter(KeyIs(key, k), SortByKey(s, key)) == Filter(KeyIs(key, k), s) {
      SortByKeyKeepsTies(s, key, k);
    }
  }

  /** Filtering a prefix gives a prefix of the filtered whole. */
  lemma {:induction false} FilterPrefix<T>(p: T -> bool, s: seq<T>, n: int)
    requires 0 <= n <= |s|
    ensures Filter(p, s[..n]) <= Filter(p, s)
    decreases n
  {
    if n > 0 {
      FilterPrefix(p, s[1..], n - 1);
      assert s[..n] == [s[0]] + s[1..][..n - 1];
      assert s == [s[0]] + s[1..];
      FilterCons(p, s[0], s[1..][..n - 1]);
      FilterCons(p, s[0], s[1..]);
    }
  }

  /** Cutting a stably sorted sequence keeps, within every key, the first
      elements of that key. */
  lemma StableCut<T>(sorted: seq<T>, s: seq<T>, key: T -> int, limit: int)
    requires TiesInOrder(sorted, s, key)
    ensures TiesArePrefixes(TakePrefix(sorted, limit), s, key)
  {
    var r := TakePrefix(sorted, limit);
    forall k ensures Filter(KeyIs(key, k), r) <= Filter(KeyIs(key, k), s) {
      FilterPrefix(KeyIs(key, k), sorted, |r|);
    }
  }

  /** Array.prototype.slice(0, k): negative `k` counts from the end. */
  function TakePrefix<T>(s: seq<T>, k: int): (r: seq<T>)
    ensures |r| <= |s|
    ensures r == s[..|r|]
    ensures k >= 0 ==> |r| == Min(k, |s|)
    ensures k < 0 ==> |r| == Max(|s| + k, 0)
  {
    if k >= 0 then (if k <= |s| then s[..k] else s)
    else if |s| + k >= 0 then s[..|s| + k]
    else []
  }

  lemma TakePrefixMultiset<T>(s: seq<T>, k: int)
    ensures multiset(TakePrefix(s, k)) <= multiset(s)
  {
    var r := TakePrefix(s, k);
    assert s == r + s[|r|..];
    assert multiset(s) == multiset(r) + multiset(s[|r|..]);
  }

  /** One element pushed at the end: the old elements keep their places. */
  lemma SnocFacts<T>(prev: seq<T>, x: T, r: seq<T>)
    requires r == prev + [x]
    ensures |r| == |prev| + 1 && r[|prev|] == x
    ensures forall k :: 0 <= k < |prev| ==> r[k] == prev[k]
  {
  }

  /** The pieces `parts(1)`, ..., `parts(n)` one after another. */
  function Concat<T>(parts: nat -> seq<T>, n: nat): seq<T>
    decreases n
  {
    if n == 0 then [] else Concat(parts, n - 1) + parts(n)
  }

  /** One element per piece: element `k` comes from piece `k + 1`. */
  lemma {:induction false} ConcatSingles<T>(parts: nat -> seq<T>, n: nat)
    requires forall i :: 1 <= i <= n ==> |parts(i)| == 1
    ensures |Concat(parts, n)| == n
    ensures forall k :: 0 <= k < n ==> Concat(parts, n)[k] == parts(k + 1)[0]
    decreases n
  {
    if n > 0 {
      ConcatSingles(parts, n - 1);
      SnocFacts(Concat(parts, n - 1), parts(n)[0], Concat(parts, n));
    }
  }

  /** At most one element per piece. */
  lemma {:induction false} ConcatBound<T>(parts: nat -> seq<T>, n: nat)
    requires forall i :: 1 <= i <= n ==> |parts(i)| <= 1
    ensures |Concat(parts, n)| <= n
    decreases n
  {
    if n > 0 {
      ConcatBound(parts, n - 1);
    }
  }

  /** A property every piece's elements have, the whole has. */
  lemma {:induction false} ConcatEvery<T>(parts: nat -> seq<T>, n: nat, p: T -> bool)
    requires forall i, k :: 1 <= i <= n && 0 <= k < |parts(i)| ==> p(parts(i)[k])
    ensures forall k :: 0 <= k < |Concat(parts, n)| ==> p(Concat(parts, n)[k])
    decreases n
  {
    if n > 0 {
      ConcatEvery(parts, n - 1, p);
      var a, b := Concat(parts, n - 1), parts(n);
      forall k | 0 <= k < |a + b| ensures p((a + b)[k]) {
        if k < |a| { assert (a + b)[k] == a[k]; } else { assert (a + b)[k] == b[k - |a|]; }
      }
    }
  }

  /** Array.prototype.map, built from the front. */
  function MapSeq<A, B>(f: A -> B, s: seq<A>): (r: seq<B>)
    ensures |r| == |s|
    decreases |s|
  {
    if s == [] then [] else MapSeq(f, s[..|s| - 1]) + [f(s[|s| - 1])]
  }

  /** Mapping keeps the length and applies `f` at every position. */
  lemma {:induction false} MapSeqMeans<A, B>(f: A -> B, s: seq<A>)
    ensures |MapSeq(f, s)| == |s|
    ensures forall i :: 0 <= i < |s| ==> MapSeq(f, s)[i] == f(s[i])
    decreases |s|
  {
    if s != [] {
      var init := s[..|s| - 1];
      MapSeqMeans(f, init);
      assert forall i :: 0 <= i < |init| ==> init[i] == s[i];
    }
  }

  lemma MapSeqSnoc<A, B>(f: A -> B, s: seq<A>, n: int)
    requires 0 <= n < |s|
    ensures MapSeq(f, s[..n + 1]) == MapSeq(f, s[..n]) + [f(s[n])]
  {
    assert s[..n + 1][..n] == s[..n];
  }

  /** The sum of `f` over `s` (Array.prototype.reduce with `+`). */
  function SumReal<T>(s: seq<T>, f: T -> real): real
    decreases |s|
  {
    if s == [] then 0.0 else f(s[0]) + SumReal(s[1..], f)
  }

  /** A sum of terms each at least `m` is at least `m` times their number. */
  lemma {:induction false} SumRealLowerBound<T>(s: seq<T>, f: T -> real, m: real)
    requires forall i :: 0 <= i < |s| ==> f(s[i]) >= m
    ensures SumReal(s, f) >= m * |s| as real
    decreases |s|
  {
    if s != [] {
      var t := s[1..];
      assert forall i :: 0 <= i < |t| ==> t[i] == s[i + 1];
      SumRealLowerBound(t, f, m);
      var n := |t| as real;
      assert SumReal(s, f) == f(s[0]) + SumReal(t, f);
      assert SumReal(t, f) >= m * n;
      assert |s| as real == n + 1.0;
      assert m * (n + 1.0) == m * n + m;
    }
  }
}
