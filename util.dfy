/** Small building blocks shared by the procurement rule engine model: optional values, error
    results, the clock reading that stands for `new Date()`, and the handful of JavaScript array
    and Map operations the source relies on (`[...new Set(xs)]`, `slice`, `splice`, `Map.set`,
    a stable `sort`, `Math.ceil` of a quotient). */
module Util {

  datatype Option<+T> = None | Some(value: T) {
    function GetOr(default: T): T {
      if Some? then value else default
    }
  }

  datatype Result<+T> = Ok(value: T) | Err(error: string)

  /** One reading of the wall clock: milliseconds since the epoch and the ISO-8601 text that
      `toISOString()` gives for it. */
  datatype Clock = Clock(millis: int, iso: string)

  // ---------------------------------------------------------------------------------------
  // Distinct elements (`[...new Set(xs)]`)
  // ---------------------------------------------------------------------------------------

  predicate NoDuplicates<T(==)>(xs: seq<T>) {
    forall i, j :: 0 <= i < j < |xs| ==> xs[i] != xs[j]
  }

  /** The distinct elements of `xs`, each at the position of its first occurrence. */
  function Dedup<T(==)>(xs: seq<T>): (r: seq<T>)
    ensures NoDuplicates(r)
    ensures forall i :: 0 <= i < |xs| ==> xs[i] in r
    ensures forall i :: 0 <= i < |r| ==> r[i] in xs
    ensures |r| <= |xs|
  {
    if xs == [] then []
    else
      var d := Dedup(xs[..|xs| - 1]);
      var last := xs[|xs| - 1];
      assert xs == xs[..|xs| - 1] + [last];
      if last in d then d else d + [last]
  }

  /** Adding elements that already occur does not change the distinct list; this is why
      `Dedup` keeps first occurrences. */
  lemma {:induction false} DedupFirstOccurrence<T>(xs: seq<T>, ys: seq<T>)
    requires forall y :: y in ys ==> y in xs
    ensures Dedup(xs + ys) == Dedup(xs)
    decreases |ys|
  {
    if ys != [] {
      var zs := xs + ys[..|ys| - 1];
      assert (xs + ys)[..|xs + ys| - 1] == zs;
      DedupFirstOccurrence(xs, ys[..|ys| - 1]);
      assert ys[|ys| - 1] in xs;
    } else {
      assert xs + ys == xs;
    }
  }

  /** A list without duplicates is its own distinct list. */
  lemma {:induction false} DedupOfDistinct<T>(xs: seq<T>)
    requires NoDuplicates(xs)
    ensures Dedup(xs) == xs
  {
    if xs != [] {
      var init := xs[..|xs| - 1];
      DedupOfDistinct(init);
      assert xs[|xs| - 1] !in init by {
        forall k | 0 <= k < |init| ensures init[k] != xs[|xs| - 1] {
          assert init[k] == xs[k];
        }
      }
      assert xs == init + [xs[|xs| - 1]];
    }
  }

  /** An element occurs at most once in a list without duplicates. */
  lemma {:induction false} NoDuplicatesCount<T>(xs: seq<T>, x: T)
    requires NoDuplicates(xs)
    ensures multiset(xs)[x] <= 1
  {
    if xs != [] {
      var init := xs[..|xs| - 1];
      assert xs == init + [xs[|xs| - 1]];
      NoDuplicatesCount(init, x);
      if x == xs[|xs| - 1] {
        assert forall k :: 0 <= k < |init| ==> init[k] != x by {
          forall k | 0 <= k < |init| ensures init[k] != x {
            assert init[k] == xs[k];
          }
        }
      }
    }
  }

  lemma TwoOccurrences<T>(xs: seq<T>, i: nat, j: nat)
    requires i < j < |xs| && xs[i] == xs[j]
    ensures multiset(xs)[xs[i]] >= 2
  {
    assert xs == xs[..j] + xs[j..];
    assert xs[i] == xs[..j][i];
    assert xs[j] == xs[j..][0];
  }

  /** A permutation of a list without duplicates has none either. */
  lemma PermutationNoDuplicates<T>(a: seq<T>, b: seq<T>)
    requires multiset(a) == multiset(b) && NoDuplicates(a)
    ensures NoDuplicates(b)
  {
    forall i, j | 0 <= i < j < |b| ensures b[i] != b[j] {
      if b[i] == b[j] {
        TwoOccurrences(b, i, j);
        NoDuplicatesCount(a, b[i]);
      }
    }
  }

  // ---------------------------------------------------------------------------------------
  // Array.prototype.slice and splice, and the history cap
  // ---------------------------------------------------------------------------------------

  /** Extending a prefix by the next element. */
  lemma PrefixSnoc<T>(xs: seq<T>, i: nat)
    requires i < |xs|
    ensures xs[..i + 1] == xs[..i] + [xs[i]]
  {
  }

  /** The prefix of full length is the whole sequence. */
  lemma PrefixAll<T>(xs: seq<T>)
    ensures xs[..|xs|] == xs
  {
  }

  /** How `slice` normalises an index: negative counts from the end, then clamp to [0, len]. */
  function SliceIndex(i: int, len: nat): (k: nat)
    ensures k <= len
  {
    if i < 0 then (if len + i < 0 then 0 else len + i)
    else if i > len then len
    else i
  }

  /** `xs.slice(start, end)`. */
  function JsSlice<T>(xs: seq<T>, start: int, end: int): (r: seq<T>)
    ensures |r| <= |xs|
  {
    var s, e := SliceIndex(start, |xs|), SliceIndex(end, |xs|);
    if s < e then xs[s..e] else []
  }

  /** For a window starting at a non-negative index, `slice` returns exactly the elements of
      that window that exist, so it never returns more than the window's width. */
  lemma JsSliceWindow<T>(xs: seq<T>, start: int, width: int)
    requires 0 <= start && 0 <= width
    ensures var r := JsSlice(xs, start, start + width);
            |r| <= width
            && (start >= |xs| ==> r == [])
            && (start < |xs| ==> r == xs[start..if start + width < |xs| then start + width else |xs|])
  {
  }

  /** The last `n` elements when there are more than `n`, as `xs.slice(-n)` after a length test. */
  function KeepLast<T>(xs: seq<T>, n: nat): (r: seq<T>)
    requires n > 0
    ensures |r| == if |xs| < n then |xs| else n
    ensures r == xs[|xs| - |r|..]
  {
    if |xs| > n then xs[|xs| - n..] else xs
  }

  /** `xs.splice(i, 1)`: the element at `i` is removed and the others keep their order. */
  function RemoveAt<T>(xs: seq<T>, i: nat): (r: seq<T>)
    requires i < |xs|
    ensures |r| == |xs| - 1
    ensures forall k :: 0 <= k < i ==> r[k] == xs[k]
    ensures forall k :: i <= k < |r| ==> r[k] == xs[k + 1]
    ensures multiset(r) + multiset{xs[i]} == multiset(xs)
  {
    assert xs == xs[..i] + [xs[i]] + xs[i + 1..];
    xs[..i] + xs[i + 1..]
  }

  // ---------------------------------------------------------------------------------------
  // Math.ceil(a / b)
  // ---------------------------------------------------------------------------------------

  /** `Math.ceil(a / b)` for a non-zero integer divisor. */
  function CeilDiv(a: int, b: int): (q: int)
    requires b != 0
    ensures b > 0 ==> (q - 1) * b < a <= q * b
    ensures b < 0 ==> q * b <= a < (q - 1) * b
  {
    if b > 0 then CeilDivPos(a, b)
    else
      var q := CeilDivPos(-a, -b);
      assert (q - 1) * (-b) == -((q - 1) * b) && q * (-b) == -(q * b);
      q
  }

  function CeilDivPos(a: int, b: int): (q: int)
    requires b > 0
    ensures (q - 1) * b < a <= q * b
  {
    var f := (-a) / b;
    assert f * b <= -a < f * b + b by {
      var r := (-a) % b;
      assert -a == f * b + r && 0 <= r < b;
    }
    -f
  }

  // ---------------------------------------------------------------------------------------
  // An insertion-ordered map (JavaScript `Map`) as a list of (key, value) pairs
  // ---------------------------------------------------------------------------------------

  function Keys<K, V>(m: seq<(K, V)>): (ks: seq<K>)
    ensures |ks| == |m|
    ensures forall i :: 0 <= i < |m| ==> ks[i] == m[i].0
  {
    seq(|m|, i requires 0 <= i < |m| => m[i].0)
  }

  /** Position of key `k`, if present. */
  function FindKey<K(==), V>(m: seq<(K, V)>, k: K): (r: Option<nat>)
    ensures r.Some? ==> r.value < |m| && m[r.value].0 == k
    ensures r.None? <==> forall i :: 0 <= i < |m| ==> m[i].0 != k
    ensures r.Some? ==> forall i :: 0 <= i < r.value ==> m[i].0 != k
  {
    if m == [] then None
    else if m[0].0 == k then Some(0)
    else match FindKey(m[1..], k)
      case None => None
      case Some(i) => Some(i + 1)
  }

  /** `m.get(k)`. */
  function MapGet<K(==), V>(m: seq<(K, V)>, k: K): Option<V> {
    match FindKey(m, k)
    case None => None
    case Some(i) => Some(m[i].1)
  }

  /** With distinct keys, the entry at position `i` is what its key looks up. */
  lemma MapGetAt<K, V>(m: seq<(K, V)>, i: nat)
    requires NoDuplicates(Keys(m)) && i < |m|
    ensures MapGet(m, m[i].0) == Some(m[i].1)
  {
    var j := FindKey(m, m[i].0).value;
    assert Keys(m)[j] == Keys(m)[i];
  }

  /** `m.set(k, v)`: an existing key keeps its place and gets the new value, a new key goes last. */
  function MapSet<K(==), V>(m: seq<(K, V)>, k: K, v: V): (r: seq<(K, V)>)
    ensures FindKey(m, k).Some? ==> r == m[FindKey(m, k).value := (k, v)]
    ensures FindKey(m, k).None? ==> r == m + [(k, v)]
  {
    match FindKey(m, k)
    case None => m + [(k, v)]
    case Some(i) => m[i := (k, v)]
  }

  lemma MapSetKeys<K, V>(m: seq<(K, V)>, k: K, v: V)
    requires NoDuplicates(Keys(m))
    ensures NoDuplicates(Keys(MapSet(m, k, v)))
    ensures forall x :: x in Keys(MapSet(m, k, v)) <==> x in Keys(m) || x == k
  {
    var r := MapSet(m, k, v);
    match FindKey(m, k)
    case None =>
      assert forall x :: x in Keys(r) <==> x in Keys(m) || x == k by {
        forall x ensures x in Keys(r) <==> x in Keys(m) || x == k {
          if x in Keys(r) {
            var i :| 0 <= i < |r| && Keys(r)[i] == x;
            if i < |m| { assert Keys(m)[i] == x; }
          }
          if x in Keys(m) {
            var i :| 0 <= i < |m| && Keys(m)[i] == x;
            assert Keys(r)[i] == x;
          }
          if x == k { assert Keys(r)[|m|] == k; }
        }
      }
    case Some(j) =>
      assert forall x :: x in Keys(r) <==> x in Keys(m) || x == k by {
        forall x ensures x in Keys(r) <==> x in Keys(m) || x == k {
          if x in Keys(r) {
            var i :| 0 <= i < |r| && Keys(r)[i] == x;
            assert Keys(m)[i] == x;
          }
          if x in Keys(m) {
            var i :| 0 <= i < |m| && Keys(m)[i] == x;
            assert Keys(r)[i] == x;
          }
        }
      }
  }

  lemma MapGetSet<K, V>(m: seq<(K, V)>, k: K, v: V, x: K)
    ensures MapGet(MapSet(m, k, v), x) == if x == k then Some(v) else MapGet(m, x)
  {
    if FindKey(m, k).None? {
      MapGetSetNew(m, k, v, x);
    } else {
      MapGetSetExisting(m, k, v, x);
    }
  }

  /** The first entry with key `x` is the one `FindKey` finds. */
  lemma FindKeyFirst<K, V>(r: seq<(K, V)>, x: K, j: nat)
    requires j < |r| && r[j].0 == x
    requires forall i :: 0 <= i < j ==> r[i].0 != x
    ensures FindKey(r, x) == Some(j)
  {
    var f := FindKey(r, x);
    assert f.Some?;
    assert !(f.value < j) && !(j < f.value);
  }

  lemma MapGetSetNew<K, V>(m: seq<(K, V)>, k: K, v: V, x: K)
    requires FindKey(m, k).None?
    ensures MapGet(MapSet(m, k, v), x) == if x == k then Some(v) else MapGet(m, x)
  {
    var r := MapSet(m, k, v);
    assert r == m + [(k, v)];
    if x == k {
      assert forall i :: 0 <= i < |m| ==> r[i].0 != x by {
        forall i | 0 <= i < |m| ensures r[i].0 != x { assert r[i] == m[i]; }
      }
      FindKeyFirst(r, x, |m|);
    } else if FindKey(m, x).None? {
      assert forall i :: 0 <= i < |r| ==> r[i].0 != x by {
        forall i | 0 <= i < |r| ensures r[i].0 != x {
          if i < |m| { assert r[i] == m[i]; }
        }
      }
    } else {
      var j := FindKey(m, x).value;
      assert r[j] == m[j];
      assert forall i :: 0 <= i < j ==> r[i].0 != x by {
        forall i | 0 <= i < j ensures r[i].0 != x { assert r[i] == m[i]; }
      }
      FindKeyFirst(r, x, j);
    }
  }

  lemma MapGetSetExisting<K, V>(m: seq<(K, V)>, k: K, v: V, x: K)
    requires FindKey(m, k).Some?
    ensures MapGet(MapSet(m, k, v), x) == if x == k then Some(v) else MapGet(m, x)
  {
    var r := MapSet(m, k, v);
    var j := FindKey(m, k).value;
    assert r == m[j := (k, v)];
    if x == k {
      assert forall i :: 0 <= i < j ==> r[i].0 != x by {
        forall i | 0 <= i < j ensures r[i].0 != x { assert r[i] == m[i]; }
      }
      FindKeyFirst(r, x, j);
    } else if FindKey(m, x).None? {
      assert forall i :: 0 <= i < |r| ==> r[i].0 != x by {
        forall i | 0 <= i < |r| ensures r[i].0 != x {
          if i != j { assert r[i] == m[i]; }
        }
      }
    } else {
      var l := FindKey(m, x).value;
      assert r[l] == m[l];
      assert forall i :: 0 <= i < l ==> r[i].0 != x by {
        forall i | 0 <= i < l ensures r[i].0 != x {
          if i != j { assert r[i] == m[i]; }
        }
      }
      FindKeyFirst(r, x, l);
    }
  }

  function MapValues<K, V>(m: seq<(K, V)>): (vs: seq<V>)
    ensures |vs| == |m|
    ensures forall i :: 0 <= i < |m| ==> vs[i] == m[i].1
  {
    seq(|m|, i requires 0 <= i < |m| => m[i].1)
  }

  // ---------------------------------------------------------------------------------------
  // A stable sort in descending order of a numeric key (`xs.sort((a, b) => key(b) - key(a))`)
  // ---------------------------------------------------------------------------------------

  ghost predicate SortedDesc<T>(s: seq<T>, key: T -> real) {
    forall i, j :: 0 <= i < j < |s| ==> key(s[i]) >= key(s[j])
  }

  /** Inserts `x` after every element whose key is at least `x`'s, so that among equal keys the
      element that came later in the input stays later. */
  function InsertDesc<T>(s: seq<T>, x: T, key: T -> real): (r: seq<T>)
    ensures multiset(r) == multiset(s) + multiset{x}
    ensures |r| == |s| + 1
  {
    if s == [] then [x]
    else if key(s[0]) >= key(x) then
      assert s == [s[0]] + s[1..];
      [s[0]] + InsertDesc(s[1..], x, key)
    else [x] + s
  }

  lemma {:induction false} InsertDescBounded<T>(s: seq<T>, x: T, key: T -> real, bound: real)
    requires forall i :: 0 <= i < |s| ==> key(s[i]) <= bound
    requires key(x) <= bound
    ensures forall i :: 0 <= i < |InsertDesc(s, x, key)| ==> key(InsertDesc(s, x, key)[i]) <= bound
  {
    if s != [] && key(s[0]) >= key(x) {
      InsertDescBounded(s[1..], x, key, bound);
    }
  }

  lemma {:induction false} InsertDescSorted<T>(s: seq<T>, x: T, key: T -> real)
    requires SortedDesc(s, key)
    ensures SortedDesc(InsertDesc(s, x, key), key)
  {
    if s != [] && key(s[0]) >= key(x) {
      var rest := InsertDesc(s[1..], x, key);
      InsertDescSorted(s[1..], x, key);
      InsertDescBounded(s[1..], x, key, key(s[0]));
      var r := [s[0]] + rest;
      forall i, j | 0 <= i < j < |r| ensures key(r[i]) >= key(r[j]) {
        if i == 0 { assert r[j] == rest[j - 1]; } else { assert r[i] == rest[i - 1] && r[j] == rest[j - 1]; }
      }
    }
  }

  function SortDescBy<T>(xs: seq<T>, key: T -> real): (r: seq<T>)
    ensures multiset(r) == multiset(xs)
    ensures |r| == |xs|
  {
    if xs == [] then []
    else
      assert xs == xs[..|xs| - 1] + [xs[|xs| - 1]];
      InsertDesc(SortDescBy(xs[..|xs| - 1], key), xs[|xs| - 1], key)
  }

  /** The sort's result is in descending key order (and, by its contract, a permutation). */
  lemma {:induction false} SortDescBySorted<T>(xs: seq<T>, key: T -> real)
    ensures SortedDesc(SortDescBy(xs, key), key)
  {
    if xs != [] {
      SortDescBySorted(xs[..|xs| - 1], key);
      InsertDescSorted(SortDescBy(xs[..|xs| - 1], key), xs[|xs| - 1], key);
    }
  }

  /** A window of the sorted list is sorted and holds only elements of the input. */
  lemma SortedWindow<T>(xs: seq<T>, key: T -> real, s: nat, e: nat)
    requires s <= e <= |xs|
    ensures SortedDesc(SortDescBy(xs, key)[s..e], key)
    ensures forall x :: x in SortDescBy(xs, key)[s..e] ==> x in xs
  {
    SortedWindowOrder(xs, key, s, e);
    SortedWindowMembers(xs, key, s, e);
  }

  lemma SortedWindowOrder<T>(xs: seq<T>, key: T -> real, s: nat, e: nat)
    requires s <= e <= |xs|
    ensures SortedDesc(SortDescBy(xs, key)[s..e], key)
  {
    SortDescBySorted(xs, key);
    SortedSlice(SortDescBy(xs, key), key, s, e);
  }

  /** Any window of a list sorted newest first is sorted newest first. */
  lemma SortedSlice<T>(xs: seq<T>, key: T -> real, s: nat, e: nat)
    requires s <= e <= |xs| && SortedDesc(xs, key)
    ensures SortedDesc(xs[s..e], key)
  {
    var w := xs[s..e];
    forall i, j | 0 <= i < j < |w| ensures key(w[i]) >= key(w[j]) {
      assert w[i] == xs[s + i] && w[j] == xs[s + j];
    }
  }

  lemma SortedWindowMembers<T>(xs: seq<T>, key: T -> real, s: nat, e: nat)
    requires s <= e <= |xs|
    ensures forall x :: x in SortDescBy(xs, key)[s..e] ==> x in xs
  {
    var sorted := SortDescBy(xs, key);
    var w := sorted[s..e];
    forall x | x in w ensures x in xs {
      var k :| 0 <= k < |w| && w[k] == x;
      assert sorted[s + k] == x;
      assert x in multiset(sorted);
      assert x in multiset(xs);
    }
  }

  /** Sum of a numeric field over a list (`xs.reduce((s, x) => s + f(x), 0)`). */
  function Sum<T>(xs: seq<T>, f: T -> real): real {
    if xs == [] then 0.0 else Sum(xs[..|xs| - 1], f) + f(xs[|xs| - 1])
  }

  lemma SumSnoc<T>(xs: seq<T>, x: T, f: T -> real)
    ensures Sum(xs + [x], f) == Sum(xs, f) + f(x)
  {
    assert (xs + [x])[..|xs|] == xs;
  }

  /** Summing a list whose every element contributes nothing gives 0. */
  lemma {:induction false} SumAllZero<T>(xs: seq<T>, f: T -> real)
    requires forall i :: 0 <= i < |xs| ==> f(xs[i]) == 0.0
    ensures Sum(xs, f) == 0.0
  {
    if xs != [] {
      SumAllZero(xs[..|xs| - 1], f);
    }
  }

  /** Two lists that agree position by position under `f` and `g` have the same sums. */
  lemma {:induction false} SumPointwise<A, B>(xs: seq<A>, f: A -> real, ys: seq<B>, g: B -> real)
    requires |xs| == |ys|
    requires forall i :: 0 <= i < |xs| ==> f(xs[i]) == g(ys[i])
    ensures Sum(xs, f) == Sum(ys, g)
  {
    if xs != [] {
      SumPointwise(xs[..|xs| - 1], f, ys[..|ys| - 1], g);
    }
  }

  /** Replacing one element changes the sum by the difference of the two contributions. */
  lemma {:induction false} SumUpdate<T>(xs: seq<T>, j: nat, v: T, f: T -> real)
    requires j < |xs|
    ensures Sum(xs[j := v], f) == Sum(xs, f) - f(xs[j]) + f(v)
  {
    var n := |xs| - 1;
    if j == n {
      assert xs[j := v][..n] == xs[..n];
    } else {
      assert xs[j := v][..n] == xs[..n][j := v];
      SumUpdate(xs[..n], j, v, f);
    }
  }

  /** Removing before the last element keeps the last element last. */
  lemma RemoveAtSnoc<T>(xs: seq<T>, j: nat)
    requires j < |xs| - 1
    ensures RemoveAt(xs, j) == RemoveAt(xs[..|xs| - 1], j) + [xs[|xs| - 1]]
  {
    var n := |xs| - 1;
    var a := RemoveAt(xs, j);
    var b := RemoveAt(xs[..n], j) + [xs[n]];
    assert |a| == |b|;
    forall k | 0 <= k < |a| ensures a[k] == b[k] {
      if k < j {
        assert a[k] == xs[k];
      } else if k < |a| - 1 {
        assert a[k] == xs[k + 1] && b[k] == xs[..n][k + 1];
      }
    }
  }

  /** Taking one element out removes exactly its contribution. */
  lemma {:induction false} SumRemoveAt<T>(xs: seq<T>, j: nat, f: T -> real)
    requires j < |xs|
    ensures Sum(RemoveAt(xs, j), f) == Sum(xs, f) - f(xs[j])
  {
    var n := |xs| - 1;
    if j == n {
      assert RemoveAt(xs, j) == xs[..n];
    } else {
      RemoveAtSnoc(xs, j);
      SumRemoveAt(xs[..n], j, f);
      SumSnoc(RemoveAt(xs[..n], j), xs[n], f);
    }
  }

  /** The sum does not depend on the order of the elements. */
  lemma {:induction false} SumPermutation<T>(xs: seq<T>, ys: seq<T>, f: T -> real)
    requires multiset(xs) == multiset(ys)
    ensures Sum(xs, f) == Sum(ys, f)
    decreases |xs|
  {
    if xs != [] {
      var n := |xs| - 1;
      var x := xs[n];
      assert xs == xs[..n] + [x];
      assert x in multiset(ys);
      var j :| 0 <= j < |ys| && ys[j] == x;
      var rest := RemoveAt(ys, j);
      assert multiset(xs) == multiset(xs[..n]) + multiset{x};
      assert multiset(rest) + multiset{x} == multiset(xs[..n]) + multiset{x};
      assert multiset(xs[..n]) == multiset(rest) by {
        assert multiset(rest) == (multiset(rest) + multiset{x}) - multiset{x};
        assert multiset(xs[..n]) == (multiset(xs[..n]) + multiset{x}) - multiset{x};
      }
      SumPermutation(xs[..n], rest, f);
      SumRemoveAt(ys, j, f);
    } else {
      assert |ys| == |multiset(ys)| == 0;
    }
  }
}
