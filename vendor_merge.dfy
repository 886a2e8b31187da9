/** The join both vendor reports perform: an insertion-ordered map keyed by vendor id is filled
    from purchase rows, then every invoice row either updates the entry already there or adds
    a new one. The entry types differ between the two reports, so the merge is stated once
    over the row and entry types. */
module VendorMerge {
  import opened Util

  /** The ids of `rows` under `key`, in row order. */
  function IdsOf<A>(rows: seq<A>, key: A -> string): (ids: seq<string>)
    ensures |ids| == |rows|
    ensures forall i :: 0 <= i < |rows| ==> ids[i] == key(rows[i])
  {
    seq(|rows|, i requires 0 <= i < |rows| => key(rows[i]))
  }

  lemma IdsOfSnoc<A>(rows: seq<A>, key: A -> string)
    requires rows != []
    ensures forall x :: x in IdsOf(rows, key) <==>
                        x in IdsOf(rows[..|rows| - 1], key) || x == key(rows[|rows| - 1])
  {
    assert IdsOf(rows, key) == IdsOf(rows[..|rows| - 1], key) + [key(rows[|rows| - 1])];
  }

  /** Every entry of `m` is stored under its own id. */
  ghost predicate KeyedBy<E>(m: seq<(string, E)>, idOf: E -> string) {
    forall i :: 0 <= i < |m| ==> idOf(m[i].1) == m[i].0
  }

  // ---------------------------------------------------------------------------------------
  // The two passes
  // ---------------------------------------------------------------------------------------

  /** `rows.forEach(r => map.set(key(r), make(r)))`. */
  function SetEach<A, E>(m: seq<(string, E)>, rows: seq<A>, key: A -> string, make: A -> E): seq<(string, E)>
  {
    if rows == [] then m
    else
      var a := rows[|rows| - 1];
      MapSet(SetEach(m, rows[..|rows| - 1], key, make), key(a), make(a))
  }

  /** One invoice row: the entry already stored under its id is updated, otherwise a new
      entry is created from the row. */
  function Upsert<B, E>(m: seq<(string, E)>, b: B, key: B -> string, update: (E, B) -> E, create: B -> E): seq<(string, E)> {
    match MapGet(m, key(b))
    case Some(e) => MapSet(m, key(b), update(e, b))
    case None => MapSet(m, key(b), create(b))
  }

  /** `rows.forEach(...)` with `Upsert` as the body. */
  function UpdateEach<B, E>(m: seq<(string, E)>, rows: seq<B>, key: B -> string, update: (E, B) -> E, create: B -> E): seq<(string, E)>
  {
    if rows == [] then m
    else Upsert(UpdateEach(m, rows[..|rows| - 1], key, update, create), rows[|rows| - 1], key, update, create)
  }

  // ---------------------------------------------------------------------------------------
  // The same passes seen from one vendor id
  // ---------------------------------------------------------------------------------------

  /** The last row with id `k`. */
  function LastWith<A>(rows: seq<A>, key: A -> string, k: string): (r: Option<A>)
    ensures r.None? <==> k !in IdsOf(rows, key)
    ensures r.Some? ==> r.value in rows && key(r.value) == k
  {
    if rows == [] then None
    else
      IdsOfSnoc(rows, key);
      if key(rows[|rows| - 1]) == k then Some(rows[|rows| - 1]) else LastWith(rows[..|rows| - 1], key, k)
  }

  /** The entry for `k`, starting from `start`, after the rows with id `k` have been applied in
      order and every other row skipped. */
  function Folded<B, E>(start: Option<E>, rows: seq<B>, key: B -> string, k: string, update: (E, B) -> E, create: B -> E): Option<E>
  {
    if rows == [] then start
    else
      var acc := Folded(start, rows[..|rows| - 1], key, k, update, create);
      var b := rows[|rows| - 1];
      if key(b) != k then acc
      else match acc
        case Some(e) => Some(update(e, b))
        case None => Some(create(b))
  }

  // ---------------------------------------------------------------------------------------
  // Keys
  // ---------------------------------------------------------------------------------------

  /** The first pass leaves one entry per id: the ids already there and those of the rows. */
  lemma {:induction false} SetEachKeys<A, E>(m: seq<(string, E)>, rows: seq<A>, key: A -> string, make: A -> E)
    requires NoDuplicates(Keys(m))
    ensures NoDuplicates(Keys(SetEach(m, rows, key, make)))
    ensures forall x :: x in Keys(SetEach(m, rows, key, make)) <==> x in Keys(m) || x in IdsOf(rows, key)
  {
    if rows != [] {
      var init := rows[..|rows| - 1];
      var a := rows[|rows| - 1];
      SetEachKeys(m, init, key, make);
      MapSetKeys(SetEach(m, init, key, make), key(a), make(a));
      IdsOfSnoc(rows, key);
    }
  }

  lemma UpsertKeys<B, E>(m: seq<(string, E)>, b: B, key: B -> string, update: (E, B) -> E, create: B -> E)
    requires NoDuplicates(Keys(m))
    ensures NoDuplicates(Keys(Upsert(m, b, key, update, create)))
    ensures forall x :: x in Keys(Upsert(m, b, key, update, create)) <==> x in Keys(m) || x == key(b)
  {
    match MapGet(m, key(b))
    case Some(e) => MapSetKeys(m, key(b), update(e, b));
    case None => MapSetKeys(m, key(b), create(b));
  }

  /** The second pass, likewise: one entry per id of the map or of the rows. */
  lemma {:induction false} UpdateEachKeys<B, E>(m: seq<(string, E)>, rows: seq<B>, key: B -> string, update: (E, B) -> E, create: B -> E)
    requires NoDuplicates(Keys(m))
    ensures NoDuplicates(Keys(UpdateEach(m, rows, key, update, create)))
    ensures forall x :: x in Keys(UpdateEach(m, rows, key, update, create)) <==> x in Keys(m) || x in IdsOf(rows, key)
  {
    if rows != [] {
      var init := rows[..|rows| - 1];
      UpdateEachKeys(m, init, key, update, create);
      UpsertKeys(UpdateEach(m, init, key, update, create), rows[|rows| - 1], key, update, create);
      IdsOfSnoc(rows, key);
    }
  }

  // ---------------------------------------------------------------------------------------
  // Values
  // ---------------------------------------------------------------------------------------

  /** After the first pass, the entry for `x` is made from the last row with that id, or is the
      one `m` already held. */
  lemma {:induction false} SetEachGet<A, E>(m: seq<(string, E)>, rows: seq<A>, key: A -> string, make: A -> E, x: string)
    requires NoDuplicates(Keys(m))
    ensures MapGet(SetEach(m, rows, key, make), x) ==
              match LastWith(rows, key, x)
              case Some(a) => Some(make(a))
              case None => MapGet(m, x)
  {
    if rows != [] {
      var init := rows[..|rows| - 1];
      var a := rows[|rows| - 1];
      SetEachGet(m, init, key, make, x);
      SetEachKeys(m, init, key, make);
      MapGetSet(SetEach(m, init, key, make), key(a), make(a), x);
    }
  }

  lemma UpsertGet<B, E>(m: seq<(string, E)>, b: B, key: B -> string, update: (E, B) -> E, create: B -> E, x: string)
    requires NoDuplicates(Keys(m))
    ensures MapGet(Upsert(m, b, key, update, create), x) ==
              if x != key(b) then MapGet(m, x)
              else match MapGet(m, x)
                case Some(e) => Some(update(e, b))
                case None => Some(create(b))
  {
    match MapGet(m, key(b))
    case Some(e) => MapGetSet(m, key(b), update(e, b), x);
    case None => MapGetSet(m, key(b), create(b), x);
  }

  /** After the second pass, the entry for `x` depends only on what `m` held for `x` and on the
      rows with id `x`, taken in order. */
  lemma {:induction false} UpdateEachGet<B, E>(m: seq<(string, E)>, rows: seq<B>, key: B -> string, update: (E, B) -> E, create: B -> E, x: string)
    requires NoDuplicates(Keys(m))
    ensures MapGet(UpdateEach(m, rows, key, update, create), x) == Folded(MapGet(m, x), rows, key, x, update, create)
  {
    if rows != [] {
      var init := rows[..|rows| - 1];
      UpdateEachGet(m, init, key, update, create, x);
      UpdateEachKeys(m, init, key, update, create);
      UpsertGet(UpdateEach(m, init, key, update, create), rows[|rows| - 1], key, update, create, x);
    }
  }

  /** Rows for other ids leave the entry for `k` as it was. */
  lemma {:induction false} FoldedUntouched<B, E>(start: Option<E>, rows: seq<B>, key: B -> string, k: string, update: (E, B) -> E, create: B -> E)
    requires k !in IdsOf(rows, key)
    ensures Folded(start, rows, key, k, update, create) == start
  {
    if rows != [] {
      IdsOfSnoc(rows, key);
      FoldedUntouched(start, rows[..|rows| - 1], key, k, update, create);
    }
  }

  /** A part of the entry that `update` never writes is `c` at the end when it was `c` at the
      start, or, with no entry at the start, when `create` sets it to `c`; an entry present at
      the start stays present. */
  lemma {:induction false} FoldedPreserves<B, E, X>(start: Option<E>, rows: seq<B>, key: B -> string, k: string, update: (E, B) -> E, create: B -> E, part: E -> X, c: X)
    requires forall e, b :: part(update(e, b)) == part(e)
    requires start.Some? ==> part(start.value) == c
    requires start.None? ==> forall b :: part(create(b)) == c
    ensures start.Some? ==> Folded(start, rows, key, k, update, create).Some?
    ensures Folded(start, rows, key, k, update, create).Some? ==> part(Folded(start, rows, key, k, update, create).value) == c
  {
    if rows != [] {
      FoldedPreserves(start, rows[..|rows| - 1], key, k, update, create, part, c);
    }
  }

  /** A part of the entry that `update` and `create` both set from the row alone ends up set
      from the last row with id `k`. */
  lemma {:induction false} FoldedLast<B, E, X>(start: Option<E>, rows: seq<B>, key: B -> string, k: string, update: (E, B) -> E, create: B -> E, part: E -> X, fromRow: B -> X)
    requires forall e, b :: part(update(e, b)) == fromRow(b)
    requires forall b :: part(create(b)) == fromRow(b)
    requires k in IdsOf(rows, key)
    ensures Folded(start, rows, key, k, update, create).Some?
    ensures part(Folded(start, rows, key, k, update, create).value) == fromRow(LastWith(rows, key, k).value)
  {
    IdsOfSnoc(rows, key);
    var init := rows[..|rows| - 1];
    if key(rows[|rows| - 1]) != k {
      FoldedLast(start, init, key, k, update, create, part, fromRow);
    }
  }

  /** A part that `create` sets and `update` keeps, for an id the map did not hold, is set from
      the first row with that id. */
  lemma {:induction false} FoldedFirst<B, E, X>(rows: seq<B>, key: B -> string, k: string, update: (E, B) -> E, create: B -> E, part: E -> X, i: nat)
    requires forall e, b :: part(update(e, b)) == part(e)
    requires i < |rows| && key(rows[i]) == k && k !in IdsOf(rows[..i], key)
    ensures Folded(None, rows, key, k, update, create).Some?
    ensures part(Folded(None, rows, key, k, update, create).value) == part(create(rows[i]))
  {
    var init := rows[..|rows| - 1];
    if i == |rows| - 1 {
      assert init == rows[..i];
      FoldedUntouched(None, init, key, k, update, create);
    } else {
      assert init[..i] == rows[..i];
      FoldedFirst(init, key, k, update, create, part, i);
    }
  }

  // ---------------------------------------------------------------------------------------
  // Entries stored under their own ids
  // ---------------------------------------------------------------------------------------

  lemma MapSetKeyed<E>(m: seq<(string, E)>, k: string, v: E, idOf: E -> string)
    requires KeyedBy(m, idOf) && idOf(v) == k
    ensures KeyedBy(MapSet(m, k, v), idOf)
  {
  }

  lemma MapGetKeyed<E>(m: seq<(string, E)>, k: string, idOf: E -> string)
    requires KeyedBy(m, idOf) && MapGet(m, k).Some?
    ensures idOf(MapGet(m, k).value) == k
  {
  }

  /** Entries made from rows carry the row's id, so the first pass keeps entries under their ids. */
  lemma {:induction false} SetEachKeyed<A, E>(m: seq<(string, E)>, rows: seq<A>, key: A -> string, make: A -> E, idOf: E -> string)
    requires KeyedBy(m, idOf)
    requires forall a :: idOf(make(a)) == key(a)
    ensures KeyedBy(SetEach(m, rows, key, make), idOf)
  {
    if rows != [] {
      var a := rows[|rows| - 1];
      SetEachKeyed(m, rows[..|rows| - 1], key, make, idOf);
      MapSetKeyed(SetEach(m, rows[..|rows| - 1], key, make), key(a), make(a), idOf);
    }
  }

  /** Updates keep an entry's id and new entries carry the row's, so the second pass keeps
      entries under their ids too. */
  lemma {:induction false} UpdateEachKeyed<B, E>(m: seq<(string, E)>, rows: seq<B>, key: B -> string, update: (E, B) -> E, create: B -> E, idOf: E -> string)
    requires KeyedBy(m, idOf)
    requires forall e, b :: idOf(update(e, b)) == idOf(e)
    requires forall b :: idOf(create(b)) == key(b)
    ensures KeyedBy(UpdateEach(m, rows, key, update, create), idOf)
  {
    if rows != [] {
      var acc := UpdateEach(m, rows[..|rows| - 1], key, update, create);
      var b := rows[|rows| - 1];
      UpdateEachKeyed(m, rows[..|rows| - 1], key, update, create, idOf);
      match MapGet(acc, key(b))
      case Some(e) =>
        MapGetKeyed(acc, key(b), idOf);
        MapSetKeyed(acc, key(b), update(e, b), idOf);
      case None =>
        MapSetKeyed(acc, key(b), create(b), idOf);
    }
  }

  /** The ids of the stored entries, in map order, are the map's keys. */
  lemma KeyedIds<E>(m: seq<(string, E)>, idOf: E -> string)
    requires KeyedBy(m, idOf)
    ensures IdsOf(MapValues(m), idOf) == Keys(m)
  {
  }

  /** Reordering rows keeps their set of ids, and keeps the ids distinct when they were. */
  lemma IdsOfPermutation<A>(a: seq<A>, b: seq<A>, key: A -> string)
    requires multiset(a) == multiset(b)
    ensures forall x :: x in IdsOf(a, key) <==> x in IdsOf(b, key)
    ensures NoDuplicates(IdsOf(a, key)) ==> NoDuplicates(IdsOf(b, key))
  {
    forall x | x in IdsOf(a, key) ensures x in IdsOf(b, key) {
      var i :| 0 <= i < |a| && key(a[i]) == x;
      assert a[i] in multiset(b);
      var j :| 0 <= j < |b| && b[j] == a[i];
      assert IdsOf(b, key)[j] == x;
    }
    forall x | x in IdsOf(b, key) ensures x in IdsOf(a, key) {
      var j :| 0 <= j < |b| && key(b[j]) == x;
      assert b[j] in multiset(a);
      var i :| 0 <= i < |a| && a[i] == b[j];
      assert IdsOf(a, key)[i] == x;
    }
    if NoDuplicates(IdsOf(a, key)) {
      assert NoDuplicates(a) by {
        forall p, q | 0 <= p < q < |a| ensures a[p] != a[q] {
          assert IdsOf(a, key)[p] != IdsOf(a, key)[q];
        }
      }
      PermutationNoDuplicates(a, b);
      forall i, j | 0 <= i < j < |b| ensures key(b[i]) != key(b[j]) {
        assert b[i] in multiset(a) && b[j] in multiset(a);
        var p :| 0 <= p < |a| && a[p] == b[i];
        var q :| 0 <= q < |a| && a[q] == b[j];
        if p < q {
          assert IdsOf(a, key)[p] != IdsOf(a, key)[q];
        } else if q < p {
          assert IdsOf(a, key)[q] != IdsOf(a, key)[p];
        }
      }
    }
  }

  // ---------------------------------------------------------------------------------------
  // Totals over the entries
  // ---------------------------------------------------------------------------------------

  /** How setting one key changes a total over the map's entries. */
  lemma MapSetSum<E>(m: seq<(string, E)>, k: string, v: E, f: E -> real)
    ensures MapGet(m, k).Some? ==>
              Sum(MapValues(MapSet(m, k, v)), f) == Sum(MapValues(m), f) - f(MapGet(m, k).value) + f(v)
    ensures MapGet(m, k).None? ==> Sum(MapValues(MapSet(m, k, v)), f) == Sum(MapValues(m), f) + f(v)
  {
    match FindKey(m, k)
    case Some(j) =>
      assert MapValues(MapSet(m, k, v)) == MapValues(m)[j := v];
      SumUpdate(MapValues(m), j, v, f);
    case None =>
      assert MapValues(MapSet(m, k, v)) == MapValues(m) + [v];
      SumSnoc(MapValues(m), v, f);
  }

  /** With distinct row ids, the first pass adds one entry per row, so a total over the new
      entries is the total over the rows. */
  lemma {:induction false} SetEachSum<A, E>(rows: seq<A>, key: A -> string, make: A -> E, f: E -> real, g: A -> real)
    requires NoDuplicates(IdsOf(rows, key))
    requires forall a :: f(make(a)) == g(a)
    ensures Sum(MapValues(SetEach([], rows, key, make)), f) == Sum(rows, g)
  {
    if rows != [] {
      var init := rows[..|rows| - 1];
      var a := rows[|rows| - 1];
      assert IdsOf(init, key) == IdsOf(rows, key)[..|rows| - 1];
      SetEachSum(init, key, make, f, g);
      SetEachKeys([], init, key, make);
      SetEachGet([], init, key, make, key(a));
      assert key(a) !in IdsOf(init, key) by {
        forall i | 0 <= i < |init| ensures IdsOf(init, key)[i] != key(a) {
          assert IdsOf(rows, key)[i] != IdsOf(rows, key)[|rows| - 1];
        }
      }
      MapSetSum(SetEach([], init, key, make), key(a), make(a), f);
    }
  }

  /** A part every made entry contributes nothing to stays at nothing over the first pass. */
  lemma {:induction false} SetEachZero<A, E>(m: seq<(string, E)>, rows: seq<A>, key: A -> string, make: A -> E, f: E -> real)
    requires forall i :: 0 <= i < |m| ==> f(m[i].1) == 0.0
    requires forall a :: f(make(a)) == 0.0
    ensures forall i :: 0 <= i < |SetEach(m, rows, key, make)| ==> f(SetEach(m, rows, key, make)[i].1) == 0.0
  {
    if rows != [] {
      SetEachZero(m, rows[..|rows| - 1], key, make, f);
    }
  }

  /** A total that `update` keeps and `create` adds nothing to is not changed by the second
      pass. */
  lemma {:induction false} UpdateEachSumKept<B, E>(m: seq<(string, E)>, rows: seq<B>, key: B -> string, update: (E, B) -> E, create: B -> E, f: E -> real)
    requires forall e, b :: f(update(e, b)) == f(e)
    requires forall b :: f(create(b)) == 0.0
    ensures Sum(MapValues(UpdateEach(m, rows, key, update, create)), f) == Sum(MapValues(m), f)
  {
    if rows != [] {
      var acc := UpdateEach(m, rows[..|rows| - 1], key, update, create);
      var b := rows[|rows| - 1];
      UpdateEachSumKept(m, rows[..|rows| - 1], key, update, create, f);
      match MapGet(acc, key(b))
      case Some(e) => MapSetSum(acc, key(b), update(e, b), f);
      case None => MapSetSum(acc, key(b), create(b), f);
    }
  }

  /** A total that `update` and `create` both set from the row: with distinct row ids, and
      nothing counted yet for the ids of the rows, the second pass adds the rows' total. */
  lemma {:induction false} UpdateEachSumReplaced<B, E>(m: seq<(string, E)>, rows: seq<B>, key: B -> string, update: (E, B) -> E, create: B -> E, f: E -> real, g: B -> real)
    requires NoDuplicates(Keys(m)) && NoDuplicates(IdsOf(rows, key))
    requires forall i :: 0 <= i < |m| ==> f(m[i].1) == 0.0
    requires forall e, b :: f(update(e, b)) == g(b)
    requires forall b :: f(create(b)) == g(b)
    ensures Sum(MapValues(UpdateEach(m, rows, key, update, create)), f) == Sum(MapValues(m), f) + Sum(rows, g)
  {
    if rows != [] {
      var init := rows[..|rows| - 1];
      var b := rows[|rows| - 1];
      var k := key(b);
      assert IdsOf(init, key) == IdsOf(rows, key)[..|rows| - 1];
      UpdateEachSumReplaced(m, init, key, update, create, f, g);
      var acc := UpdateEach(m, init, key, update, create);
      assert k !in IdsOf(init, key) by {
        forall i | 0 <= i < |init| ensures IdsOf(init, key)[i] != k {
          assert IdsOf(rows, key)[i] != IdsOf(rows, key)[|rows| - 1];
        }
      }
      UpdateEachGet(m, init, key, update, create, k);
      FoldedUntouched(MapGet(m, k), init, key, k, update, create);
      match MapGet(acc, k)
      case Some(e) =>
        assert f(e) == 0.0 by {
          var j := FindKey(m, k).value;
          assert e == m[j].1;
        }
        MapSetSum(acc, k, update(e, b), f);
      case None =>
        MapSetSum(acc, k, create(b), f);
    }
  }
}
