/** The JavaScript values a procurement record or a rule's expected value can hold, and the
    parts of JavaScript's semantics the rule engine leans on: truthiness, `String(x)`,
    `Number(x)`, `===`, the SameValueZero test of `Array.prototype.includes`, substring
    search, property access and the dot-path walk of `getNestedValue`. */
module Values {
  import opened Util

  /** `Arr` and `Obj` stand for arrays and plain objects; numbers are integers in this model. */
  datatype Value =
    | Undefined
    | Null
    | Bool(b: bool)
    | Num(n: int)
    | NaN
    | Str(s: string)
    | Arr(items: seq<Value>)
    | Obj(fields: map<string, Value>)

  /** A procurement record: a plain object. */
  type Record = map<string, Value>

  /** `!!v`: the falsy values are undefined, null, false, 0, NaN and the empty string. */
  predicate IsTruthy(v: Value) {
    match v
    case Undefined => false
    case Null => false
    case Bool(b) => b
    case Num(n) => n != 0
    case NaN => false
    case Str(s) => s != ""
    case Arr(_) => true
    case Obj(_) => true
  }

  /** `a || b` where `b` is only used when `a` is falsy. */
  function OrElse(a: Value, b: Value): (r: Value)
    ensures IsTruthy(a) ==> r == a
    ensures !IsTruthy(a) ==> r == b
  {
    if IsTruthy(a) then a else b
  }

  // ---------------------------------------------------------------------------------------
  // Decimal text of integers, and its inverse
  // ---------------------------------------------------------------------------------------

  predicate IsDigit(c: char) {
    '0' <= c <= '9'
  }

  predicate AllDigits(s: string) {
    forall i :: 0 <= i < |s| ==> IsDigit(s[i])
  }

  function DigitChar(d: nat): (c: char)
    requires d < 10
    ensures IsDigit(c) && c as int - '0' as int == d
  {
    ('0' as int + d) as char
  }

  function NatToString(n: nat): (s: string)
    ensures |s| >= 1 && AllDigits(s)
  {
    if n < 10 then [DigitChar(n)] else NatToString(n / 10) + [DigitChar(n % 10)]
  }

  /** `String(n)` for an integer. */
  function IntToString(n: int): string {
    if n < 0 then "-" + NatToString(-n) else NatToString(n)
  }

  function ParseDigits(s: string): nat
    requires AllDigits(s)
  {
    if s == [] then 0
    else ParseDigits(s[..|s| - 1]) * 10 + (s[|s| - 1] as int - '0' as int)
  }

  lemma {:induction false} ParseNatToString(n: nat)
    ensures ParseDigits(NatToString(n)) == n
  {
    if n >= 10 {
      var s := NatToString(n);
      assert s[..|s| - 1] == NatToString(n / 10);
      ParseNatToString(n / 10);
    }
  }

  /** `Number(s)` for text: the empty string is 0, an optionally negated run of decimal digits
      is its value, and anything else is NaN (`None`). */
  function StringToNumber(s: string): Option<int> {
    if s == "" then Some(0)
    else if s[0] == '-' && |s| > 1 && AllDigits(s[1..]) then Some(0 - ParseDigits(s[1..]) as int)
    else if AllDigits(s) then Some(ParseDigits(s))
    else None
  }

  /** Printing an integer and reading it back gives the integer. */
  lemma NumberOfString(n: int)
    ensures StringToNumber(IntToString(n)) == Some(n)
  {
    if n < 0 {
      var s := IntToString(n);
      assert s[1..] == NatToString(-n);
      ParseNatToString(-n);
    } else {
      ParseNatToString(n);
    }
  }

  /** An array index key: canonical decimal text of a natural number. */
  function ArrayIndex(key: string): (r: Option<nat>)
    ensures r.Some? ==> IntToString(r.value) == key
  {
    if key != "" && AllDigits(key) && (|key| == 1 || key[0] != '0') then
      CanonicalDigits(key);
      Some(ParseDigits(key))
    else None
  }

  lemma {:induction false} CanonicalDigits(s: string)
    requires s != "" && AllDigits(s) && (|s| == 1 || s[0] != '0')
    ensures NatToString(ParseDigits(s)) == s
    decreases |s|
  {
    var n := ParseDigits(s);
    var init := s[..|s| - 1];
    var d := s[|s| - 1] as int - '0' as int;
    if |s| > 1 {
      assert init[0] == s[0];
      CanonicalDigits(init);
      var m := ParseDigits(init);
      assert n == m * 10 + d && 0 <= d < 10;
      assert n / 10 == m && n % 10 == d;
      assert [DigitChar(d)] == [s[|s| - 1]];
      assert s == init + [s[|s| - 1]];
    } else {
      assert ParseDigits(init) == 0;
      assert n == d;
    }
  }

  // ---------------------------------------------------------------------------------------
  // String(v) and Number(v)
  // ---------------------------------------------------------------------------------------

  /** `JoinWith(parts, sep)` is `parts.join(sep)`. */
  function JoinWith(parts: seq<string>, sep: string): string {
    if |parts| == 0 then ""
    else if |parts| == 1 then parts[0]
    else JoinWith(parts[..|parts| - 1], sep) + sep + parts[|parts| - 1]
  }

  /** `String(v)`. An array prints as its elements joined by commas, with `undefined` and
      `null` elements printed as nothing; a plain object prints as "[object Object]". */
  function ToStr(v: Value): string
    decreases v
  {
    match v
    case Undefined => "undefined"
    case Null => "null"
    case Bool(b) => if b then "true" else "false"
    case Num(n) => IntToString(n)
    case NaN => "NaN"
    case Str(s) => s
    case Arr(items) =>
      JoinWith(seq(|items|, i requires 0 <= i < |items| =>
                   if items[i].Undefined? || items[i].Null? then "" else ToStr(items[i])), ",")
    case Obj(_) => "[object Object]"
  }

  /** `Number(v)`; `None` stands for NaN. Arrays and objects convert through their text. */
  function ToNumber(v: Value): Option<int> {
    match v
    case Undefined => None
    case Null => Some(0)
    case Bool(b) => Some(if b then 1 else 0)
    case Num(n) => Some(n)
    case NaN => None
    case Str(s) => StringToNumber(s)
    case Arr(_) => StringToNumber(ToStr(v))
    case Obj(_) => StringToNumber(ToStr(v))
  }

  /** A number round-trips through its text as `Number(String(n))` does. */
  lemma NumberOfStringOfNumber(n: int)
    ensures ToNumber(Str(ToStr(Num(n)))) == Some(n)
  {
    NumberOfString(n);
  }

  // ---------------------------------------------------------------------------------------
  // Equality and containment
  // ---------------------------------------------------------------------------------------

  /** `a === b`. NaN equals nothing. Arrays and objects are compared by identity, and a value
      read from a record is never the same object as a value from a rule, so they never match. */
  predicate StrictEquals(a: Value, b: Value) {
    match (a, b)
    case (Undefined, Undefined) => true
    case (Null, Null) => true
    case (Bool(x), Bool(y)) => x == y
    case (Num(x), Num(y)) => x == y
    case (Str(x), Str(y)) => x == y
    case _ => false
  }

  /** The equality of `Array.prototype.includes`: `===`, except that NaN matches NaN. */
  predicate SameValueZero(a: Value, b: Value) {
    StrictEquals(a, b) || (a.NaN? && b.NaN?)
  }

  /** `items.includes(x)`. */
  predicate ArrayIncludes(items: seq<Value>, x: Value) {
    exists i :: 0 <= i < |items| && SameValueZero(items[i], x)
  }

  /** `s.includes(t)` for strings. */
  predicate Includes(s: string, t: string) {
    t <= s || (s != [] && Includes(s[1..], t))
  }

  /** `t` occurs in `s` starting at position `i`. */
  predicate OccursAt(s: string, t: string, i: int) {
    0 <= i <= |s| - |t| && s[i..i + |t|] == t
  }

  /** `Includes` finds `t` exactly when `t` occurs at some position of `s`. */
  lemma {:induction false} IncludesIffOccurs(s: string, t: string)
    ensures Includes(s, t) <==> exists i :: OccursAt(s, t, i)
  {
    if t <= s {
      assert OccursAt(s, t, 0);
    } else if s == [] {
      assert forall i :: !OccursAt(s, t, i);
    } else {
      IncludesIffOccurs(s[1..], t);
      if i :| OccursAt(s, t, i) {
        if i > 0 {
          assert OccursAt(s[1..], t, i - 1) by { assert s[1..][i - 1..i - 1 + |t|] == s[i..i + |t|]; }
        }
      }
      if i :| OccursAt(s[1..], t, i) {
        assert s[1..][i..i + |t|] == s[i + 1..i + 1 + |t|];
        assert OccursAt(s, t, i + 1);
      }
    }
  }

  // ---------------------------------------------------------------------------------------
  // Property access and the dot-path walk
  // ---------------------------------------------------------------------------------------

  /** `v[key]` for the values of this model: an object's own field, an array element or
      `length`, a character of a string or its `length`; everything else is undefined. */
  function GetProperty(v: Value, key: string): Value {
    match v
    case Obj(m) => if key in m then m[key] else Undefined
    case Arr(items) =>
      if key == "length" then Num(|items|)
      else if ArrayIndex(key).Some? && ArrayIndex(key).value < |items| then items[ArrayIndex(key).value]
      else Undefined
    case Str(s) =>
      if key == "length" then Num(|s|)
      else if ArrayIndex(key).Some? && ArrayIndex(key).value < |s| then Str([s[ArrayIndex(key).value]])
      else Undefined
    case _ => Undefined
  }

  /** `path.split('.')`. */
  function SplitPath(path: string): (parts: seq<string>)
    ensures |parts| >= 1
    ensures forall i :: 0 <= i < |parts| ==> '.' !in parts[i]
  {
    if path == [] then [""]
    else
      var init := SplitPath(path[..|path| - 1]);
      var c := path[|path| - 1];
      if c == '.' then init + [""]
      else init[..|init| - 1] + [init[|init| - 1] + [c]]
  }

  /** Splitting and joining with '.' gives back the path. */
  lemma {:induction false} JoinSplitPath(path: string)
    ensures JoinWith(SplitPath(path), ".") == path
  {
    if path != [] {
      var p := path[..|path| - 1];
      var c := path[|path| - 1];
      var init := SplitPath(p);
      JoinSplitPath(p);
      assert path == p + [c];
      SplitPathSnoc(p, c);
      if c == '.' {
        assert SplitPath(path)[..|SplitPath(path)| - 1] == init;
      } else {
        var q := init[..|init| - 1];
        var last := init[|init| - 1];
        assert init == q + [last];
        if |init| == 1 {
          assert JoinWith(init, ".") == last;
        } else {
          assert JoinWith(init, ".") == JoinWith(q, ".") + "." + last;
          assert SplitPath(path)[..|SplitPath(path)| - 1] == q;
        }
      }
    }
  }

  /** Appending one character: a dot starts a new segment, anything else extends the last. */
  lemma SplitPathSnoc(path: string, c: char)
    ensures var init := SplitPath(path);
            SplitPath(path + [c]) == if c == '.' then init + [""] else init[..|init| - 1] + [init[|init| - 1] + [c]]
  {
    assert (path + [c])[..|path|] == path;
  }

  lemma ExtendLast(a: seq<string>, b: seq<string>, c: char)
    requires |b| >= 1
    ensures var ab := a + b;
            ab[..|ab| - 1] + [ab[|ab| - 1] + [c]] == a + (b[..|b| - 1] + [b[|b| - 1] + [c]])
  {
    var ab := a + b;
    assert ab[..|ab| - 1] == a + b[..|b| - 1];
    assert ab[|ab| - 1] == b[|b| - 1];
  }

  /** Splitting at a dot splits each side separately. */
  lemma {:induction false} SplitPathConcat(p: string, q: string)
    ensures SplitPath(p + "." + q) == SplitPath(p) + SplitPath(q)
    decreases |q|
  {
    if q == [] {
      SplitPathSnoc(p, '.');
      assert p + "." + q == p + ['.'];
    } else {
      var q' := q[..|q| - 1];
      var c := q[|q| - 1];
      var s' := p + "." + q';
      assert p + "." + q == s' + [c];
      assert q == q' + [c];
      SplitPathConcat(p, q');
      SplitPathSnoc(s', c);
      SplitPathSnoc(q', c);
      if c != '.' {
        ExtendLast(SplitPath(p), SplitPath(q'), c);
      }
    }
  }

  /** One step of `getNestedValue`'s reduce: `current && current[key] !== undefined ? current[key] : undefined`. */
  function Step(current: Value, key: string): Value {
    if IsTruthy(current) && GetProperty(current, key) != Undefined then GetProperty(current, key)
    else Undefined
  }

  function Walk(v: Value, keys: seq<string>): Value
    decreases |keys|
  {
    if keys == [] then v else Walk(Step(v, keys[0]), keys[1..])
  }

  /** `getNestedValue(obj, path)`. */
  function GetNestedValue(record: Record, path: string): Value {
    Walk(Obj(record), SplitPath(path))
  }

  /** Walking a concatenation of keys walks the first part and then the rest. */
  lemma {:induction false} WalkConcat(v: Value, a: seq<string>, b: seq<string>)
    ensures Walk(v, a + b) == Walk(Walk(v, a), b)
    decreases |a|
  {
    if a != [] {
      assert (a + b)[1..] == a[1..] + b;
      WalkConcat(Step(v, a[0]), a[1..], b);
    } else {
      assert a + b == b;
    }
  }

  lemma {:induction false} WalkFromFalsy(v: Value, keys: seq<string>)
    requires !IsTruthy(v) && keys != []
    ensures Walk(v, keys) == Undefined
    decreases |keys|
  {
    if |keys| > 1 {
      WalkFromFalsy(Undefined, keys[1..]);
    }
  }

  /** As soon as the walk reaches a missing or falsy value before the last segment, the result
      is undefined. */
  lemma WalkStopsAtFalsy(v: Value, keys: seq<string>, k: nat)
    requires k < |keys| && !IsTruthy(Walk(v, keys[..k]))
    ensures Walk(v, keys) == Undefined
  {
    assert keys == keys[..k] + keys[k..];
    WalkConcat(v, keys[..k], keys[k..]);
    WalkFromFalsy(Walk(v, keys[..k]), keys[k..]);
  }

  /** A dotted path is looked up segment after segment. */
  lemma NestedValueOfDottedPath(record: Record, p: string, q: string)
    ensures GetNestedValue(record, p + "." + q) == Walk(GetNestedValue(record, p), SplitPath(q))
  {
    SplitPathConcat(p, q);
    WalkConcat(Obj(record), SplitPath(p), SplitPath(q));
  }

  /** A path without dots reads the record's own field, or undefined when it is absent. */
  lemma NestedValueOfPlainField(record: Record, field: string)
    requires '.' !in field
    ensures GetNestedValue(record, field) == if field in record then record[field] else Undefined
  {
    SplitPlain(field);
    assert [field][1..] == [];
    assert GetNestedValue(record, field) == Walk(Step(Obj(record), field), []);
  }

  lemma {:induction false} SplitPlain(field: string)
    requires '.' !in field
    ensures SplitPath(field) == [field]
  {
    if field != [] {
      var p := field[..|field| - 1];
      SplitPlain(p);
      assert p + [field[|field| - 1]] == field;
    }
  }
}
