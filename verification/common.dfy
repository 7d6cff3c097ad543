/** Values shared by the client and the HTTP handlers: optional and fallible
    results, JSON values with the truthiness rules of Python and JavaScript,
    substring search, decimal rendering of naturals and dictionary building. */
module Common {

  datatype Option<+T> = None | Some(value: T)

  datatype Result<+T, +E> = Ok(value: T) | Err(error: E)

  /** A JSON value as a Flask handler or the browser client holds it after parsing. */
  datatype Json =
    | Null
    | Bool(b: bool)
    | Int(i: int)
    | Float(f: real)
    | Str(s: string)
    | List(items: seq<Json>)
    | Object(fields: map<string, Json>)

  /** Python's `bool(v)`: None, False, zero and empty containers are false. */
  predicate PyTruthy(v: Json) {
    match v
    case Null => false
    case Bool(b) => b
    case Int(i) => i != 0
    case Float(f) => f != 0.0
    case Str(s) => s != []
    case List(xs) => xs != []
    case Object(m) => m != map[]
  }

  /** JavaScript truthiness: arrays and objects are always truthy, even when empty. */
  predicate JsTruthy(v: Json) {
    match v
    case Null => false
    case Bool(b) => b
    case Int(i) => i != 0
    case Float(f) => f != 0.0
    case Str(s) => s != []
    case List(_) => true
    case Object(_) => true
  }

  /** The name CPython gives the type of a decoded JSON value in its error messages. */
  function PyTypeName(v: Json): string {
    match v
    case Null => "NoneType"
    case Bool(_) => "bool"
    case Int(_) => "int"
    case Float(_) => "float"
    case Str(_) => "str"
    case List(_) => "list"
    case Object(_) => "dict"
  }

  /** JavaScript's `v.key`: the member of an object, `undefined` (here Null) otherwise. */
  function Member(v: Json, key: string): Json {
    if v.Object? && key in v.fields then v.fields[key] else Null
  }

  // ---------------------------------------------------------------- strings

  predicate IsPrefix(p: string, s: string) {
    |p| <= |s| && s[..|p|] == p
  }

  /** `pat` occurs in `s` starting at index `k`. */
  predicate OccursAt(s: string, pat: string, k: int) {
    0 <= k && k + |pat| <= |s| && s[k..k + |pat|] == pat
  }

  /** No `pat` starts in [a, b). */
  predicate NoneIn(s: string, pat: string, a: int, b: int) {
    forall t :: a <= t < b ==> !OccursAt(s, pat, t)
  }

  /** The first occurrence of `pat` in `s` at or after `from` (`str.find` with a start). */
  function IndexOf(s: string, pat: string, from: nat): (r: Option<nat>)
    ensures r.Some? ==> from <= r.value && OccursAt(s, pat, r.value)
    ensures r.Some? ==> forall k :: from <= k < r.value ==> !OccursAt(s, pat, k)
    ensures r.None? ==> forall k :: from <= k ==> !OccursAt(s, pat, k)
    decreases |s| - from
  {
    if from + |pat| > |s| then None
    else if OccursAt(s, pat, from) then Some(from)
    else IndexOf(s, pat, from + 1)
  }

  /** Python's `pat in s` on strings. */
  predicate Contains(s: string, pat: string) {
    IndexOf(s, pat, 0).Some?
  }

  lemma ContainsIff(s: string, pat: string)
    ensures Contains(s, pat) <==> exists k :: OccursAt(s, pat, k)
  {
  }

  /** An occurrence inside a slice is an occurrence in the whole text. */
  lemma OccursInSlice(s: string, pat: string, a: nat, b: nat, t: int)
    requires a <= b <= |s| && OccursAt(s[a..b], pat, t)
    ensures OccursAt(s, pat, a + t) && a + t + |pat| <= b
  {
    var inner := s[a..b];
    assert |inner| == b - a;
    assert forall k :: 0 <= k < |inner| ==> inner[k] == s[a + k];
    assert inner[t..t + |pat|] == s[a + t..a + t + |pat|];
  }

  /** Python's `s.split(sep)[1]`: the text after the first separator up to the
      next one, or None where the index raises because `sep` does not occur. */
  function SplitField1(s: string, sep: string): (r: Option<string>)
    requires sep != []
    ensures r.None? <==> !Contains(s, sep)
    ensures r.Some? ==> !Contains(r.value, sep)
    ensures r.Some? ==> exists i :: OccursAt(s, sep, i) && (forall k :: 0 <= k < i ==> !OccursAt(s, sep, k))
                                    && IsPrefix(r.value, s[i + |sep|..])
                                    && NoneIn(s, sep, i + |sep|, i + |sep| + |r.value|)
                                    && (i + |sep| + |r.value| == |s| || OccursAt(s, sep, i + |sep| + |r.value|))
  {
    match IndexOf(s, sep, 0)
    case None => None
    case Some(i) =>
      var start := i + |sep|;
      var end := match IndexOf(s, sep, start)
                 case None => |s|
                 case Some(j) => j;
      var field := s[start..end];
      forall t | OccursAt(field, sep, t)
        ensures OccursAt(s, sep, start + t) && start + t < end
      {
        OccursInSlice(s, sep, start, end, t);
      }
      assert s[start..][..|field|] == field;
      Some(field)
  }

  /** A separator that overlaps itself: the field ends at the first separator
      after the one it follows, as Python's left-to-right split does. */
  lemma SplitField1Overlapping()
    ensures SplitField1("aaxaaa", "aa") == Some("x")
  {
    var s := "aaxaaa";
    assert s[0..2] == "aa" && s[3..5] == "aa" && s[2..4][0] == 'x';
    assert IndexOf(s, "aa", 0) == Some(0);
    assert IndexOf(s, "aa", 3) == Some(3);
    assert IndexOf(s, "aa", 2) == Some(3);
    assert s[2..3] == "x";
  }

  // ------------------------------------------------------- decimal numbers

  function DecimalDigit(d: nat): (c: char)
    requires d < 10
    ensures '0' <= c <= '9'
  {
    (('0' as int) + d) as char
  }

  /** The decimal text of `n`, as Python's f-strings and JavaScript's template
      literals write a non-negative integer. */
  function NatToDecimal(n: nat): (s: string)
    ensures |s| >= 1
    ensures forall k :: 0 <= k < |s| ==> '0' <= s[k] <= '9'
    ensures |s| == 1 <==> n < 10
    decreases n
  {
    if n < 10 then [DecimalDigit(n)] else NatToDecimal(n / 10) + [DecimalDigit(n % 10)]
  }

  /** Different numbers never share a decimal text. */
  lemma {:induction false} NatToDecimalInjective(m: nat, n: nat)
    requires NatToDecimal(m) == NatToDecimal(n)
    ensures m == n
    decreases m
  {
    var sm, sn := NatToDecimal(m), NatToDecimal(n);
    if m < 10 {
      assert n < 10;
      assert DecimalDigit(m) == sm[0] == sn[0] == DecimalDigit(n);
    } else {
      assert n >= 10;
      var pm, pn := NatToDecimal(m / 10), NatToDecimal(n / 10);
      assert sm == pm + [DecimalDigit(m % 10)];
      assert sn == pn + [DecimalDigit(n % 10)];
      assert pm == sm[..|sm| - 1] == sn[..|sn| - 1] == pn;
      assert DecimalDigit(m % 10) == sm[|sm| - 1] == sn[|sn| - 1] == DecimalDigit(n % 10);
      NatToDecimalInjective(m / 10, n / 10);
    }
  }

  // ---------------------------------------------------------- dictionaries

  /** The keys of a sequence of pairs, in order. */
  function Keys<V>(pairs: seq<(string, V)>): (ks: seq<string>)
    ensures |ks| == |pairs|
    ensures forall k :: 0 <= k < |pairs| ==> ks[k] == pairs[k].0
  {
    if pairs == [] then [] else Keys(pairs[..|pairs| - 1]) + [pairs[|pairs| - 1].0]
  }

  /** A Python dict comprehension over `pairs`: insertion in order, so a later
      pair overrides an earlier one with the same key. */
  function DictFromPairs<V>(pairs: seq<(string, V)>): (d: map<string, V>)
    ensures d.Keys == set k | 0 <= k < |pairs| :: pairs[k].0
  {
    if pairs == [] then map[]
    else DictFromPairs(pairs[..|pairs| - 1])[pairs[|pairs| - 1].0 := pairs[|pairs| - 1].1]
  }

  predicate DistinctKeys<V>(pairs: seq<(string, V)>) {
    forall a, b :: 0 <= a < b < |pairs| ==> pairs[a].0 != pairs[b].0
  }

  /** With distinct keys, every pair survives: each key maps to its own value. */
  lemma {:induction false} DictFromDistinctPairs<V>(pairs: seq<(string, V)>)
    requires DistinctKeys(pairs)
    ensures |DictFromPairs(pairs)| == |pairs|
    ensures forall k :: 0 <= k < |pairs| ==> DictFromPairs(pairs)[pairs[k].0] == pairs[k].1
  {
    if pairs != [] {
      var init := pairs[..|pairs| - 1];
      var last := pairs[|pairs| - 1];
      DictFromDistinctPairs(init);
      assert forall k :: 0 <= k < |init| ==> init[k].0 != last.0 by {
        forall k | 0 <= k < |init| ensures init[k].0 != last.0 {
          assert init[k] == pairs[k];
        }
      }
      assert last.0 !in DictFromPairs(init).Keys;
      forall k | 0 <= k < |pairs|
        ensures DictFromPairs(pairs)[pairs[k].0] == pairs[k].1
      {
        if k < |pairs| - 1 {
          assert pairs[k] == init[k];
        }
      }
    }
  }
}
