/**
 * Decoded JSON values as the mock server sees them after `request.get_json()`,
 * and the few Python operations the server applies to them: truthiness, the
 * `in` operator, `dict.get` and `str.lower`.
 *
 * A JSON object is a map, so the order of its members is not part of a value
 * (the server never depends on it, see Records.RequestedFields).
 */
module JsonData {

  import opened Wrappers

  datatype Json =
    | JNull
    | JBool(b: bool)
    | JInt(i: int)
    | JStr(s: string)
    | JArr(items: seq<Json>)
    | JObj(fields: map<string, Json>)

  /** Python truthiness: null, false, 0, "", [] and {} are false, everything else true. */
  predicate Truthy(j: Json) {
    match j
    case JNull => false
    case JBool(b) => b
    case JInt(i) => i != 0
    case JStr(s) => s != []
    case JArr(xs) => xs != []
    case JObj(m) => m != map[]
  }

  /**
   * Python's `a == b` on decoded JSON. A boolean is an integer there, so
   * true equals 1 and false equals 0, also inside lists and objects; values
   * of any other two different kinds are unequal.
   */
  predicate PyEq(a: Json, b: Json) {
    match a
    case JNull => b.JNull?
    case JBool(x) => (b.JBool? && b.b == x) || (b.JInt? && b.i == BoolValue(x))
    case JInt(i) => (b.JInt? && b.i == i) || (b.JBool? && BoolValue(b.b) == i)
    case JStr(s) => b == JStr(s)
    case JArr(xs) =>
      b.JArr? && |xs| == |b.items| && forall k :: 0 <= k < |xs| ==> PyEq(xs[k], b.items[k])
    case JObj(m) =>
      b.JObj? && m.Keys == b.fields.Keys && forall k :: k in m ==> PyEq(m[k], b.fields[k])
  }

  /** `int(b)`: the integer a boolean stands for. */
  function BoolValue(b: bool): int {
    if b then 1 else 0
  }

  /** A string equals exactly the same string: on strings Python's `==` is Dafny's. */
  lemma PyEqString(s: string, b: Json)
    ensures PyEq(JStr(s), b) <==> b == JStr(s)
    ensures PyEq(b, JStr(s)) <==> b == JStr(s)
  {
  }

  /** Python's `==` is reflexive and symmetric on decoded JSON. */
  lemma {:induction false} PyEqReflexiveSymmetric(a: Json, b: Json)
    ensures PyEq(a, a)
    ensures PyEq(a, b) <==> PyEq(b, a)
  {
    match a
    case JArr(xs) =>
      forall k | 0 <= k < |xs| ensures PyEq(xs[k], xs[k]) {
        PyEqReflexiveSymmetric(xs[k], xs[k]);
      }
      if b.JArr? && |xs| == |b.items| {
        forall k | 0 <= k < |xs| ensures PyEq(xs[k], b.items[k]) <==> PyEq(b.items[k], xs[k]) {
          PyEqReflexiveSymmetric(xs[k], b.items[k]);
        }
      }
    case JObj(m) =>
      forall k | k in m ensures PyEq(m[k], m[k]) {
        PyEqReflexiveSymmetric(m[k], m[k]);
      }
      if b.JObj? && m.Keys == b.fields.Keys {
        forall k | k in m ensures PyEq(m[k], b.fields[k]) <==> PyEq(b.fields[k], m[k]) {
          PyEqReflexiveSymmetric(m[k], b.fields[k]);
        }
      }
    case _ =>
  }

  /**
   * A boolean equals exactly the integer it stands for, and a string equals
   * no number or boolean.
   */
  lemma BoolsEqualTheirIntegers(b: bool, i: int, s: string)
    ensures PyEq(JBool(b), JInt(i)) <==> i == BoolValue(b)
    ensures PyEq(JInt(i), JBool(b)) <==> i == BoolValue(b)
    ensures !PyEq(JStr(s), JInt(i)) && !PyEq(JStr(s), JBool(b))
  {
  }

  /**
   * A reference for Python's `==`: every boolean replaced by its integer,
   * inside lists and objects too. Two values are equal in Python exactly
   * when their normal forms are the same value.
   */
  function Norm(j: Json): Json {
    match j
    case JBool(b) => JInt(BoolValue(b))
    case JArr(xs) => JArr(seq(|xs|, k requires 0 <= k < |xs| => Norm(xs[k])))
    case JObj(m) => JObj(map k | k in m :: Norm(m[k]))
    case _ => j
  }

  /** Python's `==` is equality of normal forms. */
  lemma {:induction false} PyEqIsNormEquality(a: Json, b: Json)
    ensures PyEq(a, b) <==> Norm(a) == Norm(b)
  {
    match a
    case JArr(xs) =>
      if b.JArr? {
        var ys := b.items;
        forall k | 0 <= k < |xs| && k < |ys| ensures PyEq(xs[k], ys[k]) <==> Norm(xs[k]) == Norm(ys[k]) {
          PyEqIsNormEquality(xs[k], ys[k]);
        }
        if |xs| == |ys| && Norm(a) == Norm(b) {
          forall k | 0 <= k < |xs| ensures Norm(xs[k]) == Norm(ys[k]) {
            assert Norm(a).items[k] == Norm(xs[k]);
          }
        }
        assert |Norm(a).items| == |xs| && |Norm(b).items| == |ys|;
      }
    case JObj(m) =>
      if b.JObj? {
        var n := b.fields;
        forall k | k in m && k in n ensures PyEq(m[k], n[k]) <==> Norm(m[k]) == Norm(n[k]) {
          PyEqIsNormEquality(m[k], n[k]);
        }
        if Norm(a) == Norm(b) {
          assert Norm(a).fields.Keys == m.Keys && Norm(b).fields.Keys == n.Keys;
          forall k | k in m ensures Norm(m[k]) == Norm(n[k]) {
            assert Norm(a).fields[k] == Norm(m[k]);
          }
        }
      }
    case _ =>
  }

  /** Python's `==` is transitive on decoded JSON. */
  lemma PyEqTransitive(a: Json, b: Json, c: Json)
    requires PyEq(a, b) && PyEq(b, c)
    ensures PyEq(a, c)
  {
    PyEqIsNormEquality(a, b);
    PyEqIsNormEquality(b, c);
    PyEqIsNormEquality(a, c);
  }

  /** Python's `needle in hay` on two strings: a substring test. */
  predicate IsSubstring(needle: string, hay: string)
    decreases |hay|
  {
    needle <= hay || (hay != [] && IsSubstring(needle, hay[1..]))
  }

  /**
   * Python's `item in container` on decoded JSON. None stands for the
   * TypeError Python raises: membership in null, a boolean or a number, a
   * non-string searched for in a string, and a list or object (unhashable)
   * searched for among a dictionary's keys. A list holds the item when one
   * of its elements equals it under Python's `==`.
   */
  function In(item: Json, container: Json): Option<bool> {
    match container
    case JObj(m) =>
      if item.JStr? then Some(item.s in m)
      else if item.JArr? || item.JObj? then None
      else Some(false)
    case JArr(xs) => Some(exists k :: 0 <= k < |xs| && PyEq(xs[k], item))
    case JStr(s) => if item.JStr? then Some(IsSubstring(item.s, s)) else None
    case _ => None
  }

  /** `d.get(key, default)` for a dictionary `d`. */
  function Get(d: map<string, Json>, key: string, default: Json): Json {
    if key in d then d[key] else default
  }

  function LowerChar(c: char): char {
    if 'A' <= c <= 'Z' then (c as int + 32) as char else c
  }

  /** `s.lower() == "true"`: only the case variants of the ASCII word lower to it. */
  predicate LowersToTrue(s: string) {
    |s| == 4 && LowerChar(s[0]) == 't' && LowerChar(s[1]) == 'r'
    && LowerChar(s[2]) == 'u' && LowerChar(s[3]) == 'e'
  }

  /** The body of every error response: `{"error": message}`. */
  function ErrorBody(message: string): Json {
    JObj(map["error" := JStr(message)])
  }
}
