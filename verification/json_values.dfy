/**
 * JSON values as the comment widget's JavaScript code sees them once parsed,
 * and the handful of JavaScript operations the widget applies to them:
 * truthiness, reading an object member, lower-casing and suffix tests.
 *
 * A JavaScript object is a sequence of (key, value) pairs in the order
 * `Object.keys` lists them; keys are distinct in any object the widget
 * receives. `None` stands for `undefined` (and, in the server-side code, for
 * PHP `NULL`); an operation that can throw returns a `Result`.
 */
module JsonValues {

  /** A value that may be `undefined`. */
  datatype Option<+T> = None | Some(value: T)

  /** The outcome of an operation that may throw `error` instead of returning. */
  datatype Result<+T, +E> = Success(value: T) | Failure(error: E)

  /** A parsed JSON value. Object members keep their key order; numbers are integers. */
  datatype Json =
    | JNull
    | JBool(b: bool)
    | JNum(n: int)
    | JStr(s: string)
    | JArr(items: seq<Json>)
    | JObj(members: seq<(string, Json)>)

  /**
   * JavaScript truthiness of a value that may be `undefined`: `undefined`,
   * `null`, `false`, `0` and `""` are falsy; every array and object, even an
   * empty one, is truthy.
   */
  predicate Truthy(v: Option<Json>) {
    match v
    case None => false
    case Some(JNull) => false
    case Some(JBool(b)) => b
    case Some(JNum(n)) => n != 0
    case Some(JStr(s)) => s != ""
    case Some(JArr(_)) => true
    case Some(JObj(_)) => true
  }

  /** A string that may be `undefined`, as a JavaScript value. */
  function StringValue(s: Option<string>): (v: Option<Json>)
    ensures Truthy(v) <==> s.Some? && s.value != ""
  {
    match s
    case None => None
    case Some(t) => Some(JStr(t))
  }

  /** Member `key` of an object, or `undefined` when the object has no such key. */
  function Get<V>(members: seq<(string, V)>, key: string): (r: Option<V>)
    ensures r.Some? <==> exists i :: 0 <= i < |members| && members[i].0 == key
    ensures r.Some? ==> exists i :: 0 <= i < |members| && members[i] == (key, r.value)
                                     && forall j :: 0 <= j < i ==> members[j].0 != key
  {
    if |members| == 0 then None
    else if members[0].0 == key then Some(members[0].1)
    else
      var r := Get(members[1..], key);
      assert forall i :: 0 <= i < |members| - 1 ==> members[1..][i] == members[i + 1];
      r
  }

  /** `c.toLowerCase()` on one character, for the ASCII letters. */
  function LowerChar(c: char): (d: char)
    ensures !('A' <= d <= 'Z')
    ensures !('A' <= c <= 'Z') ==> d == c
    ensures 'A' <= c <= 'Z' ==> d as int - c as int == 'a' as int - 'A' as int
  {
    if 'A' <= c <= 'Z' then (c as int - 'A' as int + 'a' as int) as char else c
  }

  /** `s.toLowerCase()`, for strings whose letters are ASCII. */
  function ToLower(s: string): (r: string)
    ensures |r| == |s|
    ensures forall i :: 0 <= i < |r| ==> !('A' <= r[i] <= 'Z')
    ensures forall i :: 0 <= i < |s| && !('A' <= s[i] <= 'Z') ==> r[i] == s[i]
    ensures forall i :: 0 <= i < |s| && 'A' <= s[i] <= 'Z' ==> r[i] as int == s[i] as int + ('a' as int - 'A' as int)
  {
    seq(|s|, i requires 0 <= i < |s| => LowerChar(s[i]))
  }

  /** `s.match(new RegExp(suffix + '$'))` for a suffix free of pattern characters. */
  predicate EndsWith(s: string, suffix: string) {
    |suffix| <= |s| && s[|s| - |suffix|..] == suffix
  }

  /** Concatenates two lists that may have failed, passing on the first error in order. */
  function Then<T, E>(first: Result<seq<T>, E>, rest: Result<seq<T>, E>): (r: Result<seq<T>, E>)
    ensures r.Success? <==> first.Success? && rest.Success?
    ensures r.Success? ==> r.value == first.value + rest.value
    ensures first.Failure? ==> r == first
    ensures first.Success? && rest.Failure? ==> r == Failure(rest.error)
  {
    match first
    case Failure(e) => Failure(e)
    case Success(xs) =>
      match rest
      case Failure(e) => Failure(e)
      case Success(ys) => Success(xs + ys)
  }

  /** `Then` is associative, so concatenating fallible lists can be regrouped. */
  lemma ThenAssociative<T, E>(x: Result<seq<T>, E>, y: Result<seq<T>, E>, z: Result<seq<T>, E>)
    ensures Then(x, Then(y, z)) == Then(Then(x, y), z)
  {
    if x.Success? && y.Success? && z.Success? {
      assert x.value + (y.value + z.value) == (x.value + y.value) + z.value;
    }
  }
}
