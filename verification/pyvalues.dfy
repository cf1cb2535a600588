/**
 * The Python values that the endpoints receive as JSON request bodies, and the
 * few Python operations the command builders apply to them: `str()` (used by
 * every f-string interpolation), truthiness (`if x`), `for x in v`, `d[k]`,
 * `d.get(k, default)`, `d[k] = v`, `d.keys()`, `d.values()` and `sep.join(parts)`.
 */
module PyValues {

  datatype Option<+T> = None | Some(value: T)

  /** A JSON value as the web framework hands it over: floats keep the text
      Python's `repr` gives them, objects keep their keys in insertion order. */
  datatype Value =
    | Null
    | Bool(b: bool)
    | Int(i: int)
    | Float(repr: string)
    | Str(s: string)
    | Arr(items: seq<Value>)
    | Obj(entries: seq<(string, Value)>)

  /** A Python dict with string keys, in insertion order. */
  type Dict = seq<(string, Value)>

  /** The exceptions the builders can raise before any command is executed. */
  datatype Error =
    | KeyError(key: Value)
    | TypeError
    | AttributeError

  /** The outcome of a Python step: a value, or the exception it raised.
      Usable with `:-`, which stops at the first exception as Python does. */
  datatype Result<+T> = Ok(value: T) | Err(error: Error) {
    predicate IsFailure() {
      Err?
    }

    function PropagateFailure<U>(): Result<U>
      requires Err?
    {
      Err(error)
    }

    function Extract(): T
      requires Ok?
    {
      value
    }
  }

  /** Python dicts never hold a key twice. */
  predicate UniqueKeys(d: Dict) {
    forall i, j :: 0 <= i < j < |d| ==> d[i].0 != d[j].0
  }

  function Keys(d: Dict): seq<string> {
    seq(|d|, i requires 0 <= i < |d| => d[i].0)
  }

  function Values(d: Dict): seq<Value> {
    seq(|d|, i requires 0 <= i < |d| => d[i].1)
  }

  /** Position of key `k` in `d`, if present. */
  function IndexOf(d: Dict, k: string): (r: Option<nat>)
    ensures r.Some? ==> r.value < |d| && d[r.value].0 == k
    ensures r.Some? ==> forall j :: 0 <= j < r.value ==> d[j].0 != k
    ensures r.None? <==> forall j :: 0 <= j < |d| ==> d[j].0 != k
    decreases |d|
  {
    if d == [] then None
    else if d[0].0 == k then Some(0)
    else match IndexOf(d[1..], k)
      case None => None
      case Some(j) => Some(j + 1)
  }

  /** `d.get(k)`: the value stored under `k`, or nothing. */
  function Get(d: Dict, k: string): Option<Value> {
    match IndexOf(d, k)
    case None => None
    case Some(j) => Some(d[j].1)
  }

  /** `d.get(k, default)`. */
  function GetOr(d: Dict, k: string, default: Value): Value {
    match Get(d, k)
    case None => default
    case Some(v) => v
  }

  /** `d[k]`: raises KeyError when `k` is missing. */
  function Lookup(d: Dict, k: string): (r: Result<Value>)
    ensures r.Err? <==> Get(d, k).None?
    ensures r.Err? ==> r.error == KeyError(Str(k))
    ensures r.Ok? ==> Get(d, k) == Some(r.value)
  {
    match Get(d, k)
    case None => Err(KeyError(Str(k)))
    case Some(v) => Ok(v)
  }

  /** `d[k] = v`: an existing key keeps its position and takes the new value,
      a new key is appended at the end. */
  function Set(d: Dict, k: string, v: Value): (r: Dict)
    ensures Get(r, k) == Some(v)
    ensures forall k' :: k' != k ==> Get(r, k') == Get(d, k')
    ensures Get(d, k).Some? ==> Keys(r) == Keys(d)
    ensures Get(d, k).None? ==> Keys(r) == Keys(d) + [k]
    ensures UniqueKeys(d) ==> UniqueKeys(r)
  {
    match IndexOf(d, k)
    case None =>
      var r := d + [(k, v)];
      assert forall k' :: k' != k ==> IndexOf(r, k') == IndexOf(d, k') by {
        forall k' | k' != k ensures IndexOf(r, k') == IndexOf(d, k') {
          IndexOfAppend(d, k', (k, v));
        }
      }
      IndexOfAppendNew(d, k, v);
      assert Keys(r) == Keys(d) + [k];
      r
    case Some(j) =>
      var r := d[j := (k, v)];
      IndexOfReplace(d, j, k, v);
      assert Keys(r) == Keys(d);
      r
  }

  lemma {:induction false} IndexOfAppend(d: Dict, k: string, e: (string, Value))
    requires e.0 != k
    ensures IndexOf(d + [e], k) == IndexOf(d, k)
    decreases |d|
  {
    if d == [] {
    } else {
      assert (d + [e])[1..] == d[1..] + [e];
      if d[0].0 != k {
        IndexOfAppend(d[1..], k, e);
      }
    }
  }

  lemma IndexOfAppendNew(d: Dict, k: string, v: Value)
    requires IndexOf(d, k).None?
    ensures IndexOf(d + [(k, v)], k) == Some(|d|)
  {
    var r := d + [(k, v)];
    assert r[|d|].0 == k;
    assert forall i :: 0 <= i < |d| ==> r[i] == d[i];
  }

  lemma IndexOfReplace(d: Dict, j: nat, k: string, v: Value)
    requires IndexOf(d, k) == Some(j)
    ensures forall k' :: IndexOf(d[j := (k, v)], k') == IndexOf(d, k')
  {
    var r := d[j := (k, v)];
    forall k' ensures IndexOf(r, k') == IndexOf(d, k') {
      IndexOfSameKeys(d, r, k');
    }
  }

  /** Key lookup only depends on the sequence of keys. */
  lemma IndexOfSameKeys(d: Dict, e: Dict, k: string)
    requires |d| == |e|
    requires forall i :: 0 <= i < |d| ==> d[i].0 == e[i].0
    ensures IndexOf(d, k) == IndexOf(e, k)
  {
  }

  /** Python truthiness: None, False, zero, the empty string, list and dict are false. */
  predicate Truthy(v: Value) {
    match v
    case Null => false
    case Bool(b) => b
    case Int(i) => i != 0
    case Float(r) => r != "0.0" && r != "-0.0"
    case Str(s) => s != ""
    case Arr(xs) => xs != []
    case Obj(es) => es != []
  }

  /** `for x in v`: a list yields its items, a dict its keys, a string its
      one-character strings; anything else is not iterable. */
  function Iterate(v: Value): (r: Result<seq<Value>>)
    ensures r.Err? ==> r.error == TypeError
    ensures v.Arr? ==> r == Ok(v.items)
    ensures v.Obj? ==> && r.Ok? && |r.value| == |v.entries|
                       && forall i :: 0 <= i < |v.entries| ==> r.value[i] == Str(v.entries[i].0)
    ensures v.Str? ==> && r.Ok? && |r.value| == |v.s|
                       && forall i :: 0 <= i < |v.s| ==> r.value[i] == Str([v.s[i]])
    ensures r.Err? <==> !(v.Arr? || v.Obj? || v.Str?)
  {
    match v
    case Arr(xs) => Ok(xs)
    case Obj(es) => Ok(seq(|es|, i requires 0 <= i < |es| => Str(es[i].0)))
    case Str(s) => Ok(seq(|s|, i requires 0 <= i < |s| => Str([s[i]])))
    case _ => Err(TypeError)
  }

  /** `sep.join(parts)`. */
  function Join(sep: string, parts: seq<string>): string
    decreases |parts|
  {
    if parts == [] then ""
    else if |parts| == 1 then parts[0]
    else parts[0] + sep + Join(sep, parts[1..])
  }

  /** `s.endswith(t)`. */
  predicate EndsWith(s: string, t: string) {
    |t| <= |s| && s[|s| - |t|..] == t
  }

  function Digit(n: nat): char
    requires n < 10
  {
    "0123456789"[n]
  }

  function NatToString(n: nat): (r: string)
    ensures r != [] && forall c :: c in r ==> '0' <= c <= '9'
    decreases n
  {
    if n < 10 then [Digit(n)] else NatToString(n / 10) + [Digit(n % 10)]
  }

  /** Python's `str()` of an int. */
  function IntToString(i: int): string {
    if i < 0 then "-" + NatToString(-i) else NatToString(i)
  }

  /** Python's `str()` (`quoted` false) and `repr()` (`quoted` true). */
  function Render(v: Value, quoted: bool): string
    decreases v
  {
    match v
    case Null => "None"
    case Bool(b) => if b then "True" else "False"
    case Int(i) => IntToString(i)
    case Float(r) => r
    case Str(s) => if quoted then "'" + s + "'" else s
    case Arr(xs) =>
      "[" + Join(", ", seq(|xs|, i requires 0 <= i < |xs| => Render(xs[i], true))) + "]"
    case Obj(es) =>
      "{" + Join(", ", seq(|es|, i requires 0 <= i < |es| =>
                              "'" + es[i].0 + "': " + Render(es[i].1, true))) + "}"
  }

  /** `f"{v}"`: what an f-string interpolation writes for `v`. */
  function Show(v: Value): string {
    Render(v, false)
  }
}
