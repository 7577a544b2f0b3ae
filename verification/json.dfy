/** Parsed JSON documents, as Python's `json` module hands them to the
    library, and the few Python operations the library applies to them:
    subscripting with a string key, iterating, and `str()`. */
module Json {
  import opened Wrappers

  /** A JSON value. An object keeps its members in document order; numbers
      are integers. */
  datatype Value =
    | Null
    | Bool(b: bool)
    | Num(n: int)
    | Str(s: string)
    | Arr(items: seq<Value>)
    | Obj(members: seq<(string, Value)>)

  /** The value of the last member named `k`: `json.loads` keeps the last of
      repeated names. */
  function Member(members: seq<(string, Value)>, k: string): (r: Option<Value>)
    ensures r.None? <==> forall i :: 0 <= i < |members| ==> members[i].0 != k
    ensures r.Some? ==>
      exists i :: 0 <= i < |members| && members[i] == (k, r.value) &&
        forall j :: i < j < |members| ==> members[j].0 != k
  {
    if members == [] then None
    else if members[|members| - 1].0 == k then Some(members[|members| - 1].1)
    else Member(members[..|members| - 1], k)
  }

  /** `j[k]` in Python: it succeeds only on a dict that has the key; on any
      other value it raises (KeyError or TypeError), which is `None` here. */
  function Get(j: Value, k: string): (r: Option<Value>)
    ensures r.Some? ==> j.Obj?
    ensures j.Obj? ==> r == Member(j.members, k)
  {
    if j.Obj? then Member(j.members, k) else None
  }

  /** `j[p0][p1]...` for the keys of `path`, failing as soon as one step fails. */
  function At(j: Value, path: seq<string>): (r: Option<Value>)
    ensures path == [] ==> r == Some(j)
    ensures |path| > 0 && Get(j, path[0]).None? ==> r.None?
    ensures |path| == 1 ==> r == Get(j, path[0])
    decreases |path|
  {
    if path == [] then Some(j)
    else match Get(j, path[0])
      case None => None
      case Some(v) => At(v, path[1..])
  }

  /** Following a path in two parts: the second part starts where the first
      ends, and a failed first part fails the whole. */
  lemma {:induction false} AtAppend(j: Value, p: seq<string>, q: seq<string>)
    ensures At(j, p + q) == if At(j, p).Some? then At(At(j, p).value, q) else None
    decreases |p|
  {
    if p == [] {
      assert p + q == q;
    } else {
      assert (p + q)[0] == p[0] && (p + q)[1..] == p[1..] + q;
      match Get(j, p[0])
      case None =>
      case Some(v) => AtAppend(v, p[1..], q);
    }
  }

  /** The distinct member names of an object, in order of first occurrence:
      the keys of the dict `json.loads` builds. */
  function Keys(members: seq<(string, Value)>): (ks: seq<string>)
    ensures |ks| <= |members|
    ensures |ks| == 0 <==> |members| == 0
    ensures forall i :: 0 <= i < |members| ==> members[i].0 in ks
  {
    if members == [] then []
    else
      var ks := Keys(members[..|members| - 1]);
      var k := members[|members| - 1].0;
      if k in ks then ks else ks + [k]
  }

  /** What `for x in j` yields: the items of a list, the keys of a dict, the
      one-character strings of a str; `None` when the value is not iterable
      (null, booleans and numbers raise TypeError). */
  function Elements(j: Value): (r: Option<seq<Value>>)
    ensures r.None? <==> j.Null? || j.Bool? || j.Num?
    ensures j.Arr? ==> r == Some(j.items)
    ensures j.Str? ==> r.Some? && |r.value| == |j.s|
    ensures j.Obj? ==> r.Some? && (|r.value| == 0 <==> |j.members| == 0)
    ensures r.Some? && !j.Arr? ==> forall i :: 0 <= i < |r.value| ==> r.value[i].Str?
  {
    match j
    case Arr(items) => Some(items)
    case Str(s) => Some(seq(|s|, i requires 0 <= i < |s| => Str([s[i]])))
    case Obj(members) =>
      var ks := Keys(members);
      Some(seq(|ks|, i requires 0 <= i < |ks| => Str(ks[i])))
    case _ => None
  }

  predicate IsDigit(c: char) {
    '0' <= c <= '9'
  }

  /** The number a string of decimal digits denotes, read left to right. */
  function DecimalValue(s: string): int
    decreases |s|
  {
    if s == [] then 0
    else DecimalValue(s[..|s| - 1]) * 10 + (s[|s| - 1] as int - '0' as int)
  }

  /** Decimal digits of a natural number: Python's `str()` of an int. */
  function Digits(n: nat): (r: string)
    ensures |r| > 0
    ensures forall i :: 0 <= i < |r| ==> IsDigit(r[i])
    ensures r[0] == '0' <==> n == 0
    ensures n == 0 ==> r == "0"
    ensures DecimalValue(r) == n
    decreases n
  {
    var d := ['0' + (n % 10) as char];
    assert d[0] as int - '0' as int == n % 10;
    if n < 10 then
      assert DecimalValue(d) == DecimalValue([]) * 10 + n % 10;
      d
    else
      var h := Digits(n / 10);
      var r := h + d;
      assert r[..|r| - 1] == h && r[|r| - 1] == d[0];
      assert r[0] == h[0];
      r
  }

  /** Python's `str(j)` for the scalar values; `None` for lists and dicts,
      whose `repr` text is not modelled. */
  function Display(j: Value): (r: Option<string>)
    ensures j.Str? ==> r == Some(j.s)
    ensures j.Null? ==> r == Some("None")
    ensures j.Bool? ==> r == Some(if j.b then "True" else "False")
    ensures j.Num? && j.n >= 0 ==> r == Some(Digits(j.n))
    ensures j.Num? && j.n < 0 ==> r == Some("-" + Digits(-j.n))
    ensures r.None? <==> j.Arr? || j.Obj?
  {
    match j
    case Null => Some("None")
    case Bool(b) => Some(if b then "True" else "False")
    case Num(n) => Some(if n < 0 then "-" + Digits(-n) else Digits(n))
    case Str(s) => Some(s)
    case _ => None
  }
}
