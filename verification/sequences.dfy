/** The ways of walking a sequence that the library's loops share: finding
    the first element that satisfies a test (`FirstIndex`), concatenating
    what each element contributes (`Concat`), emitting, skipping or stopping
    element by element (`Walk`), requiring every element to yield (`All`),
    and dropping a run of elements from either end (`DropFront`,
    `DropBack`). */
module Sequences {
  import opened Wrappers

  /** The index of the first element satisfying `p`, in sequence order. */
  function FirstIndex<T>(s: seq<T>, p: T -> bool): (r: Option<nat>)
    ensures r.Some? ==> r.value < |s| && p(s[r.value])
    ensures r.Some? ==> forall j :: 0 <= j < r.value ==> !p(s[j])
    ensures r.None? <==> forall j :: 0 <= j < |s| ==> !p(s[j])
    decreases |s|
  {
    if s == [] then None
    else if p(s[0]) then Some(0)
    else match FirstIndex(s[1..], p)
      case None => None
      case Some(k) => Some(k + 1)
  }

  /** The contributions of the elements of `s`, in order. */
  function Concat<T, U>(s: seq<T>, f: T -> seq<U>): (r: seq<U>)
    ensures (forall i :: 0 <= i < |s| ==> |f(s[i])| <= 1) ==> |r| <= |s|
  {
    if s == [] then [] else f(s[0]) + Concat(s[1..], f)
  }

  lemma {:induction false} ConcatAppend<T, U>(a: seq<T>, b: seq<T>, f: T -> seq<U>)
    ensures Concat(a + b, f) == Concat(a, f) + Concat(b, f)
  {
    if a == [] {
      assert a + b == b;
    } else {
      assert (a + b)[0] == a[0];
      assert (a + b)[1..] == a[1..] + b;
      ConcatAppend(a[1..], b, f);
      calc {
        Concat(a + b, f);
        f(a[0]) + Concat(a[1..] + b, f);
        f(a[0]) + (Concat(a[1..], f) + Concat(b, f));
        (f(a[0]) + Concat(a[1..], f)) + Concat(b, f);
      }
    }
  }

  /** Concatenating one element's contribution. */
  lemma ConcatOne<T, U>(x: T, f: T -> seq<U>)
    ensures Concat([x], f) == f(x)
  {
    assert [x][1..] == [];
  }

  /** A value no element contributes is not in the result. */
  lemma {:induction false} ConcatAvoids<T, U>(s: seq<T>, f: T -> seq<U>, u: U)
    requires forall i :: 0 <= i < |s| ==> u !in f(s[i])
    ensures u !in Concat(s, f)
  {
    if s != [] {
      assert forall i :: 0 <= i < |s[1..]| ==> s[1..][i] == s[i + 1];
      ConcatAvoids(s[1..], f, u);
      assert Concat(s, f) == f(s[0]) + Concat(s[1..], f);
    }
  }

  /** When every element contributes exactly one value, the result has one
      value per element, in order. */
  lemma {:induction false} ConcatSingletons<T, U>(s: seq<T>, f: T -> seq<U>)
    requires forall k :: 0 <= k < |s| ==> |f(s[k])| == 1
    ensures |Concat(s, f)| == |s|
    ensures forall k :: 0 <= k < |s| ==> Concat(s, f)[k] == f(s[k])[0]
  {
    if s != [] {
      assert forall k :: 0 <= k < |s[1..]| ==> s[1..][k] == s[k + 1];
      ConcatSingletons(s[1..], f);
      var r := Concat(s, f);
      assert r == f(s[0]) + Concat(s[1..], f);
      forall k | 0 < k < |s| ensures r[k] == f(s[k])[0] {
        assert r[k] == Concat(s[1..], f)[k - 1];
      }
    }
  }

  /** A loop step that adds `s[i..]`'s first contribution to an
      accumulator keeps "accumulator, then the rest" equal to the whole. */
  lemma ConcatAdvance<T, U>(s: seq<T>, i: nat, f: T -> seq<U>, acc: seq<U>)
    requires i < |s| && acc + Concat(s[i..], f) == Concat(s, f)
    ensures (acc + f(s[i])) + Concat(s[i + 1..], f) == Concat(s, f)
  {
    var t := s[i..];
    assert t[0] == s[i] && t[1..] == s[i + 1..];
    assert Concat(t, f) == f(s[i]) + Concat(s[i + 1..], f);
  }

  /** What a walk does with one element: contribute a value, skip it, or
      stop before it. */
  datatype Step<U> = Emit(value: U) | Skip | Stop

  /** The values emitted before the first element that stops the walk. */
  function Walk<T, U>(s: seq<T>, f: T -> Step<U>): (r: seq<U>)
    ensures |r| <= |s|
  {
    if s == [] then []
    else match f(s[0])
      case Stop => []
      case Skip => Walk(s[1..], f)
      case Emit(u) => [u] + Walk(s[1..], f)
  }

  /** A skipped element followed by an emitting one: the walk gives that
      one value. */
  lemma WalkSkipEmit<T, U>(x: T, y: T, f: T -> Step<U>)
    requires f(x).Skip? && f(y).Emit?
    ensures Walk([x, y], f) == [f(y).value]
  {
    assert [x, y][1..] == [y];
    assert [y][1..] == [];
  }

  lemma WalkAdvance<T, U>(s: seq<T>, i: nat, f: T -> Step<U>, acc: seq<U>)
    requires i < |s| && acc + Walk(s[i..], f) == Walk(s, f)
    ensures f(s[i]).Stop? ==> acc == Walk(s, f)
    ensures f(s[i]).Skip? ==> acc + Walk(s[i + 1..], f) == Walk(s, f)
    ensures f(s[i]).Emit? ==> (acc + [f(s[i]).value]) + Walk(s[i + 1..], f) == Walk(s, f)
  {
    assert s[i..][0] == s[i];
    assert s[i..][1..] == s[i + 1..];
  }

  /** A property of every value the steps can emit holds of every value
      the walk yields. */
  lemma {:induction false} WalkEmitted<T, U>(s: seq<T>, f: T -> Step<U>, p: U -> bool)
    requires forall i :: 0 <= i < |s| && f(s[i]).Emit? ==> p(f(s[i]).value)
    ensures forall k :: 0 <= k < |Walk(s, f)| ==> p(Walk(s, f)[k])
  {
    if s != [] && !f(s[0]).Stop? {
      assert forall i :: 0 <= i < |s[1..]| ==> s[1..][i] == s[i + 1];
      WalkEmitted(s[1..], f, p);
      var r := Walk(s, f);
      var head := if f(s[0]).Emit? then [f(s[0]).value] else [];
      assert r == head + Walk(s[1..], f);
      forall k | 0 <= k < |r| ensures p(r[k]) {
        if k >= |head| {
          assert r[k] == Walk(s[1..], f)[k - |head|];
        }
      }
    } else {
      assert Walk(s, f) == [];
    }
  }

  /** A walk that never skips emits one value per element up to the first
      stop, and ends there or at the end. */
  lemma {:induction false} WalkPrefix<T, U>(s: seq<T>, f: T -> Step<U>)
    requires forall i :: 0 <= i < |s| ==> !f(s[i]).Skip?
    ensures forall k :: 0 <= k < |Walk(s, f)| ==> f(s[k]) == Emit(Walk(s, f)[k])
    ensures |Walk(s, f)| == |s| || f(s[|Walk(s, f)|]).Stop?
  {
    if s != [] && f(s[0]).Emit? {
      WalkPrefix(s[1..], f);
      var r := Walk(s, f);
      assert r == [f(s[0]).value] + Walk(s[1..], f);
      forall k | 0 < k < |r| ensures f(s[k]) == Emit(r[k]) {
        assert s[1..][k - 1] == s[k];
      }
      if |r| < |s| {
        assert s[1..][|r| - 1] == s[|r|];
      }
    }
  }

  /** A stop hides everything after it: whatever precedes the stopping
      element, the walk is the walk of that prefix. */
  lemma {:induction false} WalkStopsAt<T, U>(a: seq<T>, e: T, b: seq<T>, f: T -> Step<U>)
    requires f(e).Stop?
    ensures Walk(a + [e] + b, f) == Walk(a, f)
  {
    var s := a + [e] + b;
    if a == [] {
      assert s[0] == e;
    } else {
      assert s[0] == a[0];
      assert s[1..] == a[1..] + [e] + b;
      WalkStopsAt(a[1..], e, b, f);
    }
  }

  /** `s` without the elements satisfying `p` at its front: a suffix of
      `s`, everything cut off satisfies `p`, and what is left does not
      start with such an element. */
  function DropFront<T>(s: seq<T>, p: T -> bool): (r: seq<T>)
    ensures |r| <= |s| && r == s[|s| - |r|..]
    ensures forall k :: 0 <= k < |s| - |r| ==> p(s[k])
    ensures r == [] || !p(r[0])
    ensures s == [] || !p(s[0]) ==> r == s
  {
    if s != [] && p(s[0]) then
      var r := DropFront(s[1..], p);
      assert forall k :: 1 <= k < |s| - |r| ==> s[k] == s[1..][k - 1];
      r
    else s
  }

  /** `s` without the elements satisfying `p` at its back: a prefix of
      `s`, everything cut off satisfies `p`, and what is left does not end
      with such an element. */
  function DropBack<T>(s: seq<T>, p: T -> bool): (r: seq<T>)
    ensures |r| <= |s| && r == s[..|r|]
    ensures forall k :: |r| <= k < |s| ==> p(s[k])
    ensures r == [] || !p(r[|r| - 1])
    ensures s == [] || !p(s[|s| - 1]) ==> r == s
  {
    if s != [] && p(s[|s| - 1]) then
      var r := DropBack(s[..|s| - 1], p);
      assert forall k :: |r| <= k < |s| - 1 ==> s[k] == s[..|s| - 1][k];
      r
    else s
  }

  /** Dropping at both ends leaves only elements satisfying `p` after the
      part kept. */
  lemma DropBothOutside<T>(s: seq<T>, p: T -> bool)
    ensures var t := DropFront(s, p);
      forall k :: |s| - |t| + |DropBack(t, p)| <= k < |s| ==> p(s[k])
  {
    var t := DropFront(s, p);
    var r := DropBack(t, p);
    var a := |s| - |t|;
    forall k | a + |r| <= k < |s| ensures p(s[k]) {
      assert s[k] == t[k - a];
    }
  }

  /** Every element mapped, or `None` when any one cannot be. */
  function All<T, U>(s: seq<T>, f: T -> Option<U>): (r: Option<seq<U>>)
    ensures r.Some? <==> forall k :: 0 <= k < |s| ==> f(s[k]).Some?
    ensures r.Some? ==> |r.value| == |s| && forall k :: 0 <= k < |s| ==> r.value[k] == f(s[k]).value
  {
    if s == [] then Some([])
    else
      var init := s[..|s| - 1];
      assert forall k :: 0 <= k < |init| ==> init[k] == s[k];
      match All(init, f)
      case None => None
      case Some(us) =>
        (match f(s[|s| - 1])
         case None => None
         case Some(u) => Some(us + [u]))
  }

  /** A loop step that maps `s[i]`: the prefix mapped so far grows by one,
      or the whole map fails. */
  lemma AllAdvance<T, U>(s: seq<T>, i: nat, f: T -> Option<U>, acc: seq<U>)
    requires i < |s| && All(s[..i], f) == Some(acc)
    ensures f(s[i]).None? ==> All(s, f).None?
    ensures f(s[i]).Some? ==> All(s[..i + 1], f) == Some(acc + [f(s[i]).value])
  {
    assert s[..i + 1][..i] == s[..i];
    assert s[..i + 1][i] == s[i];
  }
}
