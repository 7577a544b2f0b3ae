/** Python's `str.split(sep)` for a one-character separator, its inverse
    `sep.join(parts)`, and the two pieces the library keeps: the first
    (`split(sep)[0]`) and the last (`split(sep)[-1]`). Also the two-digit
    padding of date fields. */
module Strings {

  /** `s.split(sep)`: the maximal runs of `s` between separators. There is
      always at least one piece, and `""` splits into `[""]`. */
  function Split(s: string, sep: char): (r: seq<string>)
    ensures |r| >= 1
    ensures forall i :: 0 <= i < |r| ==> sep !in r[i]
    ensures |r| == 1 <==> sep !in s
    ensures sep !in s ==> r == [s]
  {
    if s == [] then [""]
    else
      var rest := Split(s[1..], sep);
      assert s == [s[0]] + s[1..];
      if s[0] == sep then [""] + rest
      else [[s[0]] + rest[0]] + rest[1..]
  }

  /** `sep.join(parts)`. */
  function Join(parts: seq<string>, sep: char): string
  {
    if parts == [] then ""
    else if |parts| == 1 then parts[0]
    else parts[0] + [sep] + Join(parts[1..], sep)
  }

  /** Prepending a character to the first piece prepends it to the joined text. */
  lemma JoinPrepend(c: char, parts: seq<string>, sep: char)
    requires |parts| >= 1
    ensures Join([[c] + parts[0]] + parts[1..], sep) == [c] + Join(parts, sep)
  {
    var q := [[c] + parts[0]] + parts[1..];
    assert q[0] == [c] + parts[0] && q[1..] == parts[1..];
  }

  /** Splitting and joining again gives back the text. */
  lemma {:induction false} JoinSplit(s: string, sep: char)
    ensures Join(Split(s, sep), sep) == s
  {
    if s != [] {
      var rest := Split(s[1..], sep);
      JoinSplit(s[1..], sep);
      assert s == [s[0]] + s[1..];
      if s[0] == sep {
        var r := [""] + rest;
        assert Split(s, sep) == r;
        assert r[0] == "" && r[1..] == rest;
      } else {
        assert Split(s, sep) == [[s[0]] + rest[0]] + rest[1..];
        JoinPrepend(s[0], rest, sep);
      }
    }
  }

  /** Joining separator-free pieces and splitting again gives back the pieces. */
  lemma {:induction false} SplitJoin(parts: seq<string>, sep: char)
    requires |parts| >= 1
    requires forall i :: 0 <= i < |parts| ==> sep !in parts[i]
    ensures Split(Join(parts, sep), sep) == parts
  {
    if |parts| > 1 {
      SplitJoin(parts[1..], sep);
      SplitAfterPrefix(parts[0], Join(parts[1..], sep), sep);
    }
  }

  /** A separator-free prefix followed by a separator becomes the first piece. */
  lemma {:induction false} SplitAfterPrefix(p: string, t: string, sep: char)
    requires sep !in p
    ensures Split(p + [sep] + t, sep) == [p] + Split(t, sep)
    decreases |p|
  {
    if p == [] {
      assert p + [sep] + t == [sep] + t;
      assert ([sep] + t)[1..] == t;
    } else {
      SplitAfterPrefix(p[1..], t, sep);
      assert (p + [sep] + t)[1..] == p[1..] + [sep] + t;
      assert [p[0]] + p[1..] == p;
    }
  }

  /** `s.split(sep)[0]`: the text before the first separator. */
  function First(s: string, sep: char): (r: string)
    ensures sep !in r
    ensures r <= s
    ensures r == s || s[|r|] == sep
  {
    FirstIsPrefix(s, sep);
    Split(s, sep)[0]
  }

  /** `s.split(sep)[-1]`: the text after the last separator. */
  function Last(s: string, sep: char): (r: string)
    ensures sep !in r
    ensures |r| <= |s| && r == s[|s| - |r|..]
    ensures r == s || s[|s| - |r| - 1] == sep
  {
    LastIsSuffix(s, sep);
    var parts := Split(s, sep);
    parts[|parts| - 1]
  }

  lemma {:induction false} FirstIsPrefix(s: string, sep: char)
    ensures Split(s, sep)[0] <= s
    ensures Split(s, sep)[0] == s || s[|Split(s, sep)[0]|] == sep
  {
    if s != [] && s[0] != sep {
      FirstIsPrefix(s[1..], sep);
    }
  }

  /** How the last piece of `s` relates to the last piece of `s[1..]`. */
  lemma SplitLastStep(s: string, sep: char)
    requires s != []
    ensures var parts := Split(s, sep);
      var rest := Split(s[1..], sep);
      (s[0] != sep && |rest| == 1 ==> parts[|parts| - 1] == s) &&
      (s[0] == sep || |rest| > 1 ==> parts[|parts| - 1] == rest[|rest| - 1])
  {
    assert s == [s[0]] + s[1..];
  }

  lemma {:induction false} LastIsSuffix(s: string, sep: char)
    ensures var parts := Split(s, sep);
      var r := parts[|parts| - 1];
      |r| <= |s| && r == s[|s| - |r|..] && (r == s || s[|s| - |r| - 1] == sep)
  {
    if s != [] {
      var t := s[1..];
      var rest := Split(t, sep);
      LastIsSuffix(t, sep);
      SplitLastStep(s, sep);
      var r := rest[|rest| - 1];
      if s[0] != sep && |rest| == 1 {
        assert s[|s| - |s|..] == s;
      } else {
        assert t[|t| - |r|..] == s[|s| - |r|..];
        if r == t {
          assert s[|s| - |r| - 1] == s[0];
        } else {
          assert s[|s| - |r| - 1] == t[|t| - |r| - 1];
        }
      }
    }
  }

  /** The first piece of `v + [sep] + t` is `v` when `v` has no separator. */
  lemma FirstOfPrefix(v: string, t: string, sep: char)
    requires sep !in v
    ensures First(v + [sep] + t, sep) == v
  {
    SplitAfterPrefix(v, t, sep);
  }

  /** The last piece of `p + [sep] + t` is `t` when `t` has no separator. */
  lemma LastOfSuffix(p: string, t: string, sep: char)
    requires sep !in t
    ensures Last(p + [sep] + t, sep) == t
  {
    var s := p + [sep] + t;
    var r := Last(s, sep);
    assert s[|p|] == sep;
    if |r| > |t| {
      assert false;
    }
    if |r| < |t| {
      assert false;
    }
  }

  /** A date field padded to two places, as `__formatDate` does: a field
      shorter than two characters gets one leading `'0'`, a longer one is
      returned as it is. */
  function ZeroPad(num: string): (r: string)
    ensures |num| < 2 ==> |r| == |num| + 1 && r[0] == '0'
    ensures |num| >= 2 ==> r == num
    ensures num == r[|r| - |num|..]
  {
    if |num| < 2 then "0" + num else num
  }

  /** A padded field of one or more characters is left alone by a second
      padding: it already has two places. */
  lemma ZeroPadIdempotent(num: string)
    requires |num| >= 1
    ensures ZeroPad(ZeroPad(num)) == ZeroPad(num)
    ensures |ZeroPad(num)| >= 2
  {
  }
}
