/** Display-name normalisation of a destination: a fixed chain of eight
    `str.replace` calls that fold typographic characters to ASCII or delete
    them, then `str.strip()`. */
module Names {
  import opened Sequences

  /** Python's `str.isspace()`: the characters `str.strip()` removes. */
  predicate IsSpace(c: char)
  {
    ('\t' <= c <= '\r') || ('\U{1C}' <= c <= '\U{1F}') || c == ' ' ||
    c == '\U{85}' || c == '\U{A0}' || c == '\U{1680}' ||
    ('\U{2000}' <= c <= '\U{200A}') || c == '\U{2028}' || c == '\U{2029}' ||
    c == '\U{202F}' || c == '\U{205F}' || c == '\U{3000}'
  }

  /** The eight characters of the table: right single quote, en dash, trade
      mark, bullet, registered sign, em dash, inverted exclamation mark and
      i with circumflex. */
  predicate InTable(c: char)
  {
    c == '\U{2019}' || c == '\U{2013}' || c == '\U{2122}' || c == '\U{2022}' ||
    c == '\U{AE}' || c == '\U{2014}' || c == '\U{A1}' || c == '\U{EE}'
  }

  /** `s.replace(c, t)` for a one-character `c`: every occurrence of `c`
      becomes `t`. */
  function Replace(s: string, c: char, t: string): (r: string)
    ensures c !in t ==> c !in r
  {
    var f := (x: char) => if x == c then t else [x];
    if c in t then Concat(s, f)
    else
      assert forall i :: 0 <= i < |s| ==> c !in f(s[i]);
      ConcatAvoids(s, f, c);
      Concat(s, f)
  }

  /** The constructor's replacements, in the order it applies them. */
  const Table: seq<(char, string)> := [
    ('\U{2019}', "'"), ('\U{2013}', "-"), ('\U{2122}', ""), ('\U{2022}', "-"),
    ('\U{AE}', ""), ('\U{2014}', "-"), ('\U{A1}', ""), ('\U{EE}', "i")]

  /** A chain of `replace` calls, applied one after the other. */
  function ReplaceAll(s: string, table: seq<(char, string)>): string
    decreases |table|
  {
    if table == [] then s else ReplaceAll(Replace(s, table[0].0, table[0].1), table[1..])
  }

  function ReplaceChain(s: string): string
  {
    ReplaceAll(s, Table)
  }

  /** The reference table, one character at a time. */
  function Fold(c: char): (r: string)
    ensures forall i :: 0 <= i < |r| ==> !InTable(r[i])
    ensures !InTable(c) ==> r == [c]
  {
    if c == '\U{2019}' then "'"
    else if c == '\U{2013}' || c == '\U{2022}' || c == '\U{2014}' then "-"
    else if c == '\U{2122}' || c == '\U{AE}' || c == '\U{A1}' then ""
    else if c == '\U{EE}' then "i"
    else [c]
  }

  function FoldAll(s: string): string
  {
    Concat(s, Fold)
  }

  /** `str.strip()`: `s` without its leading and trailing whitespace. The
      result is a prefix of the suffix of `s` that follows its leading
      whitespace, and everything outside it is whitespace. */
  function Strip(s: string): (r: string)
    ensures r <= DropFront(s, IsSpace) && DropFront(s, IsSpace) == s[|s| - |DropFront(s, IsSpace)|..]
    ensures forall k :: 0 <= k < |s| - |DropFront(s, IsSpace)| ==> IsSpace(s[k])
    ensures forall k :: |s| - |DropFront(s, IsSpace)| + |r| <= k < |s| ==> IsSpace(s[k])
    ensures r == [] || (!IsSpace(r[0]) && !IsSpace(r[|r| - 1]))
    ensures (s == [] || (!IsSpace(s[0]) && !IsSpace(s[|s| - 1]))) ==> r == s
  {
    DropBothOutside(s, IsSpace);
    DropBack(DropFront(s, IsSpace), IsSpace)
  }

  /** The normalised display name: it holds none of the eight table
      characters and has no surrounding whitespace. */
  function Normalize(name: string): (r: string)
    ensures forall i :: 0 <= i < |r| ==> !InTable(r[i])
    ensures r == [] || (!IsSpace(r[0]) && !IsSpace(r[|r| - 1]))
  {
    var folded := ReplaceChain(name);
    ChainIsFold(name);
    FoldAllClean(name);
    var r := Strip(folded);
    NoTableInStrip(folded);
    r
  }

  /** Stripping keeps only characters of its input. */
  lemma NoTableInStrip(s: string)
    requires forall i :: 0 <= i < |s| ==> !InTable(s[i])
    ensures forall i :: 0 <= i < |Strip(s)| ==> !InTable(Strip(s)[i])
  {
    var t := DropFront(s, IsSpace);
    var r := Strip(s);
    forall i | 0 <= i < |r| ensures !InTable(r[i]) {
      assert r[i] == t[i] == s[|s| - |t| + i];
    }
  }

  lemma {:induction false} ReplaceAppend(a: string, b: string, c: char, t: string)
    ensures Replace(a + b, c, t) == Replace(a, c, t) + Replace(b, c, t)
  {
    ConcatAppend(a, b, (x: char) => if x == c then t else [x]);
  }

  lemma ReplaceOne(x: char, c: char, t: string)
    ensures Replace([x], c, t) == if x == c then t else [x]
  {
    ConcatOne(x, (y: char) => if y == c then t else [y]);
  }

  lemma {:induction false} ReplaceAllAppend(a: string, b: string, table: seq<(char, string)>)
    ensures ReplaceAll(a + b, table) == ReplaceAll(a, table) + ReplaceAll(b, table)
    decreases |table|
  {
    if table != [] {
      ReplaceAppend(a, b, table[0].0, table[0].1);
      ReplaceAllAppend(Replace(a, table[0].0, table[0].1), Replace(b, table[0].0, table[0].1), table[1..]);
    }
  }

  /** Replacing a character the text does not hold changes nothing. */
  lemma {:induction false} ReplaceAbsent(s: string, c: char, t: string)
    requires c !in s
    ensures Replace(s, c, t) == s
  {
    if s != [] {
      assert s == [s[0]] + s[1..];
      ReplaceAppend([s[0]], s[1..], c, t);
      ReplaceOne(s[0], c, t);
      ReplaceAbsent(s[1..], c, t);
    }
  }

  /** A chain none of whose targets occurs in the text changes nothing. */
  lemma {:induction false} ReplaceAllAbsent(s: string, table: seq<(char, string)>)
    requires forall j :: 0 <= j < |table| ==> table[j].0 !in s
    ensures ReplaceAll(s, table) == s
    decreases |table|
  {
    if table != [] {
      ReplaceAbsent(s, table[0].0, table[0].1);
      assert forall j :: 0 <= j < |table[1..]| ==> table[1..][j] == table[j + 1];
      ReplaceAllAbsent(s, table[1..]);
    }
  }

  /** A character first targeted by entry `i` of a chain becomes that
      entry's replacement, provided no later entry targets a character of
      that replacement. */
  lemma {:induction false} ReplaceAllOne(x: char, table: seq<(char, string)>, i: nat)
    requires i < |table| && table[i].0 == x
    requires forall j :: 0 <= j < i ==> table[j].0 != x
    requires forall j :: i < j < |table| ==> table[j].0 !in table[i].1
    ensures ReplaceAll([x], table) == table[i].1
    decreases |table|
  {
    ReplaceOne(x, table[0].0, table[0].1);
    assert forall j :: 0 <= j < |table[1..]| ==> table[1..][j] == table[j + 1];
    if i == 0 {
      ReplaceAllAbsent(table[0].1, table[1..]);
    } else {
      ReplaceAllOne(x, table[1..], i - 1);
    }
  }

  /** The table's targets are the eight characters of `InTable`, each
      targeted once, and no replacement holds a later target. */
  lemma TableShape()
    ensures |Table| == 8
    ensures forall j :: 0 <= j < |Table| ==> InTable(Table[j].0)
    ensures forall i, j :: 0 <= i < j < |Table| ==> Table[i].0 != Table[j].0 && Table[j].0 !in Table[i].1
  {
  }

  /** A character outside the table passes through the chain unchanged. */
  lemma ChainOutside(x: char)
    requires !InTable(x)
    ensures ReplaceChain([x]) == [x]
  {
    TableShape();
    forall j | 0 <= j < |Table| ensures Table[j].0 !in [x] {
      assert InTable(Table[j].0);
    }
    ReplaceAllAbsent([x], Table);
  }

  /** Entry `i` of the table is what the chain makes of its target. */
  lemma ChainAt(i: nat, x: char, t: string)
    requires i < |Table| && Table[i] == (x, t)
    ensures ReplaceChain([x]) == t
  {
    TableShape();
    ReplaceAllOne(x, Table, i);
  }

  /** The chain maps one character as the table says. */
  lemma ChainOne(x: char)
    ensures ReplaceChain([x]) == Fold(x)
  {
    if x == '\U{2019}' {
      ChainAt(0, x, Fold(x));
    } else if x == '\U{2013}' {
      ChainAt(1, x, Fold(x));
    } else if x == '\U{2122}' {
      ChainAt(2, x, Fold(x));
    } else if x == '\U{2022}' {
      ChainAt(3, x, Fold(x));
    } else if x == '\U{AE}' {
      ChainAt(4, x, Fold(x));
    } else if x == '\U{2014}' {
      ChainAt(5, x, Fold(x));
    } else if x == '\U{A1}' {
      ChainAt(6, x, Fold(x));
    } else if x == '\U{EE}' {
      ChainAt(7, x, Fold(x));
    } else {
      ChainOutside(x);
    }
  }

  /** The chain of replacements is the table applied character by character:
      no replacement introduces a character that a later one replaces. */
  lemma {:induction false} ChainIsFold(s: string)
    ensures ReplaceChain(s) == FoldAll(s)
  {
    if s == [] {
      ReplaceAllAbsent(s, Table);
    } else {
      assert s == [s[0]] + s[1..];
      ReplaceAllAppend([s[0]], s[1..], Table);
      ChainOne(s[0]);
      ChainIsFold(s[1..]);
    }
  }

  /** Folded text holds none of the table's characters. */
  lemma {:induction false} FoldAllClean(s: string)
    ensures forall i :: 0 <= i < |FoldAll(s)| ==> !InTable(FoldAll(s)[i])
  {
    if s != [] {
      FoldAllClean(s[1..]);
      var r := FoldAll(s);
      assert r == Fold(s[0]) + FoldAll(s[1..]);
      forall i | 0 <= i < |r| ensures !InTable(r[i]) {
        if i >= |Fold(s[0])| {
          assert r[i] == FoldAll(s[1..])[i - |Fold(s[0])|];
        }
      }
    }
  }

  /** Folding leaves text without table characters as it is. */
  lemma {:induction false} FoldAllKeepsClean(s: string)
    requires forall i :: 0 <= i < |s| ==> !InTable(s[i])
    ensures FoldAll(s) == s
  {
    if s != [] {
      FoldAllKeepsClean(s[1..]);
      assert FoldAll(s) == Fold(s[0]) + FoldAll(s[1..]);
      assert s == [s[0]] + s[1..];
    }
  }

  /** A name of characters outside the table, without surrounding
      whitespace, is its own normal form. */
  lemma NormalizeKeepsClean(name: string)
    requires forall i :: 0 <= i < |name| ==> !InTable(name[i])
    requires name == [] || (!IsSpace(name[0]) && !IsSpace(name[|name| - 1]))
    ensures Normalize(name) == name
  {
    ChainIsFold(name);
    FoldAllKeepsClean(name);
  }

  /** Normalising twice is normalising once. */
  lemma NormalizeIdempotent(name: string)
    ensures Normalize(Normalize(name)) == Normalize(name)
  {
    NormalizeKeepsClean(Normalize(name));
  }
}
