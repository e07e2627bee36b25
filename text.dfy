/** Text helpers whose exact behaviour the client depends on: the two whitespace
    classes (ECMAScript `String.prototype.trim` and .NET `char.IsWhiteSpace`),
    `startsWith`, `includes`, `split`, LINQ `Distinct`, and decimal numerals. */
module Text {
  import opened Wrappers

  // ---------------------------------------------------------------------------
  // Whitespace

  /** The ECMAScript WhiteSpace and LineTerminator code points removed by `trim()`. */
  predicate IsJsWhitespace(c: char) {
    ('\t' <= c <= '\r') || c == ' ' || c == '\U{A0}' || c == '\U{1680}'
    || ('\U{2000}' <= c <= '\U{200A}')
    || c == '\U{2028}' || c == '\U{2029}' || c == '\U{202F}' || c == '\U{205F}'
    || c == '\U{3000}' || c == '\U{FEFF}'
  }

  /** .NET `char.IsWhiteSpace`: categories Zs, Zl, Zp plus U+0009..U+000D and U+0085.
      Unlike ECMAScript it includes U+0085 and excludes U+FEFF. */
  predicate IsDotNetWhitespace(c: char) {
    ('\t' <= c <= '\r') || c == ' ' || c == '\U{85}' || c == '\U{A0}' || c == '\U{1680}'
    || ('\U{2000}' <= c <= '\U{200A}')
    || c == '\U{2028}' || c == '\U{2029}' || c == '\U{202F}' || c == '\U{205F}'
    || c == '\U{3000}'
  }

  predicate AllJsWhitespace(s: string) {
    forall i :: 0 <= i < |s| ==> IsJsWhitespace(s[i])
  }

  /** `string.IsNullOrWhiteSpace` for a non-null string. */
  predicate IsWhiteSpaceOnly(s: string) {
    forall i :: 0 <= i < |s| ==> IsDotNetWhitespace(s[i])
  }

  /** `s` without its leading ECMAScript whitespace. */
  function TrimStart(s: string): (r: string)
    ensures |r| <= |s|
  {
    if s != [] && IsJsWhitespace(s[0]) then TrimStart(s[1..]) else s
  }

  /** What `TrimStart` keeps is a suffix starting with a non-whitespace
      character, and what it drops is all whitespace. */
  lemma {:induction false} TrimStartSpec(s: string)
    ensures var r := TrimStart(s);
      r == s[|s| - |r|..] && (r == [] || !IsJsWhitespace(r[0])) && AllJsWhitespace(s[..|s| - |r|])
  {
    if s != [] && IsJsWhitespace(s[0]) {
      TrimStartSpec(s[1..]);
      var r := TrimStart(s[1..]);
      assert s[..|s| - |r|] == [s[0]] + s[1..][..|s[1..]| - |r|];
    }
  }

  /** `s` without its trailing ECMAScript whitespace. */
  function TrimEnd(s: string): (r: string)
    ensures |r| <= |s|
  {
    if s != [] && IsJsWhitespace(s[|s| - 1]) then TrimEnd(s[..|s| - 1]) else s
  }

  /** What `TrimEnd` keeps is a prefix ending with a non-whitespace character,
      and what it drops is all whitespace. */
  lemma {:induction false} TrimEndSpec(s: string)
    ensures var r := TrimEnd(s);
      r == s[..|r|] && (r == [] || !IsJsWhitespace(r[|r| - 1])) && AllJsWhitespace(s[|r|..])
  {
    if s != [] && IsJsWhitespace(s[|s| - 1]) {
      TrimEndSpec(s[..|s| - 1]);
      var r := TrimEnd(s[..|s| - 1]);
      assert s[|r|..] == s[..|s| - 1][|r|..] + [s[|s| - 1]];
    }
  }

  /** ECMAScript `s.trim()`. */
  function TrimJs(s: string): string {
    TrimEnd(TrimStart(s))
  }

  /** The trimmed text neither starts nor ends with whitespace. */
  lemma TrimJsSpec(s: string)
    ensures var r := TrimJs(s);
      r == [] || (!IsJsWhitespace(r[0]) && !IsJsWhitespace(r[|r| - 1]))
  {
    var t := TrimStart(s);
    TrimStartSpec(s);
    TrimEndSpec(t);
    var r := TrimEnd(t);
    if r != [] {
      assert r[0] == t[0];
    }
  }

  /** `s.trim()` is empty (falsy) exactly when every character of `s` is whitespace. */
  lemma TrimEmptyIffBlank(s: string)
    ensures TrimJs(s) == [] <==> AllJsWhitespace(s)
  {
    var t := TrimStart(s);
    TrimStartSpec(s);
    TrimEndSpec(t);
    if TrimJs(s) == [] {
      assert AllJsWhitespace(t[0..]);
      assert t == [];
      forall i | 0 <= i < |s| ensures IsJsWhitespace(s[i]) {
        assert s[i] == s[..|s| - |t|][i];
      }
    }
  }

  /** Trimming keeps a contiguous middle part of the text. */
  lemma TrimIsInfix(s: string)
    ensures exists i, j :: 0 <= i <= j <= |s| && TrimJs(s) == s[i..j]
  {
    var t := TrimStart(s);
    var r := TrimEnd(t);
    TrimStartSpec(s);
    TrimEndSpec(t);
    var i := |s| - |t|;
    assert t == s[i..];
    assert r == t[..|r|] == s[i..i + |r|];
  }

  // ---------------------------------------------------------------------------
  // Prefixes, containment, splitting

  predicate StartsWith(s: string, prefix: string) {
    |prefix| <= |s| && s[..|prefix|] == prefix
  }

  /** ECMAScript `s.includes(sub)`. */
  predicate Contains(s: string, sub: string)
    decreases |s|
  {
    StartsWith(s, sub) || (s != [] && Contains(s[1..], sub))
  }

  lemma ContainsAt(s: string, sub: string, i: nat)
    requires i + |sub| <= |s| && s[i..i + |sub|] == sub
    ensures Contains(s, sub)
    decreases i
  {
    if i > 0 {
      assert s[1..][i - 1..i - 1 + |sub|] == s[i..i + |sub|];
      ContainsAt(s[1..], sub, i - 1);
    }
  }

  lemma ContainsInfix(a: string, sub: string, b: string)
    ensures Contains(a + sub + b, sub)
  {
    ContainsAt(a + sub + b, sub, |a|);
  }

  /** ECMAScript `s.split(sep)` for a one-character separator: always at least one
      piece, and an empty string gives the single piece "". */
  function Split(s: string, sep: char): (parts: seq<string>)
    ensures |parts| >= 1
    decreases |s|
  {
    if s == [] then [""]
    else
      var rest := Split(s[1..], sep);
      if s[0] == sep then [""] + rest else [[s[0]] + rest[0]] + rest[1..]
  }

  /** `parts.join(sep)`. */
  function Join(parts: seq<string>, sep: char): string
  {
    if parts == [] then ""
    else if |parts| == 1 then parts[0]
    else parts[0] + [sep] + Join(parts[1..], sep)
  }

  predicate FreeOf(parts: seq<string>, sep: char) {
    forall k :: 0 <= k < |parts| ==> sep !in parts[k]
  }

  /** No piece of a split holds the separator, and joining the pieces restores the text. */
  lemma {:induction false} SplitJoin(s: string, sep: char)
    ensures FreeOf(Split(s, sep), sep)
    ensures Join(Split(s, sep), sep) == s
    decreases |s|
  {
    if s != [] {
      var rest := Split(s[1..], sep);
      SplitJoin(s[1..], sep);
      if s[0] == sep {
        assert Join([""] + rest, sep) == "" + [sep] + Join(rest, sep);
      } else {
        var parts := [[s[0]] + rest[0]] + rest[1..];
        assert parts[1..] == rest[1..];
        if |rest| == 1 {
          assert Join(parts, sep) == [s[0]] + rest[0];
        } else {
          assert Join(rest, sep) == rest[0] + [sep] + Join(rest[1..], sep);
        }
        assert sep !in parts[0];
      }
    }
  }

  /** Conversely, splitting the join of separator-free pieces gives the pieces back. */
  lemma {:induction false} JoinSplit(parts: seq<string>, sep: char)
    requires |parts| >= 1 && FreeOf(parts, sep)
    ensures Split(Join(parts, sep), sep) == parts
    decreases |parts|, |parts[0]|
  {
    var p := parts[0];
    if p == [] {
      if |parts| > 1 {
        var s := Join(parts, sep);
        assert s == [sep] + Join(parts[1..], sep);
        assert s[1..] == Join(parts[1..], sep);
        JoinSplit(parts[1..], sep);
      }
    } else {
      var q := [p[1..]] + parts[1..];
      assert sep !in q[0] by { assert forall c :: c in p[1..] ==> c in p; }
      JoinSplit(q, sep);
      var s := Join(parts, sep);
      if |parts| == 1 {
        assert s[1..] == Join(q, sep);
      } else {
        assert s == p + [sep] + Join(parts[1..], sep);
        assert Join(q, sep) == p[1..] + [sep] + Join(parts[1..], sep);
        assert s[1..] == Join(q, sep);
      }
      assert s[0] == p[0] && p[0] != sep;
      assert [p[0]] + p[1..] == p;
    }
  }

  /** The concatenation of a sequence of strings (the `+=` fold). */
  function Concat(parts: seq<string>): string
  {
    if parts == [] then "" else Concat(parts[..|parts| - 1]) + parts[|parts| - 1]
  }

  lemma {:induction false} ConcatAppend(a: seq<string>, b: seq<string>)
    ensures Concat(a + b) == Concat(a) + Concat(b)
    decreases |b|
  {
    if b != [] {
      assert (a + b)[..|a + b| - 1] == a + b[..|b| - 1];
      ConcatAppend(a, b[..|b| - 1]);
    } else {
      assert a + b == a;
    }
  }

  // ---------------------------------------------------------------------------
  // Order-preserving de-duplication (`Array.from(new Set(xs))`, LINQ `Distinct()`)

  predicate NoDuplicates<T(==)>(s: seq<T>) {
    forall i, j :: 0 <= i < j < |s| ==> s[i] != s[j]
  }

  /** The position of the first occurrence of `x` in `s`. */
  function FirstIndex<T(==)>(s: seq<T>, x: T): (k: nat)
    requires x in s
    ensures k < |s| && s[k] == x && x !in s[..k]
  {
    if s[0] == x then 0 else 1 + FirstIndex(s[1..], x)
  }

  /** Keeps the first occurrence of every element, in order. */
  function Dedup<T(==)>(s: seq<T>): (r: seq<T>)
  {
    if s == [] then []
    else
      var r := Dedup(s[..|s| - 1]);
      if s[|s| - 1] in r then r else r + [s[|s| - 1]]
  }

  /** `Dedup` keeps exactly the elements of its input, each once, ordered by first occurrence. */
  lemma {:induction false} DedupSpec<T>(s: seq<T>)
    ensures NoDuplicates(Dedup(s))
    ensures forall x :: x in Dedup(s) <==> x in s
    ensures forall i, j :: 0 <= i < j < |Dedup(s)| ==> FirstIndex(s, Dedup(s)[i]) < FirstIndex(s, Dedup(s)[j])
    decreases |s|
  {
    if s != [] {
      var p := s[..|s| - 1];
      var x := s[|s| - 1];
      DedupSpec(p);
      var r := Dedup(p);
      forall y | y in p ensures FirstIndex(s, y) == FirstIndex(p, y) {
        FirstIndexPrefix(p, x, y);
      }
      assert s == p + [x];
      if x !in r {
        assert x !in p;
        forall i | 0 <= i < |r| ensures FirstIndex(s, r[i]) < FirstIndex(s, x) {
          assert FirstIndex(s, x) == |p| by { FirstIndexLast(p, x); }
        }
      }
    }
  }

  lemma FirstIndexPrefix<T>(p: seq<T>, x: T, y: T)
    requires y in p
    ensures FirstIndex(p + [x], y) == FirstIndex(p, y)
  {
    if p[0] != y {
      assert (p + [x])[1..] == p[1..] + [x];
      FirstIndexPrefix(p[1..], x, y);
    }
  }

  lemma FirstIndexLast<T>(p: seq<T>, x: T)
    requires x !in p
    ensures FirstIndex(p + [x], x) == |p|
  {
    if p != [] {
      assert (p + [x])[1..] == p[1..] + [x];
      FirstIndexLast(p[1..], x);
    }
  }

  /** A list without duplicates is left as it is. */
  lemma {:induction false} DedupOfDistinct<T>(s: seq<T>)
    requires NoDuplicates(s)
    ensures Dedup(s) == s
    decreases |s|
  {
    if s != [] {
      var p := s[..|s| - 1];
      DedupOfDistinct(p);
      DedupSpec(p);
      assert s[|s| - 1] !in p;
      assert p + [s[|s| - 1]] == s;
    }
  }

  // ---------------------------------------------------------------------------
  // Decimal numerals

  function DigitChar(d: nat): char
    requires d < 10
  {
    ('0' as int + d) as char
  }

  predicate IsDigit(c: char) {
    '0' <= c <= '9'
  }

  /** The decimal numeral of `n`, without leading zeros. */
  function Decimal(n: nat): (s: string)
    ensures |s| >= 1 && forall i :: 0 <= i < |s| ==> IsDigit(s[i])
  {
    if n < 10 then [DigitChar(n)] else Decimal(n / 10) + [DigitChar(n % 10)]
  }

  function DigitsValue(s: string): nat
    requires forall i :: 0 <= i < |s| ==> IsDigit(s[i])
  {
    if s == [] then 0
    else
      assert IsDigit(s[|s| - 1]);
      DigitsValue(s[..|s| - 1]) * 10 + (s[|s| - 1] as int - '0' as int)
  }

  /** Reads a decimal numeral; anything but a non-empty digit string is rejected. */
  function ParseDecimal(s: string): Option<nat>
  {
    if s != [] && forall i :: 0 <= i < |s| ==> IsDigit(s[i]) then Some(DigitsValue(s)) else None
  }

  lemma {:induction false} DecimalRoundTrip(n: nat)
    ensures ParseDecimal(Decimal(n)) == Some(n)
    decreases n
  {
    DecimalValue(n);
  }

  lemma {:induction false} DecimalValue(n: nat)
    ensures DigitsValue(Decimal(n)) == n
    decreases n
  {
    var s := Decimal(n);
    if n < 10 {
      assert s[..0] == [];
    } else {
      DecimalValue(n / 10);
      assert s[..|s| - 1] == Decimal(n / 10);
    }
  }
}
