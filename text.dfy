/** The JavaScript string operations the pages use, on `seq<char>`:
    `trim`, the regular-expression classes `\s` and `\d`, case mapping,
    `startsWith`, `includes`, `split`, `join`, `String(n)` and the
    code-point order that stands in for `localeCompare`. */
module Text {
  import opened Common
  import opened Sorting

  /** ECMAScript white space and line terminators: the class `\s` and what
      `trim` removes. */
  predicate IsWhitespace(c: char) {
    var n := c as int;
    || (0x09 <= n <= 0x0D) || n == 0x20 || n == 0xA0 || n == 0x1680
    || (0x2000 <= n <= 0x200A) || n == 0x2028 || n == 0x2029
    || n == 0x202F || n == 0x205F || n == 0x3000 || n == 0xFEFF
  }

  /** The class `\d`: ASCII digits only. */
  predicate IsDigit(c: char) {
    '0' <= c <= '9'
  }

  predicate IsBlank(s: string) {
    forall i :: 0 <= i < |s| ==> IsWhitespace(s[i])
  }

  /** `s.trimStart()`: drops the leading white space and nothing else. */
  function TrimStart(s: string): (r: string)
    ensures |r| <= |s| && r == s[|s| - |r|..]
    ensures r == [] || !IsWhitespace(r[0])
    ensures forall i :: 0 <= i < |s| - |r| ==> IsWhitespace(s[i])
  {
    if s != [] && IsWhitespace(s[0]) then
      var r := TrimStart(s[1..]);
      assert forall i :: 1 <= i < |s| ==> s[i] == s[1..][i - 1];
      r
    else s
  }

  /** `s.trimEnd()`: drops the trailing white space and nothing else. */
  function TrimEnd(s: string): (r: string)
    ensures |r| <= |s| && r == s[..|r|]
    ensures r == [] || !IsWhitespace(r[|r| - 1])
    ensures forall i :: |r| <= i < |s| ==> IsWhitespace(s[i])
  {
    if s != [] && IsWhitespace(s[|s| - 1]) then
      var r := TrimEnd(s[..|s| - 1]);
      assert forall i :: 0 <= i < |s| - 1 ==> s[i] == s[..|s| - 1][i];
      r
    else s
  }

  /** `s.trim()`. */
  function Trim(s: string): string {
    TrimEnd(TrimStart(s))
  }

  /** A string trims to nothing exactly when it is all white space. */
  lemma TrimEmptyIffBlank(s: string)
    ensures Trim(s) == [] <==> IsBlank(s)
  {
    var t := TrimStart(s);
    assert t != [] ==> t[0] == s[|s| - |t|];
  }

  /** The trimmed string neither starts nor ends with white space. */
  lemma TrimEnds(s: string)
    ensures Trim(s) == [] || (!IsWhitespace(Trim(s)[0]) && !IsWhitespace(Trim(s)[|Trim(s)| - 1]))
  {
    var t := TrimStart(s);
    var r := TrimEnd(t);
    if r != [] {
      assert r[0] == t[0];
    }
  }

  /** `trim` is the identity on a string that neither starts nor ends with
      white space. */
  lemma TrimOfTrimmed(t: string)
    requires IsTrimmedWord(t)
    ensures Trim(t) == t
  {
  }

  /** A string that is non-empty and neither starts nor ends with white
      space: what `trim` returns for any non-blank input. */
  predicate IsTrimmedWord(t: string) {
    t != [] && !IsWhitespace(t[0]) && !IsWhitespace(t[|t| - 1])
  }

  /** `trimStart` drops a leading white-space character and goes on. */
  lemma TrimStartStep(s: string)
    requires s != [] && IsWhitespace(s[0])
    ensures TrimStart(s) == TrimStart(s[1..])
  {
  }

  /** `trimEnd` drops a trailing white-space character and goes on. */
  lemma TrimEndStep(s: string)
    requires s != [] && IsWhitespace(s[|s| - 1])
    ensures TrimEnd(s) == TrimEnd(s[..|s| - 1])
  {
  }

  lemma {:induction false} TrimStartBlank(p: string, u: string)
    requires IsBlank(p) && (u == [] || !IsWhitespace(u[0]))
    ensures TrimStart(p + u) == u
  {
    if p == [] {
      assert p + u == u;
    } else {
      var s := p + u;
      assert s[0] == p[0] && s[1..] == p[1..] + u;
      assert IsBlank(p[1..]) by {
        forall i | 0 <= i < |p[1..]| ensures IsWhitespace(p[1..][i]) {
          assert p[1..][i] == p[i + 1];
        }
      }
      TrimStartBlank(p[1..], u);
      TrimStartStep(s);
    }
  }

  lemma {:induction false} TrimEndBlank(u: string, q: string)
    requires IsBlank(q) && (u == [] || !IsWhitespace(u[|u| - 1]))
    ensures TrimEnd(u + q) == u
  {
    if q == [] {
      assert u + q == u;
    } else {
      var n := |q| - 1;
      var s := u + q;
      assert s[|s| - 1] == q[n] && s[..|s| - 1] == u + q[..n];
      assert IsBlank(q[..n]) by {
        forall i | 0 <= i < n ensures IsWhitespace(q[..n][i]) {
          assert q[..n][i] == q[i];
        }
      }
      TrimEndBlank(u, q[..n]);
      TrimEndStep(s);
    }
  }

  /** Leading white space in front of a trimmed word is all `trimStart` takes. */
  lemma {:induction false} TrimStartPadded(p: string, t: string, q: string)
    requires IsBlank(p) && IsTrimmedWord(t)
    ensures TrimStart(p + t + q) == t + q
  {
    var tq := t + q;
    assert tq[0] == t[0];
    TrimStartBlank(p, tq);
    ConcatAssoc(p, t, q);
  }

  /** `trim` takes off any white space around a trimmed word, and nothing
      more. */
  lemma {:induction false} TrimBlankPadding(p: string, t: string, q: string)
    requires IsBlank(p) && IsBlank(q) && IsTrimmedWord(t)
    ensures Trim(p + t + q) == t
  {
    TrimStartPadded(p, t, q);
    TrimEndBlank(t, q);
  }

  function LowerChar(c: char): char {
    if 'A' <= c <= 'Z' then (c as int + 32) as char else c
  }

  function UpperChar(c: char): char {
    if 'a' <= c <= 'z' then (c as int - 32) as char else c
  }

  /** `s.toLowerCase()`, for the ASCII letters. */
  function ToLower(s: string): string {
    seq(|s|, i requires 0 <= i < |s| => LowerChar(s[i]))
  }

  /** `s.toUpperCase()`, for the ASCII letters. */
  function ToUpper(s: string): string {
    seq(|s|, i requires 0 <= i < |s| => UpperChar(s[i]))
  }

  /** `s.replace(/\D/g, '')`. */
  function KeepDigits(s: string): string {
    Filter(s, IsDigit)
  }

  /** `s.replace(/\s/g, '')`. */
  function RemoveWhitespace(s: string): string {
    Filter(s, c => !IsWhitespace(c))
  }

  /** `s.startsWith(prefix)`. */
  predicate StartsWith(s: string, prefix: string) {
    prefix <= s
  }

  /** `haystack.includes(needle)`, by scanning the start positions. */
  predicate Includes(haystack: string, needle: string) {
    needle <= haystack || (haystack != [] && Includes(haystack[1..], needle))
  }

  /** `needle` occurs in `haystack` starting at position `i`. */
  predicate OccursAt(haystack: string, needle: string, i: int) {
    0 <= i && i + |needle| <= |haystack| && haystack[i..i + |needle|] == needle
  }

  /** Where `includes` succeeds, the needle occurs at some position. */
  lemma {:induction false} IncludesWitness(haystack: string, needle: string) returns (i: nat)
    requires Includes(haystack, needle)
    ensures OccursAt(haystack, needle, i)
  {
    if needle <= haystack {
      i := 0;
    } else {
      var j := IncludesWitness(haystack[1..], needle);
      i := j + 1;
      assert haystack[1..][j..j + |needle|] == haystack[i..i + |needle|];
    }
  }

  /** An occurrence at any position is found by `includes`. */
  lemma {:induction false} OccursIncludes(haystack: string, needle: string, i: int)
    requires OccursAt(haystack, needle, i)
    ensures Includes(haystack, needle)
  {
    if i > 0 {
      assert haystack[1..][i - 1..i - 1 + |needle|] == haystack[i..i + |needle|];
      OccursIncludes(haystack[1..], needle, i - 1);
    }
  }

  /** `includes` finds `needle` exactly when it occurs at some position. */
  lemma IncludesIff(haystack: string, needle: string)
    ensures Includes(haystack, needle) <==> exists i :: OccursAt(haystack, needle, i)
  {
    if Includes(haystack, needle) {
      var i := IncludesWitness(haystack, needle);
    }
    if exists i :: OccursAt(haystack, needle, i) {
      var i :| OccursAt(haystack, needle, i);
      OccursIncludes(haystack, needle, i);
    }
  }

  /** Every string includes the empty string. */
  lemma IncludesEmpty(haystack: string)
    ensures Includes(haystack, "")
  {
  }

  /** `s.split(sep)` for a one-character separator: the pieces between
      separators, empty pieces included, and always at least one piece. */
  function Split(s: string, sep: char): (r: seq<string>)
    ensures |r| >= 1
    ensures forall i :: 0 <= i < |r| ==> sep !in r[i]
  {
    if s == [] then [""]
    else if s[0] == sep then [""] + Split(s[1..], sep)
    else
      var rest := Split(s[1..], sep);
      [[s[0]] + rest[0]] + rest[1..]
  }

  /** `parts.join(sep)`. */
  function Join(parts: seq<string>, sep: string): string {
    if parts == [] then ""
    else if |parts| == 1 then parts[0]
    else parts[0] + sep + Join(parts[1..], sep)
  }

  /** Joining the pieces of a split with the separator gives back the input. */
  lemma {:induction false} JoinSplit(s: string, sep: char)
    ensures Join(Split(s, sep), [sep]) == s
  {
    if s == [] {
    } else if s[0] == sep {
      JoinSplit(s[1..], sep);
      assert s == [sep] + s[1..];
    } else {
      JoinSplit(s[1..], sep);
      var rest := Split(s[1..], sep);
      assert s == [s[0]] + s[1..];
      if |rest| == 1 {
      } else {
        assert Join(rest, [sep]) == rest[0] + [sep] + Join(rest[1..], [sep]);
      }
    }
  }

  /** Splitting a string with a separator-free head `p` gives `p` and then the
      pieces of what follows the first separator. */
  lemma {:induction false} SplitAfterHead(p: string, sep: char, e: string)
    requires sep !in p
    ensures Split(p + [sep] + e, sep) == [p] + Split(e, sep)
  {
    if p == [] {
      assert p + [sep] + e == [sep] + e;
      assert ([sep] + e)[1..] == e;
    } else {
      SplitAfterHead(p[1..], sep, e);
      assert (p + [sep] + e)[1..] == p[1..] + [sep] + e;
      assert [p[0]] + p[1..] == p;
    }
  }

  /** A string without the separator splits into itself alone. */
  lemma {:induction false} SplitNoSeparator(s: string, sep: char)
    requires sep !in s
    ensures Split(s, sep) == [s]
  {
    if s != [] {
      SplitNoSeparator(s[1..], sep);
      assert [s[0]] + s[1..] == s;
    }
  }

  /** The first piece of a split is the text before the first separator. */
  lemma {:induction false} SplitFirstPiece(s: string, sep: char, k: nat)
    requires k <= |s| && sep !in s[..k] && (k == |s| || s[k] == sep)
    ensures Split(s, sep)[0] == s[..k]
  {
    if k > 0 {
      SplitFirstPiece(s[1..], sep, k - 1);
      assert s[..k] == [s[0]] + s[1..][..k - 1];
    }
  }

  function DigitChar(d: nat): char
    requires d < 10
  {
    ('0' as int + d) as char
  }

  /** `String(n)` for a non-negative integer: its decimal digits. */
  function NatToDecimal(n: nat): (r: string)
    ensures |r| >= 1
    ensures forall i :: 0 <= i < |r| ==> IsDigit(r[i])
    ensures |r| > 1 ==> r[0] != '0'
  {
    if n < 10 then [DigitChar(n)] else NatToDecimal(n / 10) + [DigitChar(n % 10)]
  }

  function DigitValue(c: char): nat
    requires IsDigit(c)
  {
    c as int - '0' as int
  }

  /** The number a string of decimal digits denotes. */
  function DecimalValue(s: string): nat
    requires forall i :: 0 <= i < |s| ==> IsDigit(s[i])
  {
    if s == [] then 0 else 10 * DecimalValue(s[..|s| - 1]) + DigitValue(s[|s| - 1])
  }

  /** Reading back the digits of `String(n)` gives `n`. */
  lemma {:induction false} DecimalRoundTrip(n: nat)
    ensures DecimalValue(NatToDecimal(n)) == n
  {
    if n >= 10 {
      DecimalRoundTrip(n / 10);
      var r := NatToDecimal(n);
      assert r[..|r| - 1] == NatToDecimal(n / 10);
    }
  }

  /** Code-point lexicographic comparison, standing in for `localeCompare`. */
  function LexCompare(a: string, b: string): (r: int)
    ensures -1 <= r <= 1
  {
    if a == [] && b == [] then 0
    else if a == [] then -1
    else if b == [] then 1
    else if a[0] < b[0] then -1
    else if a[0] > b[0] then 1
    else LexCompare(a[1..], b[1..])
  }

  /** Swapping the operands negates the comparison. */
  lemma {:induction false} LexCompareAntisymmetric(a: string, b: string)
    ensures LexCompare(a, b) == -LexCompare(b, a)
  {
    if a != [] && b != [] && a[0] == b[0] {
      LexCompareAntisymmetric(a[1..], b[1..]);
    }
  }

  /** Only equal strings compare equal. */
  lemma {:induction false} LexCompareZero(a: string, b: string)
    ensures LexCompare(a, b) == 0 <==> a == b
  {
    if a != [] && b != [] && a[0] == b[0] {
      LexCompareZero(a[1..], b[1..]);
      assert a == [a[0]] + a[1..] && b == [b[0]] + b[1..];
    }
  }

  lemma {:induction false} LexCompareTransitive(a: string, b: string, c: string)
    requires LexCompare(a, b) <= 0 && LexCompare(b, c) <= 0
    ensures LexCompare(a, c) <= 0
  {
    if a != [] && b != [] && c != [] && a[0] == b[0] && b[0] == c[0] {
      LexCompareTransitive(a[1..], b[1..], c[1..]);
    }
  }

  /** The code-point order is a total order on strings. */
  lemma LexCompareValid()
    ensures ValidComparator(LexCompare)
    ensures forall a, b :: Tie(LexCompare, a, b) <==> a == b
  {
    forall a, b ensures LexCompare(a, b) <= 0 || LexCompare(b, a) <= 0 {
      LexCompareAntisymmetric(a, b);
    }
    forall a, b, c | LexCompare(a, b) <= 0 && LexCompare(b, c) <= 0
      ensures LexCompare(a, c) <= 0
    {
      LexCompareTransitive(a, b, c);
    }
    forall a, b ensures Tie(LexCompare, a, b) <==> a == b {
      LexCompareAntisymmetric(a, b);
      LexCompareZero(a, b);
    }
  }
}
