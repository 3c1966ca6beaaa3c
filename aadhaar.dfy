/** The Aadhaar input mask shared by the report form and the citizen login
    (ReportCrime.tsx and pages/Login.tsx, `formatAadhaar`): keep the digits;
    up to twelve digits are shown as groups of four separated by single
    spaces, more than twelve are shown bare. */
module Aadhaar {
  import opened Common
  import opened Text

  predicate AllDigits(s: string) {
    forall i :: 0 <= i < |s| ==> IsDigit(s[i])
  }

  /** The three groups `^(\d{0,4})(\d{0,4})(\d{0,4})$` captures: the greedy
      match gives each group four digits while digits remain. */
  function Groups(d: string): (r: seq<string>)
    requires |d| <= 12
    ensures |r| == 3 && r[0] + r[1] + r[2] == d
    ensures forall k :: 0 <= k < 3 ==> |r[k]| <= 4
  {
    var a := if |d| < 4 then |d| else 4;
    var b := if |d| < 8 then |d| else 8;
    assert d[..a] + d[a..b] + d[b..] == d;
    [d[..a], d[a..b], d[b..]]
  }

  /** The kept groups joined by single spaces:
      `[g1, g2, g3].filter(Boolean).join(' ')`. */
  function JoinGroups(d: string): string
    requires |d| <= 12
  {
    Join(Filter(Groups(d), (g: string) => g != []), " ")
  }

  /** `formatAadhaar(value)`. */
  function FormatAadhaar(value: string): (r: string)
    ensures |KeepDigits(value)| > 12 ==> r == KeepDigits(value)
  {
    var cleaned := KeepDigits(value);
    if |cleaned| > 12 then cleaned else JoinGroups(cleaned)
  }

  /** The grouping written out: four digits, a space, four digits, a space,
      the rest, with no group left empty. */
  function Spaced(d: string): string
    requires |d| <= 12
  {
    if |d| <= 4 then d
    else if |d| <= 8 then d[..4] + " " + d[4..]
    else d[..4] + " " + d[4..8] + " " + d[8..]
  }

  lemma FilterThree<T>(a: T, b: T, c: T, p: T -> bool)
    ensures Filter([a, b, c], p)
      == (if p(a) then [a] else []) + (if p(b) then [b] else []) + (if p(c) then [c] else [])
  {
    assert [a, b, c] == [a] + [b] + [c];
    FilterConcat([a] + [b], [c], p);
    FilterConcat([a], [b], p);
    FilterSingle(a, p);
    FilterSingle(b, p);
    FilterSingle(c, p);
  }

  lemma JoinTwo(a: string, b: string, sep: string)
    ensures Join([a, b], sep) == a + sep + b
  {
    assert [a, b][1..] == [b];
  }

  lemma JoinThree(a: string, b: string, c: string, sep: string)
    ensures Join([a, b, c], sep) == a + sep + b + sep + c
  {
    assert [a, b, c][1..] == [b, c];
    JoinTwo(b, c, sep);
  }

  /** The kept groups are the written-out grouping. */
  lemma JoinGroupsSpaced(d: string)
    requires |d| <= 12
    ensures JoinGroups(d) == Spaced(d)
  {
    var gs := Groups(d);
    FilterThree(gs[0], gs[1], gs[2], (g: string) => g != []);
    assert gs == [gs[0], gs[1], gs[2]];
    if |d| <= 4 {
      assert gs[1] == [] && gs[2] == [];
      var kept := Filter(gs, (g: string) => g != []);
      assert kept == (if d != [] then [d] else []) + [] + [];
    } else if |d| <= 8 {
      assert gs[0] == d[..4] && gs[1] == d[4..] && gs[2] == [];
      var kept := Filter(gs, (g: string) => g != []);
      assert kept == [d[..4]] + [d[4..]] + [];
      assert kept == [d[..4], d[4..]];
      JoinTwo(d[..4], d[4..], " ");
    } else {
      assert gs[0] == d[..4] && gs[1] == d[4..8] && gs[2] == d[8..];
      var kept := Filter(gs, (g: string) => g != []);
      assert kept == [d[..4]] + [d[4..8]] + [d[8..]];
      assert kept == [d[..4], d[4..8], d[8..]];
      JoinThree(d[..4], d[4..8], d[8..], " ");
    }
  }

  /** Up to twelve digits, the mask is exactly the written-out grouping. */
  lemma FormatAadhaarSpaced(value: string)
    requires |KeepDigits(value)| <= 12
    ensures FormatAadhaar(value) == Spaced(KeepDigits(value))
  {
    JoinGroupsSpaced(KeepDigits(value));
  }

  /** An empty field is shown empty. */
  lemma FormatAadhaarEmpty()
    ensures FormatAadhaar("") == ""
  {
    assert KeepDigits("") == "";
    FormatAadhaarSpaced("");
  }

  lemma DigitsKeptWhole(d: string)
    requires AllDigits(d)
    ensures KeepDigits(d) == d
    ensures RemoveWhitespace(d) == d
  {
    FilterKeepsAll(d, IsDigit);
    FilterKeepsAll(d, c => !IsWhitespace(c));
  }

  /** A filter that rejects the space drops the separator and nothing else. */
  lemma FilterAroundSpace(x: string, y: string, p: char -> bool)
    requires !p(' ')
    ensures Filter(x + " " + y, p) == Filter(x, p) + Filter(y, p)
  {
    FilterConcat(x + " ", y, p);
    FilterConcat(x, " ", p);
    FilterCons(' ', [], p);
  }

  /** A filter that keeps every digit of `d` but not the space undoes the
      grouping. */
  lemma SpacedFilter(d: string, p: char -> bool)
    requires |d| <= 12 && !p(' ')
    requires forall i :: 0 <= i < |d| ==> p(d[i])
    ensures Filter(Spaced(d), p) == d
  {
    if |d| <= 4 {
      FilterKeepsAll(d, p);
    } else if |d| <= 8 {
      var x, y := d[..4], d[4..];
      FilterSpacedPair(x, y, p);
      assert x + y == d;
    } else {
      var x, y, z := d[..4], d[4..8], d[8..];
      FilterSpacedPair(x, y, p);
      FilterAroundSpace(x + " " + y, z, p);
      FilterKeepsAll(z, p);
      assert x + y + z == d;
    }
  }

  /** Two kept groups around a space filter back to the two groups. */
  lemma FilterSpacedPair(x: string, y: string, p: char -> bool)
    requires !p(' ')
    requires forall i :: 0 <= i < |x| ==> p(x[i])
    requires forall i :: 0 <= i < |y| ==> p(y[i])
    ensures Filter(x + " " + y, p) == x + y
  {
    FilterKeepsAll(x, p);
    FilterKeepsAll(y, p);
    FilterAroundSpace(x, y, p);
  }

  /** Dropping the spaces from the grouping (or keeping only its digits)
      gives back the digits. */
  lemma SpacedStrips(d: string)
    requires |d| <= 12 && AllDigits(d)
    ensures KeepDigits(Spaced(d)) == d
    ensures RemoveWhitespace(Spaced(d)) == d
  {
    SpacedFilter(d, IsDigit);
    SpacedFilter(d, c => !IsWhitespace(c));
  }

  /** The mask only inserts spaces: removing the white space from it, or
      keeping only its digits, gives exactly the digits of the input. */
  lemma FormatAadhaarStrips(value: string)
    ensures RemoveWhitespace(FormatAadhaar(value)) == KeepDigits(value)
    ensures KeepDigits(FormatAadhaar(value)) == KeepDigits(value)
  {
    var d := KeepDigits(value);
    if |d| > 12 {
      DigitsKeptWhole(d);
    } else {
      FormatAadhaarSpaced(value);
      SpacedStrips(d);
    }
  }

  /** Formatting an already formatted value changes nothing. */
  lemma FormatAadhaarIdempotent(value: string)
    ensures FormatAadhaar(FormatAadhaar(value)) == FormatAadhaar(value)
  {
    FormatAadhaarStrips(value);
  }

  /** Up to twelve digits: digits in groups of four, single spaces exactly at
      positions 4 and 9, no leading or trailing space, and at most 14
      characters, the input field's `maxLength`. */
  lemma FormatAadhaarShape(value: string)
    requires |KeepDigits(value)| <= 12
    ensures var r, d := FormatAadhaar(value), KeepDigits(value);
      && |r| == |d| + (if |d| > 4 then 1 else 0) + (if |d| > 8 then 1 else 0)
      && |r| <= 14
      && (forall i :: 0 <= i < |r| ==> (r[i] == ' ' <==> i == 4 || i == 9))
      && (forall i :: 0 <= i < |r| ==> r[i] == ' ' || IsDigit(r[i]))
      && (r == [] || (r[0] != ' ' && r[|r| - 1] != ' '))
  {
    FormatAadhaarSpaced(value);
  }
}
