/**
 * String operations the handler relies on: Python's substring test `p in s`,
 * the decimal rendering of an integer inside an f-string, and lower-case
 * hexadecimal strings such as `uuid.UUID.hex` produces.
 */
module Strings {

  /** `p` occurs in `s` starting at index `i`: the reference meaning of "substring". */
  ghost predicate OccursAt(s: string, p: string, i: int) {
    0 <= i && i + |p| <= |s| && s[i..i + |p|] == p
  }

  /** Python's `p in s` for two strings, scanning `s` from the left. */
  function Contains(s: string, p: string): (r: bool)
    ensures r ==> |p| <= |s|
    decreases |s|
  {
    if |p| <= |s| && s[..|p|] == p then true
    else if |s| == 0 then false
    else Contains(s[1..], p)
  }

  /** The scan agrees with the reference definition, in both directions. */
  lemma {:induction false} ContainsIff(s: string, p: string)
    ensures Contains(s, p) <==> exists i :: OccursAt(s, p, i)
    decreases |s|
  {
    if |p| <= |s| && s[..|p|] == p {
      assert OccursAt(s, p, 0);
    } else if |s| == 0 {
    } else {
      ContainsIff(s[1..], p);
      if exists i :: OccursAt(s[1..], p, i) {
        var i :| OccursAt(s[1..], p, i);
        assert s[1..][i..i + |p|] == s[i + 1..i + 1 + |p|];
        assert OccursAt(s, p, i + 1);
      }
      if exists j :: OccursAt(s, p, j) {
        var j :| OccursAt(s, p, j);
        assert j != 0;
        assert s[1..][j - 1..j - 1 + |p|] == s[j..j + |p|];
        assert OccursAt(s[1..], p, j - 1);
      }
    }
  }

  /** A string that is written out between two others is found in the result. */
  lemma ContainsInfix(a: string, p: string, b: string)
    ensures Contains(a + p + b, p)
  {
    ContainsIff(a + p + b, p);
    assert (a + p + b)[|a|..|a| + |p|] == p;
    assert OccursAt(a + p + b, p, |a|);
  }

  /** Containment is transitive: a substring of a substring is a substring. */
  lemma ContainsTransitive(s: string, t: string, p: string)
    requires Contains(s, t) && Contains(t, p)
    ensures Contains(s, p)
  {
    ContainsIff(s, t);
    ContainsIff(t, p);
    ContainsIff(s, p);
    var i :| OccursAt(s, t, i);
    var j :| OccursAt(t, p, j);
    forall k | 0 <= k < |p|
      ensures s[i + j + k] == p[k]
    {
      assert t[j..j + |p|][k] == t[j + k] == s[i..i + |t|][j + k];
    }
    assert s[i + j..i + j + |p|] == p;
    assert OccursAt(s, p, i + j);
  }

  /** The lines of a text, joined with `\n` between them (a triple-quoted literal). */
  function JoinLines(lines: seq<string>): (r: string)
    ensures |lines| > 0 ==> |r| >= |lines[0]|
  {
    if |lines| == 0 then ""
    else if |lines| == 1 then lines[0]
    else lines[0] + "\n" + JoinLines(lines[1..])
  }

  /** Every line of a joined text occurs in it. */
  lemma {:induction false} JoinLinesContains(lines: seq<string>, k: nat)
    requires k < |lines|
    ensures Contains(JoinLines(lines), lines[k])
  {
    if |lines| == 1 {
      ContainsInfix("", lines[0], "");
      assert "" + lines[0] + "" == lines[0];
    } else if k == 0 {
      ContainsInfix("", lines[0], "\n" + JoinLines(lines[1..]));
      assert "" + lines[0] + ("\n" + JoinLines(lines[1..])) == JoinLines(lines);
    } else {
      var rest := JoinLines(lines[1..]);
      JoinLinesContains(lines[1..], k - 1);
      ContainsInfix(lines[0] + "\n", rest, "");
      assert lines[0] + "\n" + rest + "" == JoinLines(lines);
      ContainsTransitive(JoinLines(lines), rest, lines[k]);
    }
  }

  /** Whatever a line holds after its indentation occurs in the joined text. */
  lemma JoinLinesContainsIndented(lines: seq<string>, k: nat, indent: string, item: string)
    requires k < |lines| && lines[k] == indent + item
    ensures Contains(JoinLines(lines), item)
  {
    JoinLinesContains(lines, k);
    ContainsInfix(indent, item, "");
    assert indent + item + "" == lines[k];
    ContainsTransitive(JoinLines(lines), lines[k], item);
  }

  predicate IsDigit(c: char) {
    '0' <= c <= '9'
  }

  predicate IsLowerHex(s: string) {
    forall i :: 0 <= i < |s| ==> IsDigit(s[i]) || 'a' <= s[i] <= 'f'
  }

  function DigitChar(d: nat): (c: char)
    requires d < 10
    ensures IsDigit(c) && c as int - '0' as int == d
  {
    ('0' as int + d) as char
  }

  /** `str(n)` for a non-negative integer: decimal digits, no leading zero. */
  function Decimal(n: nat): (r: string)
    ensures |r| >= 1 && (|r| > 1 ==> r[0] != '0')
    ensures forall i :: 0 <= i < |r| ==> IsDigit(r[i])
    decreases n
  {
    if n < 10 then [DigitChar(n)] else Decimal(n / 10) + [DigitChar(n % 10)]
  }

  /** The value a string of decimal digits denotes (its reader, `int(s)`). */
  function DecimalValue(s: string): (v: nat)
    requires forall i :: 0 <= i < |s| ==> IsDigit(s[i])
  {
    if |s| == 0 then 0
    else
      assert IsDigit(s[|s| - 1]);
      DecimalValue(s[..|s| - 1]) * 10 + (s[|s| - 1] as int - '0' as int)
  }

  /** Reading back the decimal rendering gives the number. */
  lemma {:induction false} DecimalRoundTrip(n: nat)
    ensures DecimalValue(Decimal(n)) == n
    decreases n
  {
    if n >= 10 {
      var r := Decimal(n);
      DecimalRoundTrip(n / 10);
      assert r[..|r| - 1] == Decimal(n / 10);
    }
  }
}
