/**
 * The few string operations the core relies on: case folding (`str.lower`),
 * the substring test (`keyword in text`) and decimal rendering of a
 * non-negative integer (as an f-string does it).
 */
module Text {

  /** Case folding of one character; only the ASCII letters A..Z are folded. */
  function LowerChar(c: char): (d: char)
    ensures !('A' <= d <= 'Z')
    ensures !('A' <= c <= 'Z') ==> d == c
    ensures 'A' <= c <= 'Z' ==> 'a' <= d <= 'z' && d as int - c as int == 'a' as int - 'A' as int
  {
    if 'A' <= c <= 'Z' then (c as int - 'A' as int + 'a' as int) as char else c
  }

  /** `s.lower()`, character by character. */
  function Lower(s: string): (t: string)
  {
    seq(|s|, i requires 0 <= i < |s| => LowerChar(s[i]))
  }

  /** Lowering keeps the length, leaves no upper-case letter and is idempotent. */
  lemma LowerFacts(s: string)
    ensures |Lower(s)| == |s|
    ensures forall i :: 0 <= i < |s| ==> !('A' <= Lower(s)[i] <= 'Z')
    ensures Lower(Lower(s)) == Lower(s)
  {
    forall i | 0 <= i < |s|
      ensures Lower(Lower(s))[i] == Lower(s)[i]
    {
      var c := Lower(s)[i];
      assert !('A' <= c <= 'Z');
      assert LowerChar(c) == c;
    }
  }

  /** `k` occurs in `s` starting at index `i`. */
  ghost predicate OccursAt(k: string, s: string, i: int)
  {
    0 <= i && i + |k| <= |s| && s[i..i + |k|] == k
  }

  /** Python's `k in s` on strings: does `k` occur as a contiguous substring of `s`? */
  function Contains(s: string, k: string): (b: bool)
    ensures b <==> exists i :: OccursAt(k, s, i)
    decreases |s|
  {
    if |k| > |s| then
      assert forall i :: !OccursAt(k, s, i);
      false
    else if s[..|k|] == k then
      assert OccursAt(k, s, 0);
      true
    else
      var rest := Contains(s[1..], k);
      assert forall i :: 1 <= i ==> (OccursAt(k, s, i) <==> OccursAt(k, s[1..], i - 1)) by {
        forall i | 1 <= i
          ensures OccursAt(k, s, i) <==> OccursAt(k, s[1..], i - 1)
        {
          if i + |k| <= |s| {
            var here, there := s[i..i + |k|], s[1..][i - 1..i - 1 + |k|];
            assert forall j :: 0 <= j < |k| ==> here[j] == there[j];
            assert here == there;
          }
        }
      }
      assert rest ==> OccursAt(k, s, (var j :| OccursAt(k, s[1..], j); j) + 1);
      rest
  }

  /** The character of a decimal digit. */
  function DigitChar(d: nat): (c: char)
    requires d < 10
    ensures '0' <= c <= '9' && c as int - '0' as int == d
  {
    ('0' as int + d) as char
  }

  ghost predicate IsDigits(s: string)
  {
    forall i :: 0 <= i < |s| ==> '0' <= s[i] <= '9'
  }

  /** Decimal rendering of `n`, as `str(n)` gives it: digits only, no leading zero. */
  function NatToString(n: nat): (s: string)
    ensures |s| >= 1 && IsDigits(s)
    ensures s[0] == '0' <==> n == 0
    decreases n
  {
    if n < 10 then [DigitChar(n)] else NatToString(n / 10) + [DigitChar(n % 10)]
  }

  /** Reads a string of decimal digits back as a number (the inverse of NatToString). */
  function DecimalValue(s: string): nat
    requires IsDigits(s)
  {
    if s == [] then 0
    else DecimalValue(s[..|s| - 1]) * 10 + (s[|s| - 1] as int - '0' as int)
  }

  /** Rendering a count and reading it back gives the count: no information is lost. */
  lemma {:induction false} DecimalRoundTrip(n: nat)
    ensures DecimalValue(NatToString(n)) == n
    decreases n
  {
    var s := NatToString(n);
    if n >= 10 {
      DecimalRoundTrip(n / 10);
      assert s[..|s| - 1] == NatToString(n / 10);
    }
  }
}
