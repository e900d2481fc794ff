/** The string handling the bot relies on: ASCII lower-casing, decimal digits,
    substring search and joining lines. */
module Text {

  predicate IsDigit(ch: char) {
    '0' <= ch <= '9'
  }

  predicate AllDigits(s: string) {
    forall i :: 0 <= i < |s| ==> IsDigit(s[i])
  }

  /** The strings that the regular-expression class `\d+` matches. */
  predicate IsDigits(s: string) {
    |s| > 0 && AllDigits(s)
  }

  /** `toLowerCase` on one character, restricted to the ASCII letters. */
  function LowerChar(ch: char): char {
    if 'A' <= ch <= 'Z' then (ch as int - 'A' as int + 'a' as int) as char else ch
  }

  /** `toLowerCase` on ASCII text: no upper-case letter is left, each one
      becomes the letter 32 code points above it, and every other character
      stays. */
  function Lower(s: string): (r: string)
    ensures |r| == |s|
    ensures forall i :: 0 <= i < |r| ==> !('A' <= r[i] <= 'Z')
    ensures forall i :: 0 <= i < |s| && 'A' <= s[i] <= 'Z' ==> r[i] as int == s[i] as int + 32
    ensures forall i :: 0 <= i < |s| && !('A' <= s[i] <= 'Z') ==> r[i] == s[i]
  {
    seq(|s|, i requires 0 <= i < |s| => LowerChar(s[i]))
  }

  /** Lower-casing twice is lower-casing once, so comparing lower-cased names
      is an equivalence. */
  lemma LowerIdempotent(s: string)
    ensures Lower(Lower(s)) == Lower(s)
  {
    assert forall i :: 0 <= i < |s| ==> LowerChar(LowerChar(s[i])) == LowerChar(s[i]);
  }

  /** Digits and lower-case letters are left alone by lower-casing. */
  lemma LowerKeeps(s: string)
    requires forall i :: 0 <= i < |s| ==> IsDigit(s[i]) || 'a' <= s[i] <= 'z'
    ensures Lower(s) == s
  {
  }

  function DigitChar(d: nat): (ch: char)
    requires d < 10
    ensures IsDigit(ch)
  {
    ('0' as int + d) as char
  }

  function DigitValue(ch: char): (d: nat)
    requires IsDigit(ch)
    ensures d < 10
  {
    ch as int - '0' as int
  }

  /** The decimal text of a non-negative integer, as a template literal prints it. */
  function NatToString(n: nat): (s: string)
    ensures IsDigits(s)
    decreases n
  {
    if n < 10 then [DigitChar(n)] else NatToString(n / 10) + [DigitChar(n % 10)]
  }

  /** The decimal text of an integer: a leading '-' exactly when it is
      negative, then digits that read back as its magnitude. */
  function IntToString(i: int): (s: string)
    ensures |s| > 0 && (i < 0 <==> s[0] == '-')
    ensures var digits := if i < 0 then s[1..] else s;
      IsDigits(digits) && ParseNat(digits) == if i < 0 then -i else i
  {
    if i < 0 then
      assert ("-" + NatToString(-i))[1..] == NatToString(-i);
      ParseNatToString(-i);
      "-" + NatToString(-i)
    else
      ParseNatToString(i);
      NatToString(i)
  }

  /** The value `parseInt` reads from a string of decimal digits: zero
      exactly when every digit is '0', and below ten to the number of digits. */
  function ParseNat(s: string): (n: nat)
    requires AllDigits(s)
    ensures n == 0 <==> forall i :: 0 <= i < |s| ==> s[i] == '0'
    ensures n < Pow10(|s|)
    decreases |s|
  {
    if s == [] then 0 else ParseNat(s[..|s| - 1]) * 10 + DigitValue(s[|s| - 1])
  }

  function Pow10(k: nat): (r: nat)
    ensures r >= 1
  {
    if k == 0 then 1 else 10 * Pow10(k - 1)
  }

  /** Reading back the decimal text of `n` gives `n`. */
  lemma {:induction false} ParseNatToString(n: nat)
    ensures ParseNat(NatToString(n)) == n
    decreases n
  {
    if n >= 10 {
      var s := NatToString(n / 10);
      ParseNatToString(n / 10);
      assert (s + [DigitChar(n % 10)])[..|s|] == s;
      DigitRoundTrip(n % 10);
    } else {
      DigitRoundTrip(n);
    }
  }

  lemma DigitRoundTrip(d: nat)
    requires d < 10
    ensures DigitValue(DigitChar(d)) == d
  {
  }

  lemma NatToStringInjective(a: nat, b: nat)
    requires NatToString(a) == NatToString(b)
    ensures a == b
  {
    ParseNatToString(a);
    ParseNatToString(b);
  }

  /** `t` occurs in `s` starting at index `i`. */
  predicate OccursAt(s: string, t: string, i: int) {
    0 <= i && i + |t| <= |s| && s[i..i + |t|] == t
  }

  /** `s.includes(t)`. */
  predicate Contains(s: string, t: string) {
    exists i :: 0 <= i <= |s| && OccursAt(s, t, i)
  }

  /** Every string includes the empty string. */
  lemma ContainsEmpty(s: string)
    ensures Contains(s, "")
  {
    assert OccursAt(s, "", 0);
  }

  /** `lines.join(sep)`. */
  function Join(lines: seq<string>, sep: string): string
    decreases |lines|
  {
    if |lines| == 0 then ""
    else if |lines| == 1 then lines[0]
    else lines[0] + sep + Join(lines[1..], sep)
  }

  /** The number of occurrences of `ch` in `s`. */
  function Count(s: string, ch: char): nat
    decreases |s|
  {
    if s == [] then 0 else (if s[0] == ch then 1 else 0) + Count(s[1..], ch)
  }

  lemma {:induction false} CountConcat(a: string, b: string, ch: char)
    ensures Count(a + b, ch) == Count(a, ch) + Count(b, ch)
    decreases |a|
  {
    if a != [] {
      assert (a + b)[1..] == a[1..] + b;
      CountConcat(a[1..], b, ch);
    } else {
      assert a + b == b;
    }
  }

  lemma {:induction false} CountAbsent(s: string, ch: char)
    requires ch !in s
    ensures Count(s, ch) == 0
    decreases |s|
  {
    if s != [] {
      assert s[0] != ch;
      assert forall i :: 0 <= i < |s| - 1 ==> s[1..][i] == s[i + 1];
      CountAbsent(s[1..], ch);
    }
  }

  /** Joining newline-free lines with "\n" gives text with exactly one line
      per element: the number of line breaks is one less than the number of lines. */
  lemma {:induction false} JoinLineCount(lines: seq<string>)
    requires |lines| > 0
    requires forall i :: 0 <= i < |lines| ==> '\n' !in lines[i]
    ensures Count(Join(lines, "\n"), '\n') == |lines| - 1
    decreases |lines|
  {
    CountAbsent(lines[0], '\n');
    if |lines| > 1 {
      JoinLineCount(lines[1..]);
      CountConcat(lines[0], "\n", '\n');
      CountConcat(lines[0] + "\n", Join(lines[1..], "\n"), '\n');
    }
  }

  /** Each joined line occurs in the joined text. */
  lemma {:induction false} JoinContains(lines: seq<string>, sep: string, i: nat)
    requires i < |lines|
    ensures Contains(Join(lines, sep), lines[i])
    decreases |lines|
  {
    var s := Join(lines, sep);
    if i == 0 {
      if |lines| > 1 {
        assert s[0..|lines[0]|] == lines[0];
      }
      assert OccursAt(s, lines[0], 0);
    } else {
      JoinContains(lines[1..], sep, i - 1);
      var rest := Join(lines[1..], sep);
      var j :| 0 <= j <= |rest| && OccursAt(rest, lines[1..][i - 1], j);
      var off := |lines[0]| + |sep|;
      assert s == lines[0] + sep + rest;
      assert s[off + j..off + j + |lines[i]|] == rest[j..j + |lines[i]|];
      assert OccursAt(s, lines[i], off + j);
    }
  }

  /** A string occurs in any text made by writing it between two others. */
  lemma ContainsMiddle(a: string, t: string, b: string)
    ensures Contains(a + t + b, t)
  {
    assert (a + t + b)[|a|..|a| + |t|] == t;
    assert OccursAt(a + t + b, t, |a|);
  }

  /** `a + t + b + u + c`: a text that shows both `t` and `u`. */
  function Splice(a: string, t: string, b: string, u: string, c: string): (r: string)
    ensures Contains(r, t) && Contains(r, u)
  {
    ContainsMiddle(a, t, b + u + c);
    ContainsMiddle(a + t + b, u, c);
    assert a + t + (b + u + c) == a + t + b + u + c;
    a + t + b + u + c
  }

  /** Whatever the part between `t` and `u` shows, the spliced text shows. */
  lemma SpliceWithin(a: string, t: string, b: string, u: string, c: string, x: string)
    requires Contains(b, x)
    ensures Contains(Splice(a, t, b, u, c), x)
  {
    ContainsWithin(a + t, b, u + c, x);
    assert a + t + b + (u + c) == a + t + b + u + c;
  }

  /** Text that occurs in `b` occurs in `a + b + c`. */
  lemma ContainsWithin(a: string, b: string, c: string, t: string)
    requires Contains(b, t)
    ensures Contains(a + b + c, t)
  {
    var j :| 0 <= j <= |b| && OccursAt(b, t, j);
    assert (a + b + c)[|a| + j..|a| + j + |t|] == b[j..j + |t|];
    assert OccursAt(a + b + c, t, |a| + j);
  }

  /** Text that occurs in `a` occurs in `a + b`. */
  lemma ContainsBefore(a: string, b: string, t: string)
    requires Contains(a, t)
    ensures Contains(a + b, t)
  {
    var j :| 0 <= j <= |a| && OccursAt(a, t, j);
    assert (a + b)[j..j + |t|] == a[j..j + |t|];
    assert OccursAt(a + b, t, j);
  }

  /** Text that occurs in `b` occurs in `a + b`. */
  lemma ContainsAfter(a: string, b: string, t: string)
    requires Contains(b, t)
    ensures Contains(a + b, t)
  {
    var j :| 0 <= j <= |b| && OccursAt(b, t, j);
    assert (a + b)[|a| + j..|a| + j + |t|] == b[j..j + |t|];
    assert OccursAt(a + b, t, |a| + j);
  }

  /** One line of text ended by a line break holds exactly one break. */
  lemma LineCount(t: string)
    requires '\n' !in t
    ensures Count(t + "\n", '\n') == 1
  {
    CountAbsent(t, '\n');
    CountConcat(t, "\n", '\n');
  }
}
