/**
 * The pieces of Go's `strings` and `fmt` packages that the story listing and
 * the credential prompt use, written out over `string` (a `seq<char>`).
 */
module Text {

  /** Go's `a < b` on strings. Go compares the UTF-8 bytes, and UTF-8 byte
      order is code point order, so comparing characters gives the same answer. */
  predicate Less(a: string, b: string)
    decreases |a|
  {
    |b| > 0 && (|a| == 0 || a[0] < b[0] || (a[0] == b[0] && Less(a[1..], b[1..])))
  }

  /** `a <= b` in the same order. */
  predicate NoGreater(a: string, b: string)
  {
    !Less(b, a)
  }

  lemma {:induction false} LessIrreflexive(a: string)
    ensures !Less(a, a)
    decreases |a|
  {
    if |a| > 0 {
      LessIrreflexive(a[1..]);
    }
  }

  lemma {:induction false} LessTransitive(a: string, b: string, c: string)
    requires Less(a, b) && Less(b, c)
    ensures Less(a, c)
    decreases |a|
  {
    if |a| > 0 && a[0] == b[0] && b[0] == c[0] {
      LessTransitive(a[1..], b[1..], c[1..]);
    }
  }

  /** Two different strings are always ordered one way or the other. */
  lemma {:induction false} LessTotal(a: string, b: string)
    requires a != b
    ensures Less(a, b) || Less(b, a)
    decreases |a|
  {
    if |a| > 0 && |b| > 0 && a[0] == b[0] {
      assert a == [a[0]] + a[1..] && b == [b[0]] + b[1..];
      LessTotal(a[1..], b[1..]);
    }
  }

  lemma LessAsymmetric(a: string, b: string)
    requires Less(a, b)
    ensures !Less(b, a)
  {
    if Less(b, a) {
      LessTransitive(a, b, a);
      LessIrreflexive(a);
    }
  }

  /** `<=` is a total preorder: transitive ... */
  lemma NoGreaterTransitive(a: string, b: string, c: string)
    requires NoGreater(a, b) && NoGreater(b, c)
    ensures NoGreater(a, c)
  {
    if Less(c, a) {
      if a != b { LessTotal(a, b); }
      if b != c { LessTotal(b, c); }
      if a == b {
        LessAsymmetric(c, b);
      } else if b == c {
        LessAsymmetric(c, a);
      } else {
        LessTransitive(a, b, c);
        LessAsymmetric(c, a);
      }
    }
  }

  /** ... and total; two strings ordered both ways are equal. */
  lemma NoGreaterTotal(a: string, b: string)
    ensures NoGreater(a, b) || NoGreater(b, a)
    ensures NoGreater(a, b) && NoGreater(b, a) ==> a == b
  {
    if Less(a, b) { LessAsymmetric(a, b); }
    if a != b { LessTotal(a, b); }
  }

  /** ASCII part of Go's `unicode.ToLower`. */
  function LowerChar(c: char): (r: char)
  {
    if 'A' <= c <= 'Z' then (c as int + 32) as char else c
  }

  /** Go's `strings.ToLower`, restricted to the ASCII letters. */
  function ToLower(s: string): (r: string)
  {
    seq(|s|, i requires 0 <= i < |s| => LowerChar(s[i]))
  }

  /** Go's `strings.ReplaceAll(s, old, new)` for one-character `old` and `new` (here `from` and `to`). */
  function ReplaceAll(s: string, from: char, to: char): (r: string)
  {
    seq(|s|, i requires 0 <= i < |s| => if s[i] == from then to else s[i])
  }

  /** Go's `strings.Join(parts, "")`. */
  function Concat(parts: seq<string>): (r: string)
  {
    if parts == [] then "" else Concat(parts[..|parts| - 1]) + parts[|parts| - 1]
  }

  /** Each line followed by its own newline. */
  function Terminated(lines: seq<string>): (r: seq<string>)
  {
    seq(|lines|, i requires 0 <= i < |lines| => lines[i] + "\n")
  }

  lemma TerminatedAppend(lines: seq<string>, line: string)
    ensures Terminated(lines + [line]) == Terminated(lines) + [line + "\n"]
  {
  }

  /** Go's `strings.Join(lines, "\n")`: newlines between the lines, none after the last. */
  function JoinLines(lines: seq<string>): (r: string)
  {
    if |lines| == 0 then ""
    else if |lines| == 1 then lines[0]
    else JoinLines(lines[..|lines| - 1]) + "\n" + lines[|lines| - 1]
  }

  /** Concatenating newline-terminated lines is joining them with newlines,
      plus one final newline. */
  lemma {:induction false} ConcatTerminated(lines: seq<string>)
    requires lines != []
    ensures Concat(Terminated(lines)) == JoinLines(lines) + "\n"
    decreases |lines|
  {
    var n := |lines|;
    if n > 1 {
      assert Terminated(lines)[..n - 1] == Terminated(lines[..n - 1]);
      ConcatTerminated(lines[..n - 1]);
    }
  }

  /** `s` is not empty and its last character is not a newline. */
  predicate EndsBeforeNewline(s: string)
  {
    s != [] && s[|s| - 1] != '\n'
  }

  /** Terminating each line, concatenating and trimming the trailing newlines
      joins the lines with newlines, when the last line does not itself end
      in a newline. */
  lemma TrimTerminated(lines: seq<string>)
    requires lines == [] || EndsBeforeNewline(lines[|lines| - 1])
    ensures TrimRight(Concat(Terminated(lines)), '\n') == JoinLines(lines)
  {
    if lines != [] {
      ConcatTerminated(lines);
      JoinLinesEnd(lines);
      TrimRightAfterNewline(JoinLines(lines));
    }
  }

  /** A join ends the way its last line ends. */
  lemma {:induction false} JoinLinesEnd(lines: seq<string>)
    requires lines != [] && EndsBeforeNewline(lines[|lines| - 1])
    ensures EndsBeforeNewline(JoinLines(lines))
  {
  }

  /** Go's `strings.TrimRight(s, cutset)` for a one-character cutset: every
      trailing `c` goes, however many there are. */
  function TrimRight(s: string, c: char): (r: string)
    ensures r <= s
    ensures r == [] || r[|r| - 1] != c
    ensures forall i :: |r| <= i < |s| ==> s[i] == c
  {
    if s != [] && s[|s| - 1] == c then TrimRight(s[..|s| - 1], c) else s
  }

  /** Trimming what ends in exactly one newline removes just that newline. */
  lemma TrimRightAfterNewline(s: string)
    requires EndsBeforeNewline(s)
    ensures TrimRight(s + "\n", '\n') == s
  {
    assert (s + "\n")[..|s|] == s;
  }

  predicate HasSuffix(s: string, suffix: string)
  {
    |suffix| <= |s| && s[|s| - |suffix|..] == suffix
  }

  /** Go's `strings.TrimSuffix`: at most one copy of `suffix` goes. */
  function TrimSuffix(s: string, suffix: string): (r: string)
    ensures HasSuffix(s, suffix) ==> r + suffix == s
    ensures !HasSuffix(s, suffix) ==> r == s
  {
    if HasSuffix(s, suffix) then s[..|s| - |suffix|] else s
  }

  /** A common prefix and then a smaller character decides the order. */
  lemma {:induction false} LessAt(a: string, b: string, k: nat)
    requires k < |a| && k < |b| && a[..k] == b[..k] && a[k] < b[k]
    ensures Less(a, b)
    decreases k
  {
    if k > 0 {
      assert a[1..][..k - 1] == a[..k][1..] && b[1..][..k - 1] == b[..k][1..];
      LessAt(a[1..], b[1..], k - 1);
    }
  }

  /** `TrimSuffix` takes off one newline and no more, whatever precedes it. */
  lemma TrimSuffixOnce(s: string)
    ensures TrimSuffix(s + "\n", "\n") == s
  {
    assert HasSuffix(s + "\n", "\n");
    assert (s + "\n")[..|s|] == s;
  }

  predicate IsDigit(c: char)
  {
    '0' <= c <= '9'
  }

  function DigitChar(d: nat): (c: char)
    requires d < 10
    ensures IsDigit(c)
  {
    ('0' as int + d) as char
  }

  function DigitValue(c: char): (d: nat)
    requires IsDigit(c)
  {
    c as int - '0' as int
  }

  /** Decimal digits of `n`, most significant first, no leading zero. */
  function NatDecimal(n: nat): (r: string)
    ensures |r| > 0
    ensures forall i :: 0 <= i < |r| ==> IsDigit(r[i])
    ensures r[0] == '0' ==> n == 0
  {
    if n < 10 then [DigitChar(n)] else NatDecimal(n / 10) + [DigitChar(n % 10)]
  }

  /** Go's `fmt.Sprintf("%d", n)`. */
  function Decimal(n: int): (r: string)
  {
    if n < 0 then "-" + NatDecimal(-n) else NatDecimal(n)
  }

  /** The shape `%d` produces: digits, optionally after one minus sign. */
  predicate IsDecimalToken(d: string)
  {
    |d| > 0 && (d[0] == '-' ==> |d| > 1) &&
    forall i :: 0 <= i < |d| ==> IsDigit(d[i]) || (i == 0 && d[i] == '-')
  }

  /** Reads back a run of decimal digits. */
  function ParseNat(s: string): (n: nat)
    requires forall i :: 0 <= i < |s| ==> IsDigit(s[i])
  {
    if s == [] then 0 else 10 * ParseNat(s[..|s| - 1]) + DigitValue(s[|s| - 1])
  }

  /** Reads back what `Decimal` writes. */
  function ParseDecimal(d: string): (n: int)
    requires IsDecimalToken(d)
  {
    if d[0] == '-' then -(ParseNat(d[1..]) as int) else ParseNat(d)
  }

  lemma {:induction false} NatDecimalRoundTrip(n: nat)
    ensures ParseNat(NatDecimal(n)) == n
    decreases n
  {
    if n >= 10 {
      var r := NatDecimal(n);
      assert r[..|r| - 1] == NatDecimal(n / 10);
      NatDecimalRoundTrip(n / 10);
    }
  }

  /** `Decimal` writes a well-formed token that reads back as `n`. */
  lemma DecimalRoundTrip(n: int)
    ensures IsDecimalToken(Decimal(n))
    ensures ParseDecimal(Decimal(n)) == n
  {
    if n < 0 {
      assert Decimal(n)[1..] == NatDecimal(-n);
      NatDecimalRoundTrip(-n);
    } else {
      NatDecimalRoundTrip(n);
    }
  }

  /** Distinct integers print differently. */
  lemma DecimalInjective(m: int, n: int)
    requires Decimal(m) == Decimal(n)
    ensures m == n
  {
    DecimalRoundTrip(m);
    DecimalRoundTrip(n);
  }
}
