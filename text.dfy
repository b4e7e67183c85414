/** The few string operations of JavaScript that the reconciler relies on. */
module Text {

  predicate IsDigit(c: char) {
    '0' <= c <= '9'
  }

  predicate AllDigits(s: string) {
    forall i :: 0 <= i < |s| ==> IsDigit(s[i])
  }

  /** `s.startsWith(p)` */
  predicate StartsWith(s: string, p: string) {
    |p| <= |s| && s[..|p|] == p
  }

  /** `s.includes(sub)`: `sub` occurs in `s` at some position. */
  predicate Includes(s: string, sub: string) {
    exists i :: 0 <= i <= |s| && StartsWith(s[i..], sub)
  }

  function DigitChar(d: nat): (c: char)
    requires d < 10
    ensures IsDigit(c)
  {
    ('0' as int + d) as char
  }

  function DigitValue(c: char): (d: nat)
    requires IsDigit(c)
    ensures d < 10 && DigitChar(d) == c
  {
    (c as int - '0' as int) as nat
  }

  /** Decimal rendering of a count, as a template literal `${n}` renders a non-negative integer. */
  function NatToString(n: nat): (s: string)
    ensures |s| > 0 && AllDigits(s)
    ensures |s| > 1 ==> s[0] != '0'
    decreases n
  {
    if n < 10 then [DigitChar(n)] else NatToString(n / 10) + [DigitChar(n % 10)]
  }

  /** Reading a string of decimal digits back as a number. */
  function ParseNat(s: string): nat
    requires AllDigits(s)
  {
    if s == [] then 0 else 10 * ParseNat(s[..|s| - 1]) + DigitValue(s[|s| - 1])
  }

  /** The rendering loses nothing: the digits shown read back as the count. */
  lemma {:induction false} ParseNatToString(n: nat)
    ensures ParseNat(NatToString(n)) == n
    decreases n
  {
    var s := NatToString(n);
    if n >= 10 {
      ParseNatToString(n / 10);
      assert s[..|s| - 1] == NatToString(n / 10);
    }
  }

  /** Lexicographic order on strings (code point by code point, a prefix first). */
  predicate LexLe(a: string, b: string)
    decreases |a|
  {
    |a| == 0 || (|b| > 0 && (a[0] < b[0] || (a[0] == b[0] && LexLe(a[1..], b[1..]))))
  }

  lemma {:induction false} LexRefl(a: string)
    ensures LexLe(a, a)
    decreases |a|
  {
    if |a| > 0 { LexRefl(a[1..]); }
  }

  lemma {:induction false} LexTotal(a: string, b: string)
    ensures LexLe(a, b) || LexLe(b, a)
    decreases |a|
  {
    if |a| > 0 && |b| > 0 && a[0] == b[0] { LexTotal(a[1..], b[1..]); }
  }

  lemma {:induction false} LexAntisym(a: string, b: string)
    requires LexLe(a, b) && LexLe(b, a)
    ensures a == b
    decreases |a|
  {
    if |a| > 0 {
      LexAntisym(a[1..], b[1..]);
      assert a == [a[0]] + a[1..] && b == [b[0]] + b[1..];
    }
  }

  lemma {:induction false} LexTrans(a: string, b: string, c: string)
    requires LexLe(a, b) && LexLe(b, c)
    ensures LexLe(a, c)
    decreases |a|
  {
    if |a| > 0 && a[0] == b[0] && b[0] == c[0] { LexTrans(a[1..], b[1..], c[1..]); }
  }

  /** Between two strings that share their first `n` characters, every string of the order shares them too. */
  lemma {:induction false} LexBetweenSharesPrefix(a: string, b: string, c: string, n: nat)
    requires n <= |a| && n <= |b| && n <= |c|
    requires LexLe(a, b) && LexLe(b, c) && a[..n] == c[..n]
    ensures b[..n] == a[..n]
    decreases n
  {
    if n > 0 {
      assert a[0] == c[0] by { assert a[..n][0] == c[..n][0]; }
      assert a[0] == b[0];
      assert a[1..][..n - 1] == a[1..n] && c[1..][..n - 1] == c[1..n] && b[1..][..n - 1] == b[1..n];
      assert a[1..n] == c[1..n] by { assert a[..n][1..] == c[..n][1..]; }
      LexBetweenSharesPrefix(a[1..], b[1..], c[1..], n - 1);
      assert b[..n] == [b[0]] + b[1..n] && a[..n] == [a[0]] + a[1..n];
    }
  }

  /** The text before the first space: `s.split(" ")[0]`. */
  function FirstField(s: string): (f: string)
    ensures StartsWith(s, f) && ' ' !in f
    ensures |f| < |s| ==> s[|f|] == ' '
  {
    if s == [] || s[0] == ' ' then [] else [s[0]] + FirstField(s[1..])
  }

  /** `s.split(" ")[1]`: the text between the first and the second space, absent without a space. */
  function SecondField(s: string): (r: string)
    requires ' ' in s
  {
    FirstField(s[|FirstField(s)| + 1..])
  }

  /** `s.substring(0, n)` */
  function Prefix(s: string, n: nat): (r: string)
    ensures |r| <= n && StartsWith(s, r)
    ensures |r| == if |s| < n then |s| else n
  {
    if |s| <= n then s else s[..n]
  }

  /** The first field is pinned down by the position of the first space. */
  lemma {:induction false} FirstFieldAt(s: string, k: nat)
    requires k <= |s| && (k < |s| ==> s[k] == ' ')
    requires forall i :: 0 <= i < k ==> s[i] != ' '
    ensures FirstField(s) == s[..k]
    decreases k
  {
    if k > 0 {
      FirstFieldAt(s[1..], k - 1);
      assert s[..k] == [s[0]] + s[1..][..k - 1];
    }
  }
}
