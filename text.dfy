/** String operations the services use: `str.split(sep)`, `[-1]`,
    decimal rendering of integers, zero padding, ASCII case folding and the
    prefix/suffix tests. */
module Text {

  /** `s.split(c)` for a one-character separator, as Python splits: the
      pieces between separators, with empty pieces kept. */
  function Split(s: string, c: char): (parts: seq<string>)
    ensures |parts| >= 1
    ensures forall i :: 0 <= i < |parts| ==> c !in parts[i]
    decreases |s|
  {
    if |s| == 0 then [""]
    else if s[0] == c then [""] + Split(s[1..], c)
    else
      var rest := Split(s[1..], c);
      [[s[0]] + rest[0]] + rest[1..]
  }

  /** A string without the separator splits into itself alone. */
  lemma {:induction false} SplitWithoutSeparator(a: string, c: char)
    requires c !in a
    ensures Split(a, c) == [a]
    decreases |a|
  {
    if |a| > 0 {
      assert a[0] != c && c !in a[1..];
      SplitWithoutSeparator(a[1..], c);
      assert [a[0]] + a[1..] == a;
    }
  }

  /** Splitting `a + c + b` where `a` holds no separator: `a` is the first
      piece and the pieces of `b` follow. */
  lemma {:induction false} SplitAtFirst(a: string, b: string, c: char)
    requires c !in a
    ensures Split(a + [c] + b, c) == [a] + Split(b, c)
    decreases |a|
  {
    var s := a + [c] + b;
    if |a| == 0 {
      assert s == [c] + b;
      assert s[1..] == b;
    } else {
      assert s[0] == a[0];
      assert s[1..] == a[1..] + [c] + b;
      SplitAtFirst(a[1..], b, c);
      assert [a[0]] + a[1..] == a;
    }
  }

  /** `s.split("/")[-1]`: everything after the last "/". */
  function LastSegment(s: string): (r: string)
    ensures '/' !in r
  {
    var parts := Split(s, '/');
    parts[|parts| - 1]
  }

  /** Joining with "/" and taking the last segment gives back the part
      after the join. */
  lemma {:induction false} LastSegmentOfJoin(a: string, b: string)
    requires '/' !in b
    ensures LastSegment(a + "/" + b) == b
  {
    SplitLastPiece(a, b);
  }

  lemma {:induction false} SplitLastPiece(a: string, b: string)
    requires '/' !in b
    ensures var parts := Split(a + "/" + b, '/'); |parts| >= 2 && parts[|parts| - 1] == b
    decreases |a|
  {
    var s := a + "/" + b;
    if |a| == 0 {
      assert s == "/" + b;
      assert s[1..] == b;
      SplitWithoutSeparator(b, '/');
    } else {
      assert s[0] == a[0];
      assert s[1..] == a[1..] + "/" + b;
      SplitLastPiece(a[1..], b);
    }
  }

  /** A string without "/" is its own last segment. */
  lemma LastSegmentWithoutSlash(a: string)
    requires '/' !in a
    ensures LastSegment(a) == a
  {
    SplitWithoutSeparator(a, '/');
  }

  predicate IsDigit(ch: char)
  {
    '0' <= ch <= '9'
  }

  predicate AllDigits(s: string)
  {
    forall i :: 0 <= i < |s| ==> IsDigit(s[i])
  }

  function Digit(n: int): (ch: char)
    requires 0 <= n < 10
    ensures IsDigit(ch)
  {
    ('0' as int + n) as char
  }

  function DigitValue(ch: char): (n: int)
    requires IsDigit(ch)
    ensures 0 <= n < 10
  {
    ch as int - '0' as int
  }

  lemma DigitValueOfDigit(n: int)
    requires 0 <= n < 10
    ensures DigitValue(Digit(n)) == n
  {
  }

  /** Appending a digit multiplies the value by ten and adds the digit. */
  lemma DigitsValueSnoc(s: string, ch: char)
    requires AllDigits(s) && IsDigit(ch)
    ensures AllDigits(s + [ch])
    ensures DigitsValue(s + [ch]) == DigitsValue(s) * 10 + DigitValue(ch)
  {
    assert (s + [ch])[..|s|] == s;
  }

  /** The value of a string of decimal digits, most significant first. */
  function DigitsValue(s: string): (n: nat)
    requires AllDigits(s)
    decreases |s|
  {
    if |s| == 0 then 0 else DigitsValue(s[..|s| - 1]) * 10 + DigitValue(s[|s| - 1])
  }

  /** `"%02d"` */
  function Pad2(n: int): (s: string)
    requires 0 <= n < 100
    ensures |s| == 2 && AllDigits(s) && DigitsValue(s) == n
  {
    var s := [Digit(n / 10), Digit(n % 10)];
    DigitsValueSnoc([], Digit(n / 10));
    DigitsValueSnoc([Digit(n / 10)], Digit(n % 10));
    assert [] + [Digit(n / 10)] == [Digit(n / 10)];
    DigitValueOfDigit(n / 10);
    DigitValueOfDigit(n % 10);
    s
  }

  lemma DigitsValueAppendTwo(a: string, b: string)
    requires AllDigits(a) && AllDigits(b) && |b| == 2
    ensures AllDigits(a + b)
    ensures DigitsValue(a + b) == DigitsValue(a) * 100 + DigitsValue(b)
  {
    DigitsValueSnoc(a, b[0]);
    DigitsValueSnoc(a + [b[0]], b[1]);
    assert a + [b[0]] + [b[1]] == a + b;
    DigitsValueSnoc([], b[0]);
    DigitsValueSnoc([b[0]], b[1]);
    assert [] + [b[0]] == [b[0]];
    assert [b[0]] + [b[1]] == b;
  }

  /** `"%04d"` */
  function Pad4(n: int): (s: string)
    requires 0 <= n < 10000
    ensures |s| == 4 && AllDigits(s) && DigitsValue(s) == n
  {
    var s := Pad2(n / 100) + Pad2(n % 100);
    DigitsValueAppendTwo(Pad2(n / 100), Pad2(n % 100));
    s
  }

  /** Decimal digits of a natural number without leading zeros. */
  function NatToString(n: nat): (s: string)
    ensures |s| >= 1 && AllDigits(s)
    ensures |s| > 1 ==> s[0] != '0'
    decreases n
  {
    if n < 10 then [Digit(n)] else NatToString(n / 10) + [Digit(n % 10)]
  }

  /** Reading the digits back gives the number. */
  lemma {:induction false} NatToStringValue(n: nat)
    ensures DigitsValue(NatToString(n)) == n
    decreases n
  {
    if n >= 10 {
      NatToStringValue(n / 10);
      var s := NatToString(n);
      assert s[..|s| - 1] == NatToString(n / 10);
    }
  }

  /** `str(n)` for a Python int. */
  function IntToString(n: int): (s: string)
    ensures |s| >= 1
    ensures s[0] == '-' <==> n < 0
  {
    if n < 0 then "-" + NatToString(-n) else NatToString(n)
  }

  /** Distinct integers have distinct decimal renderings. */
  lemma IntToStringInjective(a: int, b: int)
    requires IntToString(a) == IntToString(b)
    ensures a == b
  {
    if a < 0 {
      assert b < 0;
      assert NatToString(-a) == NatToString(-b) by {
        assert IntToString(a)[1..] == NatToString(-a);
        assert IntToString(b)[1..] == NatToString(-b);
      }
      NatToStringValue(-a);
      NatToStringValue(-b);
    } else {
      assert b >= 0;
      NatToStringValue(a);
      NatToStringValue(b);
    }
  }

  function LowerChar(ch: char): char
  {
    if 'A' <= ch <= 'Z' then (ch as int - 'A' as int + 'a' as int) as char else ch
  }

  /** ASCII case folding: the part of `s.lower()` that the allowed
      extensions can tell apart. Upper-case ASCII letters become lower case,
      every other character is kept. */
  function Lower(s: string): (r: string)
    ensures |r| == |s|
    ensures forall i :: 0 <= i < |s| ==> r[i] == LowerChar(s[i])
    ensures forall i :: 0 <= i < |r| ==> !('A' <= r[i] <= 'Z')
    ensures forall i :: 0 <= i < |s| && !('A' <= s[i] <= 'Z') ==> r[i] == s[i]
  {
    seq(|s|, i requires 0 <= i < |s| => LowerChar(s[i]))
  }

  /** `s.startswith(p)` */
  predicate StartsWith(s: string, p: string)
  {
    |p| <= |s| && s[..|p|] == p
  }

  lemma StartsWithJoin(a: string, b: string)
    ensures StartsWith(a + b, a)
  {
    assert (a + b)[..|a|] == a;
  }

  lemma StartsWithExtend(s: string, p: string, t: string)
    requires StartsWith(s, p)
    ensures StartsWith(s + t, p)
  {
    assert (s + t)[..|p|] == s[..|p|];
  }

  lemma StartsWithTrans(s: string, p: string, q: string)
    requires StartsWith(s, p) && StartsWith(p, q)
    ensures StartsWith(s, q)
  {
    assert s[..|q|] == s[..|p|][..|q|];
  }

  /** `s.endswith(p)` */
  predicate EndsWith(s: string, p: string)
  {
    |p| <= |s| && s[|s| - |p|..] == p
  }
}
