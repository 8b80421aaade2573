/**
 Character-wise string comparison, as DynamoDB compares stored text, and as MySQL's
 collation orders decimal numerals behind one heading; and fixed-width decimal
 numerals, on which every ordering claim about stored text rests.
 */
module Text {

  predicate Less(a: string, b: string) {
    b != [] && (a == [] || a[0] < b[0] || (a[0] == b[0] && Less(a[1..], b[1..])))
  }

  predicate AtMost(a: string, b: string) {
    a == b || Less(a, b)
  }

  /** The first differing half decides, when the first halves are equally long. */
  lemma {:induction false} LessConcat(a: string, b: string, x: string, y: string)
    requires |a| == |b|
    ensures Less(a + x, b + y) <==> Less(a, b) || (a == b && Less(x, y))
  {
    if a == [] {
      assert a + x == x && b + y == y;
    } else {
      assert (a + x)[1..] == a[1..] + x && (b + y)[1..] == b[1..] + y;
      LessConcat(a[1..], b[1..], x, y);
      assert a == b <==> a[0] == b[0] && a[1..] == b[1..] by {
        assert a == [a[0]] + a[1..] && b == [b[0]] + b[1..];
      }
    }
  }

  lemma {:induction false} LessIrreflexive(a: string)
    ensures !Less(a, a)
  {
    if a == [] {
    } else {
      LessIrreflexive(a[1..]);
    }
  }

  lemma AtMostSameTail(a: string, b: string, tail: string)
    requires |a| == |b|
    ensures AtMost(a + tail, b + tail) <==> AtMost(a, b)
  {
    LessConcat(a, b, tail, tail);
    LessIrreflexive(tail);
    assert a + tail == b + tail ==> a == b by {
      assert a == (a + tail)[..|a|] && b == (b + tail)[..|b|];
    }
  }

  lemma {:induction false} LessTotal(a: string, b: string)
    ensures Less(a, b) || a == b || Less(b, a)
    ensures !(Less(a, b) && Less(b, a))
  {
    if a == [] || b == [] {
    } else {
      LessTotal(a[1..], b[1..]);
      assert a == [a[0]] + a[1..] && b == [b[0]] + b[1..];
    }
  }

  // ---- Splitting ----

  /** strings.Split and JavaScript's split: the stretches between the separators. */
  function Split(s: string, sep: char): (parts: seq<string>)
    ensures |parts| > 0
  {
    if s == "" then [""]
    else
      var rest := Split(s[1..], sep);
      if s[0] == sep then [""] + rest else [[s[0]] + rest[0]] + rest[1..]
  }

  predicate Lacks(s: string, c: char) {
    forall i :: 0 <= i < |s| ==> s[i] != c
  }

  /** Text without the separator stays in front of the first stretch. */
  lemma {:induction false} SplitInFront(a: string, b: string, sep: char)
    requires Lacks(a, sep)
    ensures Split(a + b, sep) == [a + Split(b, sep)[0]] + Split(b, sep)[1..]
  {
    if a == "" {
      var parts := Split(b, sep);
      assert a + b == b && a + parts[0] == parts[0];
      assert parts == [parts[0]] + parts[1..];
    } else {
      assert (a + b)[1..] == a[1..] + b;
      SplitInFront(a[1..], b, sep);
      assert [a[0]] + (a[1..] + Split(b, sep)[0]) == a + Split(b, sep)[0];
    }
  }

  lemma SplitWhole(a: string, sep: char)
    requires Lacks(a, sep)
    ensures Split(a, sep) == [a]
  {
    SplitInFront(a, "", sep);
    assert a + "" == a && a + Split("", sep)[0] == a;
  }

  lemma SplitFirst(a: string, rest: string, sep: char)
    requires Lacks(a, sep)
    ensures Split(a + ([sep] + rest), sep) == [a] + Split(rest, sep)
  {
    SplitInFront(a, [sep] + rest, sep);
    assert ([sep] + rest)[1..] == rest;
    assert a + "" == a;
  }

  /** A word in front of a space. */
  lemma SplitWord(a: string, rest: string)
    requires Lacks(a, ' ')
    ensures Split(a + (" " + rest), ' ') == [a] + Split(rest, ' ')
  {
    assert " " + rest == [' '] + rest;
    SplitFirst(a, rest, ' ');
  }

  // ---- Decimal numerals ----

  function Digit(d: nat): char
    requires d < 10
  {
    '0' + d as char
  }

  predicate IsDigit(c: char) {
    '0' <= c <= '9'
  }

  function DigitValue(c: char): (d: nat)
    requires IsDigit(c)
    ensures d < 10
  {
    (c - '0') as int
  }

  function Pow10(w: nat): (p: nat)
    ensures p > 0
  {
    if w == 0 then 1 else 10 * Pow10(w - 1)
  }

  /** The low w decimal digits of n, most significant first. */
  function Fixed(n: nat, w: nat): (s: string)
    ensures |s| == w
    ensures forall i :: 0 <= i < w ==> IsDigit(s[i])
  {
    if w == 0 then "" else Fixed(n / 10, w - 1) + [Digit(n % 10)]
  }

  /** Go's %d of a natural number: no leading zero. */
  function Digits(n: nat): (s: string)
    ensures |s| > 0
    ensures forall i :: 0 <= i < |s| ==> IsDigit(s[i])
  {
    if n < 10 then [Digit(n)] else Digits(n / 10) + [Digit(n % 10)]
  }

  function Zeros(k: nat): (s: string)
    ensures |s| == k
    ensures forall i :: 0 <= i < k ==> s[i] == '0'
  {
    seq(k, i => '0')
  }

  /** Go's %0wd of a natural number. */
  function ZeroPadded(n: nat, w: nat): (s: string)
    ensures |s| >= w
    ensures forall i :: 0 <= i < |s| ==> IsDigit(s[i])
  {
    var d := Digits(n);
    if |d| < w then Zeros(w - |d|) + d else d
  }

  /** The value of a string of digits; anything else has none. */
  function ParseDigits(s: string): (n: nat)
    requires forall i :: 0 <= i < |s| ==> IsDigit(s[i])
  {
    if s == "" then 0 else 10 * ParseDigits(s[..|s| - 1]) + DigitValue(s[|s| - 1])
  }

  lemma ParseAppend(s: string, c: char)
    requires forall i :: 0 <= i < |s| ==> IsDigit(s[i])
    requires IsDigit(c)
    ensures ParseDigits(s + [c]) == 10 * ParseDigits(s) + DigitValue(c)
  {
    assert (s + [c])[..|s|] == s;
  }

  lemma {:induction false} ParseZeros(k: nat, s: string)
    requires forall i :: 0 <= i < |s| ==> IsDigit(s[i])
    ensures ParseDigits(Zeros(k) + s) == ParseDigits(s)
    decreases |s|, k
  {
    if s != "" {
      var init, last := s[..|s| - 1], s[|s| - 1];
      assert Zeros(k) + s == (Zeros(k) + init) + [last] && s == init + [last];
      ParseZeros(k, init);
      ParseAppend(Zeros(k) + init, last);
      ParseAppend(init, last);
    } else if k > 0 {
      assert Zeros(k) + s == (Zeros(k - 1) + s) + ['0'];
      ParseZeros(k - 1, s);
      ParseAppend(Zeros(k - 1) + s, '0');
    } else {
      assert Zeros(k) + s == s;
    }
  }

  lemma {:induction false} ParseOfDigits(n: nat)
    ensures ParseDigits(Digits(n)) == n
  {
    if n >= 10 {
      ParseOfDigits(n / 10);
      ParseAppend(Digits(n / 10), Digit(n % 10));
    } else {
      assert Digits(n) == "" + [Digit(n)];
      ParseAppend("", Digit(n));
    }
  }

  /** The padded printer has a left inverse for every number, at any width. */
  lemma ParseOfZeroPadded(n: nat, w: nat)
    ensures ParseDigits(ZeroPadded(n, w)) == n
  {
    ParseOfDigits(n);
    var d := Digits(n);
    if |d| < w {
      ParseZeros(w - |d|, d);
    }
  }

  lemma {:induction false} ParseOfFixed(n: nat, w: nat)
    requires n < Pow10(w)
    ensures ParseDigits(Fixed(n, w)) == n
  {
    if w == 0 {
    } else {
      ParseOfFixed(n / 10, w - 1);
      ParseAppend(Fixed(n / 10, w - 1), Digit(n % 10));
    }
  }

  lemma {:induction false} DigitsLength(n: nat, w: nat)
    requires w > 0
    ensures |Digits(n)| <= w <==> n < Pow10(w)
  {
    if w == 1 {
      assert Pow10(1) == 10 * Pow10(0) == 10;
    } else if n >= 10 {
      DigitsLength(n / 10, w - 1);
    } else {
      assert Pow10(w) >= 10;
    }
  }

  lemma {:induction false} FixedOfZero(w: nat)
    ensures Fixed(0, w) == Zeros(w)
  {
    if w == 0 {
    } else {
      FixedOfZero(w - 1);
      assert Zeros(w) == Zeros(w - 1) + ['0'];
    }
  }

  /** Below 10^w the padded printer writes exactly w digits. */
  lemma {:induction false} PaddedIsFixed(n: nat, w: nat)
    requires w > 0 && n < Pow10(w)
    ensures ZeroPadded(n, w) == Fixed(n, w)
  {
    DigitsLength(n, w);
    assert Pow10(1) == 10 * Pow10(0);
    if n >= 10 {
      PaddedIsFixed(n / 10, w - 1);
      DigitsLength(n / 10, w - 1);
      var k := w - |Digits(n)|;
      assert Zeros(k) + Digits(n) == (Zeros(k) + Digits(n / 10)) + [Digit(n % 10)];
      if k == 0 { assert Zeros(0) + Digits(n / 10) == Digits(n / 10); }
    } else {
      assert n / 10 == 0;
      FixedOfZero(w - 1);
      assert Fixed(n, w) == Zeros(w - 1) + [Digit(n)];
      if w == 1 { assert Zeros(0) + [Digit(n)] == [Digit(n)]; }
    }
  }

  lemma FrontFits(n: nat, w: nat)
    requires w > 0 && n < Pow10(w)
    ensures n / 10 < Pow10(w - 1)
  {
  }

  lemma DigitOrder(c: nat, d: nat)
    requires c < 10 && d < 10
    ensures Less([Digit(c)], [Digit(d)]) <==> c < d
  {
  }

  lemma FrontThenDigit(m: nat, n: nat)
    ensures m < n <==> m / 10 < n / 10 || (m / 10 == n / 10 && m % 10 < n % 10)
  {
  }

  /** Numerals of equal width compare as their values do. */
  lemma {:induction false} FixedOrder(m: nat, n: nat, w: nat)
    requires m < Pow10(w) && n < Pow10(w)
    ensures Less(Fixed(m, w), Fixed(n, w)) <==> m < n
    ensures Fixed(m, w) == Fixed(n, w) <==> m == n
  {
    ParseOfFixed(m, w);
    ParseOfFixed(n, w);
    if w == 0 {
    } else {
      FrontFits(m, w);
      FrontFits(n, w);
      FixedOrder(m / 10, n / 10, w - 1);
      LessConcat(Fixed(m / 10, w - 1), Fixed(n / 10, w - 1), [Digit(m % 10)], [Digit(n % 10)]);
      DigitOrder(m % 10, n % 10);
      FrontThenDigit(m, n);
    }
  }
}
