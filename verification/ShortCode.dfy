// Base-62 short codes: a big-endian number written with 62 digits, padded to
// eight characters.
module ShortCode {
  import opened Prelude

  const DIGITS: string := "0123456789"
  const UPPER: string := "ABCDEFGHIJKLMNOPQRSTUVWXYZ"
  const LOWER: string := "abcdefghijklmnopqrstuvwxyz"
  const CHARS: string := DIGITS + UPPER + LOWER

  // The number whose big-endian bytes are data.
  function BigEndian(data: seq<uint8>): nat {
    if data == [] then 0 else BigEndian(data[..|data| - 1]) * 256 + data[|data| - 1] as nat
  }

  // The digit a character stands for.
  function DigitOf(c: char): nat {
    if '0' <= c <= '9' then (c - '0') as nat
    else if 'A' <= c <= 'Z' then (c - 'A') as nat + 10
    else if 'a' <= c <= 'z' then (c - 'a') as nat + 36
    else 62
  }

  // The number a code stands for, most significant character first.
  function Decode(code: string): nat {
    if code == "" then 0 else Decode(code[..|code| - 1]) * 62 + DigitOf(code[|code| - 1])
  }

  // The number a string stands for, least significant character first.
  function DecodeLow(s: string): nat {
    if s == "" then 0 else DigitOf(s[0]) + 62 * DecodeLow(s[1..])
  }

  function Pow(b: nat, n: nat): nat {
    if n == 0 then 1 else b * Pow(b, n - 1)
  }

  lemma CharsAreDigits(d: nat)
    requires d < 62
    ensures |CHARS| == 62 && DigitOf(CHARS[d]) == d
  {
    if d < 10 {
      assert d in {0, 1, 2, 3, 4, 5, 6, 7, 8, 9};
      assert CHARS[d] == DIGITS[d];
    } else if d < 36 {
      Letters(d - 10);
      assert CHARS[d] == UPPER[d - 10];
    } else {
      Letters(d - 36);
      assert CHARS[d] == LOWER[d - 36];
    }
  }

  lemma Letters(e: nat)
    requires e < 26
    ensures UPPER[e] == 'A' + e as char && LOWER[e] == 'a' + e as char
  {
  }

  // The code of data: its big-endian value in base 62, at least eight
  // characters, no padding beyond that.
  ghost predicate CodeOf(data: seq<uint8>, code: string) {
    && Decode(code) == BigEndian(data)
    && |code| >= 8
    && (|code| > 8 ==> code[0] != '0')
    && AllDigits(code)
  }

  ghost predicate AllDigits(s: string) {
    forall i :: 0 <= i < |s| ==> DigitOf(s[i]) < 62
  }

  method Base62Encode(data: seq<uint8>) returns (code: string)
    ensures CodeOf(data, code)
    ensures |data| == 8 ==> 8 <= |code| <= 11
  {
    hide BigEndian, Decode, DecodeLow, DigitOf;
    var result := LowDigits(BigEndian(data));
    while |result| < 8
      invariant BigEndian(data) == DecodeLow(result)
      invariant AllDigits(result)
      invariant |result| > 8 ==> result[|result| - 1] != '0'
      decreases 8 - |result|
    {
      Pad(result);
      result := result + ['0'];
    }
    code := ReverseInPlace(result);
    DecodeRev(result);
    if |data| == 8 {
      LengthBound(data, code);
    }
  }

  lemma Pad(s: string)
    requires AllDigits(s)
    ensures DecodeLow(s + ['0']) == DecodeLow(s) && AllDigits(s + ['0'])
  {
    AppendLow(s, '0');
  }

  // The digits of n, least significant first; none for zero.
  method LowDigits(n0: nat) returns (result: string)
    ensures DecodeLow(result) == n0 && AllDigits(result)
    ensures result != "" ==> result[|result| - 1] != '0'
  {
    var n := n0;
    result := "";
    while n > 0
      invariant DecodeLow(result) + Pow(62, |result|) * n == n0
      invariant AllDigits(result)
      invariant n == 0 && result != "" ==> result[|result| - 1] != '0'
    {
      var mod := n % 62;
      var c := Char(mod);
      Push(result, n, c);
      n := n / 62;
      result := result + [c];
    }
  }

  // Moving the last digit of n to the front of the number written so far.
  lemma Push(s: string, n: nat, c: char)
    requires n > 0 && AllDigits(s) && DigitOf(c) == n % 62
    ensures DecodeLow(s + [c]) + Pow(62, |s| + 1) * (n / 62) == DecodeLow(s) + Pow(62, |s|) * n
    ensures AllDigits(s + [c])
    ensures n / 62 == 0 ==> c != '0'
  {
    AppendLow(s, c);
    Split(Pow(62, |s|), n);
  }

  function Char(d: nat): (c: char)
    requires d < 62
    ensures DigitOf(c) == d
  {
    CharsAreDigits(d);
    CHARS[d]
  }

  // The closing loop: swap from both ends towards the middle.
  method ReverseInPlace(s: string) returns (result: string)
    ensures result == Rev(s)
  {
    result := s;
    var i, j := 0, |result| - 1;
    while i < j
      invariant 0 <= i && i + j == |s| - 1 && i <= j + 1
      invariant |result| == |s|
      invariant forall k :: i <= k <= j ==> result[k] == s[k]
      invariant forall k :: 0 <= k < i || j < k < |s| ==> result[k] == s[|s| - 1 - k]
    {
      assert s[j] == s[|s| - 1 - i] && s[i] == s[|s| - 1 - j];
      assert result[i] == s[i] && result[j] == s[j];
      result := result[i := result[j]][j := result[i]];
      i, j := i + 1, j - 1;
    }
    assert result == Rev(s);
  }

  lemma Split(p: nat, n: nat)
    ensures p * n == p * (n % 62) + 62 * p * (n / 62)
  {
  }

  lemma {:induction false} AppendLow(s: string, c: char)
    ensures DecodeLow(s + [c]) == DecodeLow(s) + Pow(62, |s|) * DigitOf(c)
  {
    if s == "" {
      assert [c][1..] == "";
    } else {
      assert (s + [c])[1..] == s[1..] + [c] && (s + [c])[0] == s[0];
      AppendLow(s[1..], c);
      Regroup(DecodeLow(s[1..]), Pow(62, |s| - 1), DigitOf(c));
    }
  }

  lemma Regroup(x: nat, p: nat, d: nat)
    ensures 62 * (x + p * d) == 62 * x + 62 * p * d
  {
  }

  lemma {:induction false} DecodeRev(s: string)
    ensures Decode(Rev(s)) == DecodeLow(s)
  {
    if s != "" {
      DecodeRev(s[1..]);
      assert Rev(s)[..|s| - 1] == Rev(s[1..]);
    }
  }

  // ---- length -------------------------------------------------------------

  lemma {:induction false} BigEndianBound(data: seq<uint8>)
    ensures BigEndian(data) < Pow(256, |data|)
  {
    if data != [] {
      BigEndianBound(data[..|data| - 1]);
    }
  }

  // A code whose first character is not '0' stands for at least 62^(length - 1).
  lemma {:induction false} DecodeLower(code: string)
    requires code != "" && 1 <= DigitOf(code[0])
    ensures Decode(code) >= Pow(62, |code| - 1)
  {
    if |code| > 1 {
      DecodeLower(code[..|code| - 1]);
    } else {
      assert code[..0] == "";
    }
  }

  lemma {:induction false} PowGrows(a: nat, b: nat)
    requires a <= b
    ensures Pow(62, a) <= Pow(62, b)
  {
    if a < b {
      PowGrows(a, b - 1);
    }
  }

  lemma TwelveDigits()
    ensures Pow(256, 8) < Pow(62, 11)
  {
  }

  // The code of eight bytes has eight to eleven characters.
  lemma LengthBound(data: seq<uint8>, code: string)
    requires |data| == 8 && CodeOf(data, code)
    ensures |code| <= 11
  {
    if |code| > 11 {
      NonZeroDigit(code[0]);
      BigEndianBound(data);
      DecodeLower(code);
      PowGrows(11, |code| - 1);
      TwelveDigits();
    }
  }

  // ---- injectivity --------------------------------------------------------

  lemma {:induction false} BigEndianInjective(a: seq<uint8>, b: seq<uint8>)
    requires |a| == |b| && BigEndian(a) == BigEndian(b)
    ensures a == b
  {
    if a != [] {
      BigEndianInjective(a[..|a| - 1], b[..|b| - 1]);
      assert a == a[..|a| - 1] + [a[|a| - 1]];
      assert b == b[..|b| - 1] + [b[|b| - 1]];
    }
  }

  // Different inputs of the same length never share a code ...
  lemma Injective(a: seq<uint8>, b: seq<uint8>, code: string)
    requires |a| == |b| && CodeOf(a, code) && CodeOf(b, code)
    ensures a == b
  {
    BigEndianInjective(a, b);
  }

  // ... and every input has only one.
  lemma Unique(data: seq<uint8>, c: string, d: string)
    requires CodeOf(data, c) && CodeOf(data, d)
    ensures c == d
  {
    if |c| < |d| {
      Longer(c, d);
    } else if |d| < |c| {
      Longer(d, c);
    }
    DecodeInjective(c, d);
  }

  lemma Longer(c: string, d: string)
    requires AllDigits(c) && AllDigits(d) && |c| < |d| && d[0] != '0'
    ensures Decode(c) < Decode(d)
  {
  }

  lemma NonZeroDigit(c: char)
    ensures c != '0' ==> DigitOf(c) >= 1
  {
  }

  lemma {:induction false} DecodeInjective(c: string, d: string)
    requires |c| == |d| && AllDigits(c) && AllDigits(d) && Decode(c) == Decode(d)
    ensures c == d
  {
    if c != "" {
      var n := |c| - 1;
      assert DigitOf(c[n]) == DigitOf(d[n]) && Decode(c[..n]) == Decode(d[..n]);
      DecodeInjective(c[..n], d[..n]);
      SameDigit(c[n], d[n]);
      assert c == c[..n] + [c[n]] && d == d[..n] + [d[n]];
    }
  }

  lemma SameDigit(c: char, d: char)
    requires DigitOf(c) == DigitOf(d) < 62
    ensures c == d
  {
  }

  // ---- the order of bytes and digits ----------------------------------------

  lemma Associate(a: nat, b: nat, c: nat)
    ensures a * (b * c) == a * b * c
  {
  }

  // Earlier bytes weigh more ...
  lemma {:induction false} BigEndianConcat(a: seq<uint8>, b: seq<uint8>)
    ensures BigEndian(a + b) == BigEndian(a) * Pow(256, |b|) + BigEndian(b)
    decreases |b|
  {
    if b == [] {
      assert a + b == a;
    } else {
      var front, x := b[..|b| - 1], b[|b| - 1] as nat;
      assert (a + b)[..|a + b| - 1] == a + front;
      BigEndianConcat(a, front);
      Shifted(BigEndian(a), Pow(256, |front|), BigEndian(front), 256);
    }
  }

  // ... and so do earlier digits.
  lemma {:induction false} DecodeConcat(c: string, d: string)
    ensures Decode(c + d) == Decode(c) * Pow(62, |d|) + Decode(d)
    decreases |d|
  {
    if d == "" {
      assert c + d == c;
    } else {
      var front := d[..|d| - 1];
      assert (c + d)[..|c + d| - 1] == c + front;
      DecodeConcat(c, front);
      Shifted(Decode(c), Pow(62, |front|), Decode(front), 62);
    }
  }

  lemma Shifted(a: nat, p: nat, f: nat, m: nat)
    ensures (a * p + f) * m == a * (m * p) + f * m
  {
    Associate(a, p, m);
    assert p * m == m * p;
  }

  lemma {:induction false} ZeroBytes(data: seq<uint8>)
    requires forall i :: 0 <= i < |data| ==> data[i] == 0
    ensures BigEndian(data) == 0
  {
    if data != [] {
      ZeroBytes(data[..|data| - 1]);
    }
  }

  lemma {:induction false} ZeroDigits(code: string)
    requires forall i :: 0 <= i < |code| ==> code[i] == '0'
    ensures Decode(code) == 0
  {
    if code != "" {
      ZeroDigits(code[..|code| - 1]);
    }
  }

  // The code of the bytes 0, 0, 0, 0, 0, 0, 0, 1 is "00000001".
  lemma CodeOfOne(code: string)
    requires CodeOf([0, 0, 0, 0, 0, 0, 0, 1], code)
    ensures code == "00000001"
  {
    var data: seq<uint8> := [0, 0, 0, 0, 0, 0, 0, 1];
    ZeroBytes(data[..7]);
    ZeroDigits("00000001"[..7]);
    assert BigEndian(data) == 1;
    assert Decode("00000001") == 1;
    Unique(data, code, "00000001");
  }
}
