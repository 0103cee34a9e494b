// Bucket selection of the LRU-2 store: a wrapping 32-bit string hash, and a
// power-of-two mask applied with a bitwise AND.
module Hashing {
  import opened Prelude

  newtype int32 = x: int | -0x8000_0000 <= x < 0x8000_0000

  const TWO32: int := 0x1_0000_0000

  // The int32 with the low 32 bits of x.
  function Wrap32(x: int): int32 {
    var r := x % TWO32;
    (if r < 0x8000_0000 then r else r - TWO32) as int32
  }

  // The hash polynomial over unbounded integers.
  function Poly(s: Key): int {
    if s == [] then 0 else Poly(s[..|s| - 1]) * 131 + s[|s| - 1] as int
  }

  function Weight(n: nat): nat {
    if n == 0 then 1 else 131 * Weight(n - 1)
  }

  // Every character weighs 131 times the next.
  lemma {:induction false} PolyConcat(s: Key, t: Key)
    ensures Poly(s + t) == Poly(s) * Weight(|t|) + Poly(t)
    decreases |t|
  {
    if t == [] {
      assert s + t == s;
    } else {
      var front, n := t[..|t| - 1], |t| - 1;
      assert (s + t)[..|s + t| - 1] == s + front;
      PolyConcat(s, front);
      assert (Poly(s) * Weight(n)) * 131 == Poly(s) * (131 * Weight(n));
    }
  }

  lemma PolyOne(c: uint8)
    ensures Poly([c]) == c as int
  {
    assert [c][..0] == [];
  }

  // Wrapping at every step gives the same as wrapping once at the end.
  lemma WrapStep(a: int, b: int)
    ensures Wrap32(Wrap32(a) as int * 131 + b) == Wrap32(a * 131 + b)
  {
  }

  method HashBKRD(s: Key) returns (hash: int32)
    ensures hash == Wrap32(Poly(s))
  {
    hash := 0;
    for i := 0 to |s|
      invariant hash == Wrap32(Poly(s[..i]))
    {
      var a, b := Poly(s[..i]), s[i] as int;
      assert s[..i + 1][..i] == s[..i];
      WrapStep(a, b);
      hash := Wrap32(hash as int * 131 + b);
    }
    assert s[..|s|] == s;
  }

  // ---- bitwise AND --------------------------------------------------------

  // Bitwise AND of two naturals, bit by bit.
  function And(x: nat, y: nat): nat {
    if x == 0 || y == 0 then 0
    else (if x % 2 == 1 && y % 2 == 1 then 1 else 0) + 2 * And(x / 2, y / 2)
  }

  // Bitwise AND of two int32 values on their two's complement representations.
  function And32(x: int32, y: int32): int32 {
    Wrap32(And(x as int % TWO32, y as int % TWO32))
  }

  function Pow2(j: nat): (r: nat)
    ensures r > 0
  {
    if j == 0 then 1 else 2 * Pow2(j - 1)
  }

  lemma {:induction false} AndMask(x: nat, j: nat)
    ensures And(x, Pow2(j) - 1) == x % Pow2(j)
  {
    if j > 0 {
      var p := Pow2(j - 1);
      AndMask(x / 2, j - 1);
      assert (2 * p - 1) % 2 == 1 && (2 * p - 1) / 2 == p - 1;
      HalfRemainder(x, p);
    }
  }

  lemma HalfRemainder(x: nat, p: nat)
    requires p > 0
    ensures x % (2 * p) == 2 * (x / 2 % p) + x % 2
  {
    var q, r, b := x / 2 / p, x / 2 % p, x % 2;
    assert x / 2 == p * q + r;
    assert 2 * (p * q) == 2 * p * q;
    RemainderIs(x, 2 * p, q, 2 * r + b);
  }

  lemma RemainderIs(y: int, a: int, q: int, r: int)
    requires a > 0 && y == a * q + r && 0 <= r < a
    ensures y % a == r
  {
    QuotientUnique(a, q, r, y / a, y % a);
  }

  lemma QuotientUnique(a: int, q: int, r: int, q': int, r': int)
    requires a > 0 && 0 <= r < a && 0 <= r' < a
    requires a * q + r == a * q' + r'
    ensures q == q' && r == r'
  {
    Distribute(a, q, q');
    if q > q' {
      Grows(a, q - q');
    } else if q < q' {
      Distribute(a, q', q);
      Grows(a, q' - q);
    }
  }

  lemma Distribute(a: int, q: int, q': int)
    ensures a * (q - q') == a * q - a * q'
  {
  }

  lemma Grows(a: int, d: int)
    requires a > 0 && d >= 1
    ensures a * d >= a
  {
  }

  // Dropping high bits first does not change the low ones.
  lemma RemainderOfRemainder(x: int, a: int, b: int)
    requires a > 0 && b > 0
    ensures (x % (a * b)) % a == x % a
  {
    var m := a * b;
    var q, q2 := x / m, (x % m) / a;
    var r := (x % m) % a;
    assert x == m * q + (a * q2 + r);
    assert m * q == a * (b * q);
    assert x == a * (b * q + q2) + r;
    RemainderIs(x, a, b * q + q2, r);
  }

  lemma {:induction false} Pow2Split(j: nat, k: nat)
    requires j <= k
    ensures Pow2(k) == Pow2(j) * Pow2(k - j)
  {
    if j > 0 {
      Pow2Split(j - 1, k - 1);
      assert 2 * (Pow2(j - 1) * Pow2(k - j)) == 2 * Pow2(j - 1) * Pow2(k - j);
    }
  }

  // ANDing with 2^j - 1 is the Euclidean remainder by 2^j, whatever the sign
  // of the hash, so neither the sign nor the wrapping of the hash matters.
  lemma MaskIsRemainder(x: int, j: nat)
    requires j <= 31
    ensures Pow2(j) <= 0x8000_0000
    ensures And32(Wrap32(x), Wrap32(Pow2(j) - 1)) as int == x % Pow2(j)
  {
    hide Pow2, And;
    Pow2Bound(j);
    var p, c := Pow2(j), 2 * Pow2(31 - j);
    var u := x % TWO32;
    WrapLow(x);
    WrapLow(p - 1);
    AndMask(u, j);
    RemainderOfRemainder(x, p, c);
    WrapSmall(u % p);
  }

  lemma WrapLow(x: int)
    ensures Wrap32(x) as int % TWO32 == x % TWO32
    ensures 0 <= x < 0x8000_0000 ==> x % TWO32 == x && Wrap32(x) as int == x
  {
  }

  lemma WrapSmall(x: int)
    requires 0 <= x < 0x8000_0000
    ensures Wrap32(x) as int == x
  {
  }

  lemma Pow2Bound(j: nat)
    requires j <= 31
    ensures Pow2(j) <= 0x8000_0000 && Pow2(j) * (2 * Pow2(31 - j)) == TWO32
  {
    Pow2Split(j, 31);
    Pow2Values();
    TwiceProduct(Pow2(j), Pow2(31 - j));
  }

  lemma TwiceProduct(a: nat, b: nat)
    requires a * b == 0x8000_0000 && b > 0
    ensures a <= 0x8000_0000 && a * (2 * b) == TWO32
  {
  }

  lemma Pow2Values()
    ensures Pow2(4) == 16 && Pow2(8) == 0x100 && Pow2(15) == 0x8000 && Pow2(16) == 0x1_0000 && Pow2(31) == 0x8000_0000
  {
    assert Pow2(4) == 16;
    Pow2Split(4, 8);
    Pow2Split(8, 16);
    Pow2Split(15, 31);
  }

  // ---- the mask -----------------------------------------------------------

  // Number of bits of the least power of two not below n.
  function Bits(n: nat): (j: nat)
    ensures n <= Pow2(j)
    ensures j > 0 ==> Pow2(j - 1) < n
  {
    BitsFrom(n, 0)
  }

  function BitsFrom(n: nat, j: nat): (r: nat)
    requires j > 0 ==> Pow2(j - 1) < n
    ensures n <= Pow2(r)
    ensures r > 0 ==> Pow2(r - 1) < n
    decreases n - Pow2(j)
  {
    if n <= Pow2(j) then j else BitsFrom(n, j + 1)
  }

  // Bitwise OR of two naturals, bit by bit.
  function Or(x: nat, y: nat): nat
    decreases x + y
  {
    if x == 0 && y == 0 then 0
    else (if x % 2 == 1 || y % 2 == 1 then 1 else 0) + 2 * Or(x / 2, y / 2)
  }

  // Right shift by k bits.
  function Shr(x: nat, k: nat): nat
    decreases k
  {
    if k == 0 then x else Shr(x / 2, k - 1)
  }

  lemma {:induction false} ShrShr(x: nat, a: nat, b: nat)
    ensures Shr(Shr(x, a), b) == Shr(x, a + b)
    decreases a
  {
    if a > 0 {
      ShrShr(x / 2, a - 1, b);
    }
  }

  lemma {:induction false} ShrOr(x: nat, y: nat, k: nat)
    ensures Shr(Or(x, y), k) == Or(Shr(x, k), Shr(y, k))
    decreases k
  {
    if k > 0 {
      assert Or(x, y) / 2 == Or(x / 2, y / 2);
      ShrOr(x / 2, y / 2, k - 1);
    }
  }

  lemma {:induction false} ShrOnes(t: nat, k: nat)
    requires k <= t
    ensures Shr(Pow2(t) - 1, k) == Pow2(t - k) - 1
    decreases k
  {
    if k > 0 {
      assert (Pow2(t) - 1) / 2 == Pow2(t - 1) - 1;
      ShrOnes(t - 1, k - 1);
    }
  }

  lemma {:induction false} ShrTop(c: nat, k: nat)
    requires Pow2(k) <= c < Pow2(k + 1)
    ensures Shr(c, k) == 1
    decreases k
  {
    if k > 0 {
      ShrTop(c / 2, k - 1);
    }
  }

  lemma {:induction false} OrZero(x: nat)
    ensures Or(x, 0) == x
  {
    if x > 0 {
      OrZero(x / 2);
    }
  }

  // t ones above u arbitrary bits: filling the low u bits leaves t + u ones.
  lemma {:induction false} FillLow(a: nat, u: nat, t: nat)
    requires Shr(a, u) == Pow2(t) - 1
    ensures Or(a, Pow2(u) - 1) == Pow2(t + u) - 1
    decreases u
  {
    if u == 0 {
      OrZero(a);
    } else {
      var p := Pow2(u - 1);
      FillLow(a / 2, u - 1, t);
      assert (2 * p - 1) % 2 == 1 && (2 * p - 1) / 2 == p - 1;
    }
  }

  // A number of at most j bits whose top t bits are all ones.
  predicate TopOnes(c: nat, j: nat, t: nat) {
    t <= j && Shr(c, j - t) == Pow2(t) - 1
  }

  // One smearing step doubles the run of leading ones.
  lemma SmearStep(c: nat, j: nat, t: nat)
    requires TopOnes(c, j, if t < j then t else j)
    ensures TopOnes(Or(c, Shr(c, t)), j, if 2 * t < j then 2 * t else j)
  {
    hide Or, Shr, Pow2;
    if t < j {
      SmearMore(c, j, t, if 2 * t < j then t else j - t);
    } else {
      SmearDone(c, j, t);
    }
  }

  lemma SmearDone(c: nat, j: nat, t: nat)
    requires j <= t && TopOnes(c, j, j)
    ensures Or(c, Shr(c, t)) == c
  {
    hide Or, Shr, Pow2;
    ShrZeroSteps(c);
    ShrOnes(j, j);
    Pow2Zero();
    ShrShr(c, j, t - j);
    ShrZero(t - j);
    OrZero(c);
  }

  lemma SmearMore(c: nat, j: nat, t: nat, u: nat)
    requires t + u <= j && u <= t && TopOnes(c, j, t)
    ensures TopOnes(Or(c, Shr(c, t)), j, t + u)
  {
    hide Or, Shr, Pow2;
    var low := j - (t + u);
    ShrOr(c, Shr(c, t), low);
    ShrShr(c, t, low);
    ShrShr(c, j - t, t - u);
    ShrShr(c, low, u);
    assert t + low == (j - t) + (t - u) && low + u == j - t && t - (t - u) == u;
    ShrOnes(t, t - u);
    FillLow(Shr(c, low), u, t);
  }

  lemma ShrZeroSteps(c: nat)
    ensures Shr(c, 0) == c
  {
  }

  lemma Pow2Zero()
    ensures Pow2(0) == 1
  {
  }

  lemma {:induction false} ShrZero(k: nat)
    ensures Shr(0, k) == 0
    decreases k
  {
    if k > 0 {
      ShrZero(k - 1);
    }
  }

  // c & (c - 1) is zero exactly at the powers of two.
  lemma {:induction false} PowerOfTwo(c: nat)
    requires c > 0 && And(c, c - 1) == 0
    ensures c == Pow2(Bits(c))
  {
    if c % 2 == 0 {
      assert (c - 1) / 2 == c / 2 - 1 && And(c, c - 1) == 2 * And(c / 2, c / 2 - 1);
      PowerOfTwo(c / 2);
      BitsUnique(c, Bits(c / 2) + 1);
    } else if c > 1 {
      AndSelf(c / 2);
    } else {
      BitsUnique(1, 0);
    }
  }

  lemma {:induction false} AndSelf(x: nat)
    ensures And(x, x) == x
  {
    if x > 0 {
      AndSelf(x / 2);
    }
  }

  // The number of bits of a number that is no power of two.
  lemma BitLength(c: nat)
    requires c > 0 && And(c, c - 1) != 0
    ensures Bits(c) > 0 && Pow2(Bits(c) - 1) <= c < Pow2(Bits(c))
  {
    hide And, Pow2;
    Pow2Zero();
    AndOne();
    if c == Pow2(Bits(c)) {
      AndMask(c, Bits(c));
      RemainderIs(c, c, 1, 0);
    }
  }

  lemma AndOne()
    ensures And(1, 0) == 0
  {
  }

  lemma BitsBound(n: nat)
    requires n < 0x1_0000
    ensures Bits(n) <= 16 && Pow2(Bits(n)) <= 0x1_0000
  {
    Pow2Values();
    if Bits(n) > 16 {
      Pow2Monotone(16, Bits(n) - 1);
    }
    Pow2Monotone(Bits(n), 16);
  }

  // Copies the highest set bit into every lower position. One more than the
  // mask is the least power of two not below cap.
  method MaskOfNextPowOf2(cap: uint16) returns (mask: uint16)
    ensures mask as int + 1 == Pow2(Bits(cap as int))
  {
    if cap > 0 && And(cap as int, cap as int - 1) == 0 {
      PowerOfTwo(cap as int);
      return cap - 1;
    }
    ghost var j := Bits(cap as int);
    if cap > 0 {
      BitLength(cap as int);
      ShrTop(cap as int, j - 1);
    }
    BitsBound(cap as int);
    var c: nat := cap as int;
    SmearStep(c, j, 1);
    c := Or(c, Shr(c, 1));
    SmearStep(c, j, 2);
    c := Or(c, Shr(c, 2));
    SmearStep(c, j, 4);
    c := Or(c, Shr(c, 4));
    SmearStep(c, j, 8);
    c := Or(c, Shr(c, 8));
    return c as uint16;
  }

  lemma {:induction false} BitsUnique(n: nat, j: nat)
    requires n <= Pow2(j) && (j > 0 ==> Pow2(j - 1) < n)
    ensures Bits(n) == j
  {
    var b := Bits(n);
    if b < j {
      Pow2Monotone(b, j - 1);
    } else if j < b {
      Pow2Monotone(j, b - 1);
    }
  }

  lemma {:induction false} Pow2Monotone(i: nat, j: nat)
    requires i <= j
    ensures Pow2(i) <= Pow2(j)
  {
    if i < j {
      Pow2Monotone(i, j - 1);
    }
  }

  // ---- bucket selection ---------------------------------------------------

  // hashBKRD(key) & mask.
  function BucketOf(key: Key, mask: int32): int32 {
    And32(Wrap32(Poly(key)), mask)
  }

  // For a mask of j low ones the bucket is the remainder of the unbounded hash
  // by the number of buckets: always a valid index.
  lemma BucketInRange(key: Key, mask: int32, j: nat)
    requires j <= 16 && mask as int + 1 == Pow2(j)
    ensures BucketOf(key, mask) as int == Poly(key) % Pow2(j)
    ensures 0 <= BucketOf(key, mask) <= mask
  {
    WrapLow(mask as int);
    MaskIsRemainder(Poly(key), j);
  }

  // The bucket count mask + 1 is computed in 16 bits: it survives exactly when
  // at most 32768 buckets are asked for.
  lemma BucketCountFits(n: nat)
    requires 0 < n < 0x1_0000
    ensures Pow2(Bits(n)) % 0x1_0000 == Pow2(Bits(n)) <==> n <= 0x8000
    ensures n <= 0x8000 <==> Bits(n) <= 15
  {
    var b := Bits(n);
    Pow2Values();
    if n <= 0x8000 {
      if b > 15 { Pow2Monotone(15, b - 1); }
      Pow2Monotone(b, 15);
    } else {
      if b <= 15 { Pow2Monotone(b, 15); }
      if b > 16 { Pow2Monotone(16, b - 1); }
    }
  }
}
