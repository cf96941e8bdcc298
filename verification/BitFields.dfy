/** Masks and the two families of field accessors: by shift (FIELD_PREP,
    FIELD_GET) and by multiplication (encode_bits, get_bits, replace_bits). */
module BitFields {
  import opened Words

  /** `f` is the contiguous mask of bits `l` to `h` of a 64-bit word. */
  predicate IsMask(f: nat, h: nat, l: nat) {
    l <= h < 64 && f == Pow2(h + 1) - Pow2(l)
  }

  lemma {:induction false} MaskBit(f: nat, h: nat, l: nat, i: nat)
    requires IsMask(f, h, l)
    ensures Bit(f, i) == (l <= i <= h)
  {
    Pow2Monotone(l, h + 1);
    assert f == Not(Pow2(l) - 1, h + 1);
    NotBit(Pow2(l) - 1, h + 1, i);
    OnesBit(l, i);
  }

  lemma {:induction false} MaskIsSmall(f: nat, h: nat, l: nat, n: nat)
    requires IsMask(f, h, l) && h < n
    ensures 0 < f < Pow2(n)
  {
    Pow2Monotone(h + 1, n);
    Pow2Monotone(l, h);
  }

  // ---- GENMASK ----

  /** (~0 - (1 << l) + 1) & (~0 >> (n - 1 - h)) on words of `n` bits. */
  function GenMaskOn(n: nat, h: nat, l: nat): nat
    requires l <= h < n
  {
    ShlOne(l);
    Pow2Monotone(l, n);
    And(Pow2(n) - 1 - Shl(1, l) + 1, Shr(Pow2(n) - 1, n - 1 - h))
  }

  /** A long, and a long long, has 64 bits. */
  function GenMask(h: nat, l: nat): nat
    requires l <= h < 64
  {
    GenMaskOn(64, h, l)
  }

  lemma OnesBetween(n: nat, h: nat, l: nat)
    requires l <= h < n && Pow2(l) <= Pow2(n) && Pow2(l) <= Pow2(h + 1)
    ensures And(Not(Pow2(l) - 1, n), Shr(Pow2(n) - 1, n - 1 - h)) == Not(Pow2(l) - 1, h + 1)
  {
    var a, b, f := Not(Pow2(l) - 1, n), Shr(Pow2(n) - 1, n - 1 - h), Not(Pow2(l) - 1, h + 1);
    forall i: nat
      ensures Bit(And(a, b), i) == Bit(f, i)
    {
      AndBit(a, b, i);
      NotBit(Pow2(l) - 1, n, i);
      NotBit(Pow2(l) - 1, h + 1, i);
      OnesBit(l, i);
      ShrBit(Pow2(n) - 1, n - 1 - h, i);
      OnesBit(n, i + n - 1 - h);
    }
    SameBits(And(a, b), f);
  }

  lemma {:induction false} GenMaskOnIs(n: nat, h: nat, l: nat)
    requires l <= h < n
    ensures GenMaskOn(n, h, l) == Pow2(h + 1) - Pow2(l)
  {
    ShlOne(l);
    Pow2Monotone(l, n);
    Pow2Monotone(l, h + 1);
    OnesBetween(n, h, l);
    assert Pow2(n) - 1 - Shl(1, l) + 1 == Not(Pow2(l) - 1, n);
  }

  /** GENMASK(h, l) is 2^(h+1) - 2^l: ones exactly from bit `l` to bit `h`. */
  lemma GenMaskIsContiguous(h: nat, l: nat)
    requires l <= h < 64
    ensures IsMask(GenMask(h, l), h, l)
  {
    GenMaskOnIs(64, h, l);
  }

  // ---- FIELD_PREP and FIELD_GET ----

  /** Index of the lowest set bit, ffs(x) - 1. */
  function Shf(x: nat): nat
    requires x > 0
  {
    if x % 2 == 1 then 0 else 1 + Shf(x / 2)
  }

  lemma {:induction false} ShfFindsBit(x: nat, i: nat)
    requires x > 0
    ensures Bit(x, Shf(x)) && (i < Shf(x) ==> !Bit(x, i))
  {
    if x % 2 == 0 {
      ShfFindsBit(x / 2, if i == 0 then 0 else i - 1);
    }
  }

  lemma {:induction false} ShfOfMask(f: nat, h: nat, l: nat)
    requires IsMask(f, h, l)
    ensures f > 0 && Shf(f) == l
  {
    MaskIsSmall(f, h, l, 64);
    ShfFindsBit(f, l);
    MaskBit(f, h, l, Shf(f));
    MaskBit(f, h, l, l);
  }

  function FieldPrep(f: nat, v: nat): nat
    requires f > 0
  {
    And(Low(Shl(v, Shf(f)), 64), f)
  }

  function FieldGet(f: nat, x: nat): nat
    requires f > 0
  {
    Shr(And(x, f), Shf(f))
  }

  lemma {:induction false} FieldPrepBit(f: nat, h: nat, l: nat, v: nat, i: nat)
    requires IsMask(f, h, l) && f > 0
    ensures Bit(FieldPrep(f, v), i) == (l <= i <= h && Bit(v, i - l))
  {
    ShfOfMask(f, h, l);
    AndBit(Low(Shl(v, l), 64), f, i);
    LowBit(Shl(v, l), 64, i);
    ShlBit(v, l, i);
    MaskBit(f, h, l, i);
  }

  lemma {:induction false} FieldGetBit(f: nat, h: nat, l: nat, x: nat, i: nat)
    requires IsMask(f, h, l) && f > 0
    ensures Bit(FieldGet(f, x), i) == (i <= h - l && Bit(x, i + l))
  {
    ShfOfMask(f, h, l);
    ShrBit(And(x, f), l, i);
    AndBit(x, f, i + l);
    MaskBit(f, h, l, i + l);
  }

  /** FIELD_GET is division and remainder, FIELD_PREP remainder and product. */
  lemma {:induction false} FieldArithmetic(f: nat, h: nat, l: nat, x: nat)
    requires IsMask(f, h, l) && f > 0
    ensures FieldGet(f, x) == (x / Pow2(l)) % Pow2(h - l + 1)
    ensures FieldPrep(f, x) == (x % Pow2(h - l + 1)) * Pow2(l)
  {
    var w := h - l + 1;
    forall i: nat
      ensures Bit(FieldGet(f, x), i) == Bit(Low(Shr(x, l), w), i)
      ensures Bit(FieldPrep(f, x), i) == Bit(Shl(Low(x, w), l), i)
    {
      FieldGetBit(f, h, l, x, i);
      LowBit(Shr(x, l), w, i);
      ShrBit(x, l, i);
      FieldPrepBit(f, h, l, x, i);
      ShlBit(Low(x, w), l, i);
      if i >= l {
        LowBit(x, w, i - l);
      }
    }
    SameBits(FieldGet(f, x), Low(Shr(x, l), w));
    SameBits(FieldPrep(f, x), Shl(Low(x, w), l));
    ShrIsDiv(x, l);
    ShrIsDiv(Shr(x, l), w);
    ShrIsDiv(x, w);
    ShlIsMul(Low(x, w), l);
  }

  // ---- The multiplicative family ----

  // Stated for words of any width `n`; the source's are of 64 bits.

  /** -x and x - 1 on `n` bits. */
  function Negate(n: nat, x: nat): nat
    requires x < Pow2(n)
  {
    if x == 0 then 0 else Pow2(n) - x
  }

  function Decrement(n: nat, x: nat): nat {
    if x == 0 then Pow2(n) - 1 else x - 1
  }

  function FieldMultiplier(n: nat, f: nat): nat
    requires f < Pow2(n)
  {
    And(f, Negate(n, f))
  }

  /** What field_multiplier checks before it accepts a mask. */
  predicate MultiplierAccepts(n: nat, f: nat) {
    var y := Or(f, Decrement(n, f));
    And(y, Low(y + 1, n)) == 0
  }

  /** What __BF_FIELD_CHECK checks: mask plus its lowest bit is a power of two. */
  predicate FieldCheckAccepts(n: nat, f: nat)
    requires f > 0
  {
    var m := Low(f + Shl(1, Shf(f)), n);
    And(m, Decrement(n, m)) == 0
  }

  lemma {:induction false} AndComplement(x: nat, n: nat)
    requires x < Pow2(n)
    ensures And(x, Pow2(n) - 1 - x) == 0
  {
    if n > 0 {
      AndComplement(x / 2, n - 1);
      assert (Pow2(n) - 1 - x) / 2 == Pow2(n - 1) - 1 - x / 2;
    }
  }

  /** x & -x is the lowest set bit. */
  lemma {:induction false} LowestBit(x: nat, n: nat)
    requires 0 < x < Pow2(n)
    ensures And(x, Pow2(n) - x) == Pow2(Shf(x))
  {
    if x % 2 == 1 {
      AndComplement(x / 2, n - 1);
      assert (Pow2(n) - x) / 2 == Pow2(n - 1) - 1 - x / 2;
    } else {
      LowestBit(x / 2, n - 1);
      assert (Pow2(n) - x) / 2 == Pow2(n - 1) - x / 2;
    }
  }

  /** x | (x - 1) fills the zeros below the lowest set bit. */
  lemma {:induction false} FillBelow(x: nat)
    requires x > 0
    ensures Or(x, x - 1) == x + Pow2(Shf(x)) - 1
  {
    if x % 2 == 1 {
      if x > 1 {
        OrWithSelf(x / 2);
      }
    } else {
      FillBelow(x / 2);
      assert (x - 1) / 2 == x / 2 - 1;
    }
  }

  lemma {:induction false} OrWithSelf(x: nat)
    ensures Or(x, x) == x
  {
    if x > 0 {
      OrWithSelf(x / 2);
    }
  }

  ghost predicate IsPow2(n: nat) {
    exists a: nat :: n == Pow2(a)
  }

  lemma {:induction false} Pow2Doubles(a: nat)
    ensures IsPow2(2 * Pow2(a))
  {
    assert 2 * Pow2(a) == Pow2(a + 1);
  }

  /** n & (n - 1) is zero exactly for the powers of two. */
  lemma {:induction false} PowerOf2Test(n: nat)
    requires n > 0
    ensures And(n - 1, n) == 0 <==> IsPow2(n)
  {
    if n == 1 {
      assert n == Pow2(0);
    } else if n % 2 == 1 {
      assert (n - 1) / 2 == n / 2;
      AndWithSelf(n / 2);
    } else {
      PowerOf2Test(n / 2);
      assert (n - 1) / 2 == n / 2 - 1;
      if a: nat :| n / 2 == Pow2(a) {
        Pow2Doubles(a);
      }
      if a: nat :| n == Pow2(a) {
        assert n / 2 == Pow2(a - 1);
      }
    }
  }

  lemma {:induction false} AndWithSelf(x: nat)
    ensures And(x, x) == x
  {
    if x > 0 {
      AndWithSelf(x / 2);
    }
  }

  /** Adding one to the filled mask and taking one away again, modulo 2^n. */
  lemma WrapsBack(n: nat, y: nat)
    requires y < Pow2(n)
    ensures Decrement(n, Low(y + 1, n)) == y
    ensures y + 1 == Pow2(n) ==> Low(y + 1, n) == 0
    ensures y + 1 < Pow2(n) ==> Low(y + 1, n) == y + 1
  {
    if y + 1 < Pow2(n) {
      LowOfSmall(y + 1, n);
    } else {
      ShrIsDiv(y + 1, n);
      DivModUnique(y + 1, Pow2(n), 1, 0);
    }
  }

  /** The two checks compute the same word, y & (y + 1) for y the filled mask. */
  lemma {:induction false} ChecksAgree(n: nat, f: nat)
    requires 0 < f < Pow2(n)
    ensures MultiplierAccepts(n, f) == FieldCheckAccepts(n, f)
  {
    var y := Or(f, f - 1);
    FillBelow(f);
    ShlOne(Shf(f));
    FilledIsSmall(f, n);
    WrapsBack(n, y);
    AndCommutes(y, Low(y + 1, n));
  }

  lemma FilledIsSmall(f: nat, n: nat)
    requires 0 < f < Pow2(n)
    ensures Or(f, f - 1) < Pow2(n)
  {
    var y := Or(f, f - 1);
    forall i: nat
      ensures i >= n ==> !Bit(y, i)
    {
      OrBit(f, f - 1, i);
      if i >= n {
        HighBit(f, n, i);
        HighBit(f - 1, n, i);
      }
    }
    BitsBelow(y, n);
  }

  lemma {:induction false} AndCommutes(x: nat, y: nat)
    ensures And(x, y) == And(y, x)
  {
    forall i: nat
      ensures Bit(And(x, y), i) == Bit(And(y, x), i)
    {
      AndBit(x, y, i);
      AndBit(y, x, i);
    }
    SameBits(And(x, y), And(y, x));
  }

  /** Both checks accept exactly the contiguous masks. */
  lemma {:induction false} ChecksAcceptContiguous(n: nat, f: nat)
    requires 0 < f < Pow2(n) && n <= 64
    ensures MultiplierAccepts(n, f) == FieldCheckAccepts(n, f)
    ensures MultiplierAccepts(n, f) <==> exists h, l :: IsMask(f, h, l)
  {
    ChecksAgree(n, f);
    if MultiplierAccepts(n, f) {
      AcceptedIsContiguous(n, f);
    }
    if h, l :| IsMask(f, h, l) {
      ContiguousIsAccepted(n, f, h, l);
    }
  }

  lemma {:induction false} AcceptedIsContiguous(n: nat, f: nat)
    requires 0 < f < Pow2(n) && n <= 64 && MultiplierAccepts(n, f)
    ensures exists h, l :: IsMask(f, h, l)
  {
    var y := Or(f, f - 1);
    FillBelow(f);
    FilledIsSmall(f, n);
    WrapsBack(n, y);
    var a: nat := n;
    if y + 1 < Pow2(n) {
      PowerOf2Test(y + 1);
      a :| y + 1 == Pow2(a);
      Pow2Reflects(a, n);
    }
    Pow2Reflects(Shf(f), a);
    assert IsMask(f, a - 1, Shf(f));
  }

  lemma {:induction false} ContiguousIsAccepted(n: nat, f: nat, h: nat, l: nat)
    requires 0 < f < Pow2(n) && IsMask(f, h, l)
    ensures MultiplierAccepts(n, f)
  {
    var y := Or(f, f - 1);
    ShfOfMask(f, h, l);
    FillBelow(f);
    FilledIsSmall(f, n);
    WrapsBack(n, y);
    assert y + 1 == Pow2(h + 1);
    if y + 1 < Pow2(n) {
      PowerOf2Test(y + 1);
    }
  }

  lemma {:induction false} Pow2Reflects(a: nat, b: nat)
    requires Pow2(a) < Pow2(b)
    ensures a < b
  {
    if a >= b {
      Pow2Monotone(b, a);
    }
  }

  /** The width of a contiguous mask, and its two factors. */
  lemma MaskFactors(n: nat, f: nat, h: nat, l: nat)
    requires IsMask(f, h, l) && h < n
    ensures 0 < f < Pow2(n) && FieldMultiplier(n, f) == Pow2(l)
    ensures f / Pow2(l) == Pow2(h - l + 1) - 1
  {
    MaskIsSmall(f, h, l, n);
    ShfOfMask(f, h, l);
    LowestBit(f, n);
    Pow2Sum(h - l + 1, l);
    FactorOut(f, Pow2(h - l + 1), Pow2(l));
  }

  lemma FactorOut(f: int, w: int, p: int)
    requires p > 0 && f == w * p - p
    ensures f / p == w - 1
  {
    assert (w - 1) * p == w * p - p;
    DivModUnique(f, p, w - 1, 0);
  }

  /** Unsigned division. */
  function Quotient(x: nat, m: nat): nat
    requires m > 0
  {
    x / m
  }

  /** field_mask: the mask moved down to bit 0. */
  function FieldMask(n: nat, f: nat): nat
    requires 0 < f < Pow2(n)
  {
    LowestBit(f, n);
    Quotient(f, FieldMultiplier(n, f))
  }

  /** encode_bits on a base type of `b` bits, with 64-bit arithmetic inside. */
  function EncodeBits(n: nat, b: nat, v: nat, f: nat): nat
    requires 0 < f < Pow2(n)
  {
    Low(Low(And(v, FieldMask(n, f)) * FieldMultiplier(n, f), n), b)
  }

  function GetBits(n: nat, x: nat, f: nat): nat
    requires 0 < f < Pow2(n)
  {
    LowestBit(f, n);
    Quotient(And(x, f), FieldMultiplier(n, f))
  }

  lemma {:induction false} AndOnes(x: nat, w: nat)
    ensures And(x, Pow2(w) - 1) == Low(x, w)
  {
    forall i: nat
      ensures Bit(And(x, Pow2(w) - 1), i) == Bit(Low(x, w), i)
    {
      AndBit(x, Pow2(w) - 1, i);
      OnesBit(w, i);
      LowBit(x, w, i);
    }
    SameBits(And(x, Pow2(w) - 1), Low(x, w));
  }

  lemma {:induction false} PrepIsSmall(f: nat, h: nat, l: nat, v: nat, n: nat)
    requires IsMask(f, h, l) && f > 0 && h < n
    ensures FieldPrep(f, v) < Pow2(n)
  {
    forall i: nat
      ensures i >= n ==> !Bit(FieldPrep(f, v), i)
    {
      FieldPrepBit(f, h, l, v, i);
    }
    BitsBelow(FieldPrep(f, v), n);
  }

  lemma {:induction false} EncodeIsPrep(n: nat, b: nat, f: nat, h: nat, l: nat, x: nat)
    requires IsMask(f, h, l) && h < b <= n
    ensures 0 < f < Pow2(n) && EncodeBits(n, b, x, f) == FieldPrep(f, x)
  {
    var w := h - l + 1;
    MaskFactors(n, f, h, l);
    FieldArithmetic(f, h, l, x);
    AndOnes(x, w);
    ShrIsDiv(x, w);
    assert And(x, FieldMask(n, f)) * FieldMultiplier(n, f) == FieldPrep(f, x);
    PrepIsSmall(f, h, l, x, b);
    PrepIsSmall(f, h, l, x, n);
    LowOfSmall(FieldPrep(f, x), n);
    LowOfSmall(FieldPrep(f, x), b);
  }

  /** The two families agree on every contiguous mask of the base type: encoding
      is FIELD_PREP and extracting is FIELD_GET. */
  lemma {:induction false} FamiliesAgree(n: nat, b: nat, f: nat, h: nat, l: nat, x: nat)
    requires IsMask(f, h, l) && h < b <= n
    ensures 0 < f < Pow2(n)
    ensures EncodeBits(n, b, x, f) == FieldPrep(f, x)
    ensures GetBits(n, x, f) == FieldGet(f, x)
  {
    EncodeIsPrep(n, b, f, h, l, x);
    MaskFactors(n, f, h, l);
    ShfOfMask(f, h, l);
    ShrIsDiv(And(x, f), l);
  }

  // ---- Writing a field ----

  /** `x` is `y` with bits `l` to `h` replaced by those of `v`. */
  ghost predicate Replaced(x: nat, y: nat, v: nat, h: nat, l: nat) {
    forall i: nat :: Bit(x, i) == if l <= i <= h then Bit(v, i - l) else Bit(y, i)
  }

  lemma {:induction false} ReplacedReads(x: nat, y: nat, v: nat, f: nat, h: nat, l: nat)
    requires IsMask(f, h, l) && f > 0 && Replaced(x, y, v, h, l)
    ensures FieldGet(f, x) == v % Pow2(h - l + 1)
  {
    forall i: nat
      ensures Bit(FieldGet(f, x), i) == Bit(Low(v, h - l + 1), i)
    {
      FieldGetBit(f, h, l, x, i);
      LowBit(v, h - l + 1, i);
    }
    SameBits(FieldGet(f, x), Low(v, h - l + 1));
    ShrIsDiv(v, h - l + 1);
  }

  lemma ReplacedKeeps(x: nat, y: nat, v: nat, h: nat, l: nat, g: nat, h': nat, l': nat)
    requires Replaced(x, y, v, h, l) && IsMask(g, h', l') && g > 0 && (h < l' || h' < l)
    ensures FieldGet(g, x) == FieldGet(g, y)
  {
    forall i: nat
      ensures Bit(FieldGet(g, x), i) == Bit(FieldGet(g, y), i)
    {
      FieldGetBit(g, h', l', x, i);
      FieldGetBit(g, h', l', y, i);
    }
    SameBits(FieldGet(g, x), FieldGet(g, y));
  }
}
