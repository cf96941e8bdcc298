/** The queue pair word of the base transport header: FECN, BECN and six reserved
    bits in its first byte, the 24-bit destination QPN in the other three. */
module Bth {
  import opened Words
  import opened BitFields
  import opened ByteOrder

  const FECN_MASK: nat := 0x8000_0000
  const BECN_MASK: nat := 0x4000_0000
  const RESV6A_MASK: nat := 0x3f00_0000
  const QPN_MASK: nat := 0x00ff_ffff

  /** The word as stored, in network byte order. */
  type QpnWord = w: seq<byte> | |w| == 4 witness [0, 0, 0, 0]

  function GetQpn(w: QpnWord): nat {
    And(QPN_MASK, Load(Big, w))
  }

  /** (QPN_MASK & qpn) | (~QPN_MASK & old) */
  function SetQpnWord(x: nat, qpn: nat): nat {
    Or(And(QPN_MASK, qpn), And(0xff00_0000, x))
  }

  function SetQpn(w: QpnWord, qpn: nat): (r: QpnWord) {
    Store(Big, SetQpnWord(Load(Big, w), qpn), 4)
  }

  /** 0 != (htonl(mask) & word): the flag tests work on the stored bytes. */
  predicate TestMask(w: QpnWord, mask: nat) {
    Load(Big, BytesAnd(Store(Big, mask, 4), w)) != 0
  }

  function SetMask(w: QpnWord, mask: nat, on: bool): (r: QpnWord) {
    if on then BytesOr(w, Store(Big, mask, 4)) else BytesAnd(w, BytesNot(Store(Big, mask, 4)))
  }

  lemma MaskValues()
    ensures QPN_MASK == Pow2(24) - 1 && IsMask(0xff00_0000, 31, 24)
    ensures IsMask(FECN_MASK, 31, 31) && IsMask(BECN_MASK, 30, 30) && IsMask(RESV6A_MASK, 29, 24)
  {
    Pow2Values();
    assert Pow2(25) == 2 * Pow2(24) && Pow2(26) == 4 * Pow2(24) && Pow2(27) == 8 * Pow2(24);
    assert Pow2(28) == 16 * Pow2(24) && Pow2(29) == 32 * Pow2(24) && Pow2(30) == 64 * Pow2(24);
    assert Pow2(31) == 2 * Pow2(30);
  }

  // ---- The QPN ----

  lemma SetQpnReplaces(x: nat, qpn: nat)
    requires x < Pow2(32)
    ensures Replaced(SetQpnWord(x, qpn), x, qpn, 23, 0)
  {
    MaskValues();
    var y := SetQpnWord(x, qpn);
    forall i: nat
      ensures Bit(y, i) == if 0 <= i <= 23 then Bit(qpn, i - 0) else Bit(x, i)
    {
      OrBit(And(QPN_MASK, qpn), And(0xff00_0000, x), i);
      AndBit(QPN_MASK, qpn, i);
      AndBit(0xff00_0000, x, i);
      OnesBit(24, i);
      MaskBit(0xff00_0000, 31, 24, i);
      if i >= 32 {
        HighBit(x, 32, i);
      }
    }
  }

  /** Setting the QPN keeps the first byte, with FECN, BECN and the reserved bits,
      and writes the low 24 bits of the value into the other three. */
  lemma {:induction false} SetQpnBytes(w: QpnWord, qpn: nat)
    ensures SetQpn(w, qpn) == [w[0]] + Store(Big, qpn, 3)
  {
    var bs := [w[0]] + Store(Big, qpn, 3);
    var x, y := Load(Big, w), SetQpnWord(Load(Big, w), qpn);
    LoadIsSmall(Big, w);
    SetQpnReplaces(x, qpn);
    forall i: nat
      ensures Bit(y, i) == Bit(Load(Big, bs), i)
    {
      assert Bit(y, i) == if 0 <= i <= 23 then Bit(qpn, i - 0) else Bit(x, i);
      LoadBit(Big, bs, i);
      LoadBit(Big, w, i);
      if i < 24 {
        StoreBit(Big, qpn, 3, i);
      }
    }
    SameBits(y, Load(Big, bs));
    StoreLoad(Big, bs);
  }

  /** The QPN is the last three bytes. */
  lemma GetQpnBytes(w: QpnWord)
    ensures GetQpn(w) == Load(Big, w[1..])
  {
    MaskValues();
    var a, b := GetQpn(w), Load(Big, w[1..]);
    forall i: nat
      ensures Bit(a, i) == Bit(b, i)
    {
      AndBit(QPN_MASK, Load(Big, w), i);
      OnesBit(24, i);
      LoadBit(Big, w, i);
      LoadBit(Big, w[1..], i);
    }
    SameBits(a, b);
  }

  lemma SetThenGetQpn(w: QpnWord, qpn: nat)
    ensures GetQpn(SetQpn(w, qpn)) == qpn % 0x100_0000
    ensures SetQpn(w, qpn)[0] == w[0]
  {
    SetQpnBytes(w, qpn);
    GetQpnBytes(SetQpn(w, qpn));
    assert SetQpn(w, qpn)[1..] == Store(Big, qpn, 3);
    LoadStore(Big, qpn, 3);
    ShrIsDiv(qpn, 24);
    Pow2Values();
  }

  // ---- The flags ----

  /** A one-bit flag test reads that bit of the word. */
  lemma {:induction false} TestReadsBit(w: QpnWord, mask: nat, b: nat)
    requires IsMask(mask, b, b) && b < 32
    ensures TestMask(w, mask) == Bit(Load(Big, w), b)
  {
    var ms := Store(Big, mask, 4);
    MaskIsSmall(mask, b, b, 32);
    LoadStore(Big, mask, 4);
    LowOfSmall(mask, 32);
    LoadAnd(Big, ms, w);
    var z := And(mask, Load(Big, w));
    AndBit(mask, Load(Big, w), b);
    MaskBit(mask, b, b, b);
    if !Bit(Load(Big, w), b) {
      forall i: nat
        ensures Bit(z, i) == Bit(0, i)
      {
        AndBit(mask, Load(Big, w), i);
        MaskBit(mask, b, b, i);
        ZeroBit(i);
      }
      SameBits(z, 0);
    } else {
      ZeroBit(b);
    }
  }

  /** Setting or clearing a flag changes that bit of the word and no other. */
  lemma {:induction false} SetMaskBit(w: QpnWord, mask: nat, b: nat, on: bool, i: nat)
    requires IsMask(mask, b, b) && b < 32
    ensures Bit(Load(Big, SetMask(w, mask, on)), i) == if i == b then on else Bit(Load(Big, w), i)
  {
    var ms := Store(Big, mask, 4);
    var x := Load(Big, w);
    MaskIsSmall(mask, b, b, 32);
    LoadStore(Big, mask, 4);
    LowOfSmall(mask, 32);
    MaskBit(mask, b, b, i);
    if on {
      LoadOr(Big, w, ms);
      OrBit(x, mask, i);
    } else {
      LoadNot(Big, ms);
      LoadAnd(Big, w, BytesNot(ms));
      AndBit(x, Not(mask, 32), i);
      NotBit(mask, 32, i);
      LoadBit(Big, w, i);
    }
  }

  /** The QPN and the flags do not disturb each other: a flag reads as it was last
      set, whatever was done to the QPN or to the other flag, and conversely. */
  lemma FieldsAreIndependent(w: QpnWord, qpn: nat, m: nat, b: nat, m': nat, b': nat, on: bool)
    requires IsMask(m, b, b) && IsMask(m', b', b') && 24 <= b < 32 && 24 <= b' < 32 && b != b'
    ensures TestMask(SetMask(w, m, on), m) == on
    ensures TestMask(SetMask(w, m, on), m') == TestMask(w, m')
    ensures TestMask(SetQpn(w, qpn), m) == TestMask(w, m)
    ensures GetQpn(SetMask(w, m, on)) == GetQpn(w)
  {
    TestReadsBit(SetMask(w, m, on), m, b);
    SetMaskBit(w, m, b, on, b);
    TestReadsBit(SetMask(w, m, on), m', b');
    TestReadsBit(w, m', b');
    SetMaskBit(w, m, b, on, b');
    SetQpnKeepsBit(w, qpn, b);
    TestReadsBit(SetQpn(w, qpn), m, b);
    TestReadsBit(w, m, b);
    FlagKeepsQpn(w, m, b, on);
  }

  lemma {:induction false} SetQpnKeepsBit(w: QpnWord, qpn: nat, b: nat)
    requires 24 <= b < 32
    ensures Bit(Load(Big, SetQpn(w, qpn)), b) == Bit(Load(Big, w), b)
  {
    SetQpnBytes(w, qpn);
    LoadBit(Big, SetQpn(w, qpn), b);
    LoadBit(Big, w, b);
  }

  lemma FlagKeepsQpn(w: QpnWord, m: nat, b: nat, on: bool)
    requires IsMask(m, b, b) && 24 <= b < 32
    ensures GetQpn(SetMask(w, m, on)) == GetQpn(w)
  {
    MaskValues();
    var x, y := GetQpn(SetMask(w, m, on)), GetQpn(w);
    forall i: nat
      ensures Bit(x, i) == Bit(y, i)
    {
      AndBit(QPN_MASK, Load(Big, SetMask(w, m, on)), i);
      AndBit(QPN_MASK, Load(Big, w), i);
      OnesBit(24, i);
      SetMaskBit(w, m, b, on, i);
    }
    SameBits(x, y);
  }

  // ---- In a packet buffer, with the header at `bth` ----

  /** Where the word is in the header. */
  const QPN_OFFSET: nat := 4

  method SetQpnInPlace(buf: array<byte>, bth: nat, qpn: nat)
    requires bth + 8 <= buf.Length
    modifies buf
    ensures buf[..] == Overwrite(old(buf[..]), bth + 4, SetQpn(old(buf[bth + 4..bth + 8]), qpn))
  {
    var w: QpnWord := buf[bth + QPN_OFFSET..bth + QPN_OFFSET + 4];
    WriteWord(buf, bth + QPN_OFFSET, SetQpn(w, qpn));
  }
}
