/** Field descriptors in the style of the standard's message tables, and access
    to the fields they describe in a message buffer. */
module IbaFields {
  import opened Words
  import opened BitFields
  import opened ByteOrder

  /** What an IBA_FIELD macro expands to: where the enclosing word starts, the
      field's mask in it, and the word's width, here in bytes. */
  datatype Field = Field(offset: nat, mask: nat, bytes: nat) {
    predicate Fits(buf: seq<byte>) {
      bytes <= 8 && offset + bytes <= |buf|
    }
  }

  // ---- The descriptors ----

  function FieldBloc(byteOffset: nat, bitOffset: nat, numBits: nat): Field
    requires numBits >= 1 && bitOffset + numBits <= 8
  {
    Field(byteOffset, GenMask(7 - bitOffset, 7 - bitOffset - (numBits - 1)), 1)
  }

  /** What the next two macros share: a field that starts at byte `k` of a word. */
  function FieldInWord(offset: nat, k: nat, numBits: nat, bytes: nat): Field
    requires numBits >= 1 && k * 8 + numBits <= 8 * bytes <= 64
  {
    Field(offset, GenMask(8 * bytes - 1 - k * 8, 8 * bytes - 1 - k * 8 - (numBits - 1)), bytes)
  }

  function Field16Loc(byteOffset: nat, numBits: nat): Field
    requires numBits >= 1 && (byteOffset % 2) * 8 + numBits <= 16
  {
    FieldInWord(And(byteOffset, 0xFFFE), byteOffset % 2, numBits, 2)
  }

  function Field32Loc(byteOffset: nat, numBits: nat): Field
    requires numBits >= 1 && (byteOffset % 4) * 8 + numBits <= 32
  {
    FieldInWord(And(byteOffset, 0xFFFC), byteOffset % 4, numBits, 4)
  }

  function Field64Loc(byteOffset: nat): Field {
    Field(byteOffset, GenMask(63, 0), 8)
  }

  // ---- The meaning of a position in a message ----

  /** Bit `k` of the message, counting from the most significant bit of byte 0. */
  predicate BitOf(buf: seq<byte>, k: nat)
    requires k < 8 * |buf|
  {
    Bit(buf[k / 8], 7 - k % 8)
  }

  /** The number written big-endian in the `n` bits from bit `s` on. */
  function BitsAt(buf: seq<byte>, s: nat, n: nat): nat
    requires s + n <= 8 * |buf|
  {
    if n == 0 then 0
    else 2 * BitsAt(buf, s, n - 1) + if BitOf(buf, s + n - 1) then 1 else 0
  }

  lemma {:induction false} BitsAtBit(buf: seq<byte>, s: nat, n: nat, i: nat)
    requires s + n <= 8 * |buf|
    ensures Bit(BitsAt(buf, s, n), i) == (i < n && BitOf(buf, s + n - 1 - i))
  {
    if n == 0 {
      ZeroBit(i);
    } else if i > 0 {
      BitsAtBit(buf, s, n - 1, i - 1);
    }
  }

  lemma {:induction false} SameBitsAt(a: seq<byte>, b: seq<byte>, s: nat, n: nat)
    requires |a| == |b| && s + n <= 8 * |a|
    requires forall k: nat :: s <= k < s + n ==> BitOf(a, k) == BitOf(b, k)
    ensures BitsAt(a, s, n) == BitsAt(b, s, n)
  {
    forall i: nat
      ensures Bit(BitsAt(a, s, n), i) == Bit(BitsAt(b, s, n), i)
    {
      BitsAtBit(a, s, n, i);
      BitsAtBit(b, s, n, i);
    }
    SameBits(BitsAt(a, s, n), BitsAt(b, s, n));
  }

  lemma BytePosition(e: nat, j: nat)
    requires j < 8 * e
    ensures (8 * e - 1 - j) / 8 == e - 1 - j / 8 && 7 - (8 * e - 1 - j) % 8 == j % 8
  {
    DivModUnique(8 * e - 1 - j, 8, e - 1 - j / 8, 7 - j % 8);
  }

  /** Bit `j` of the big-endian word of `n` bytes at `o`. */
  lemma WordBit(buf: seq<byte>, o: nat, n: nat, j: nat)
    requires o + n <= |buf| && j < 8 * n
    ensures Bit(Load(Big, buf[o..o + n]), j) == BitOf(buf, 8 * (o + n) - 1 - j)
  {
    LoadBit(Big, buf[o..o + n], j);
    BytePosition(o + n, j);
  }

  /** Descriptor `f` describes the `w` bits from bit `s` on. */
  predicate Describes(f: Field, s: nat, w: nat) {
    && w >= 1 && 8 * f.offset <= s && s + w <= 8 * (f.offset + f.bytes)
    && IsMask(f.mask, 8 * (f.offset + f.bytes) - 1 - s, 8 * (f.offset + f.bytes) - s - w)
  }

  lemma {:induction false} AlignedOffset(x: nat, h: nat, l: nat, f: nat)
    requires IsMask(f, h, l)
    ensures And(x, f) == ((x / Pow2(l)) % Pow2(h - l + 1)) * Pow2(l)
  {
    MaskIsSmall(f, h, l, 64);
    FieldArithmetic(f, h, l, x);
    ShfOfMask(f, h, l);
    var y := And(x, f);
    forall i: nat
      ensures Bit(y, i) == Bit(Shl(Shr(y, l), l), i)
    {
      AndBit(x, f, i);
      MaskBit(f, h, l, i);
      ShlBit(Shr(y, l), l, i);
      if i >= l {
        ShrBit(y, l, i - l);
      }
    }
    SameBits(y, Shl(Shr(y, l), l));
    ShlIsMul(Shr(y, l), l);
  }

  lemma {:induction false} MaskFFFE(x: nat)
    ensures And(x, 0xFFFE) == ((x / 2) % 32768) * 2
  {
    assert Pow2(1) == 2 && Pow2(15) == 32768 && Pow2(16) == 65536;
    AlignedOffset(x, 15, 1, 0xFFFE);
  }

  lemma {:induction false} MaskFFFC(x: nat)
    ensures And(x, 0xFFFC) == ((x / 4) % 16384) * 4
  {
    assert Pow2(2) == 4 && Pow2(14) == 16384 && Pow2(16) == 65536;
    AlignedOffset(x, 15, 2, 0xFFFC);
  }

  /** The address masks round down to the word exactly for offsets below 65536. */
  lemma {:induction false} WordOffset(x: nat)
    ensures And(x, 0xFFFE) == x - x % 2 <==> x < 65536
    ensures And(x, 0xFFFC) == x - x % 4 <==> x < 65536
  {
    MaskFFFE(x);
    MaskFFFC(x);
  }

  lemma BlocDescribes(byteOffset: nat, bitOffset: nat, numBits: nat)
    requires numBits >= 1 && bitOffset + numBits <= 8
    ensures Describes(FieldBloc(byteOffset, bitOffset, numBits), 8 * byteOffset + bitOffset, numBits)
  {
    var h := 7 - bitOffset;
    GenMaskIsContiguous(h, h - (numBits - 1));
    InWord(byteOffset, 1, GenMask(h, h - (numBits - 1)), bitOffset, numBits);
  }

  /** A mask `skip` bits below the top of the word of `n` bytes at `o`. */
  lemma InWord(o: nat, n: nat, mask: nat, skip: nat, w: nat)
    requires w >= 1 && skip + w <= 8 * n && IsMask(mask, 8 * n - 1 - skip, 8 * n - skip - w)
    ensures Describes(Field(o, mask, n), 8 * o + skip, w)
  { }

  /** A mask `k` bytes below the top of the word of `n` bytes around byte offset `b`. */
  lemma AroundByte(b: nat, k: nat, n: nat, mask: nat, w: nat)
    requires k <= b && w >= 1 && k * 8 + w <= 8 * n
    requires IsMask(mask, 8 * n - 1 - k * 8, 8 * n - 1 - k * 8 - (w - 1))
    ensures Describes(Field(b - k, mask, n), 8 * b, w)
  {
    InWord(b - k, n, mask, k * 8, w);
  }

  lemma LocDescribes(b: nat, k: nat, n: nat, w: nat)
    requires k <= b && n <= 8 && w >= 1 && k * 8 + w <= 8 * n
    ensures Describes(FieldInWord(b - k, k, w, n), 8 * b, w)
  {
    GenMaskIsContiguous(8 * n - 1 - k * 8, 8 * n - 1 - k * 8 - (w - 1));
    AroundByte(b, k, n, FieldInWord(b - k, k, w, n).mask, w);
  }

  lemma Field16Describes(byteOffset: nat, numBits: nat)
    requires numBits >= 1 && (byteOffset % 2) * 8 + numBits <= 16 && byteOffset < 65536
    ensures Describes(Field16Loc(byteOffset, numBits), 8 * byteOffset, numBits)
  {
    WordOffset(byteOffset);
    LocDescribes(byteOffset, byteOffset % 2, 2, numBits);
  }

  lemma Field32Describes(byteOffset: nat, numBits: nat)
    requires numBits >= 1 && (byteOffset % 4) * 8 + numBits <= 32 && byteOffset < 65536
    ensures Describes(Field32Loc(byteOffset, numBits), 8 * byteOffset, numBits)
  {
    WordOffset(byteOffset);
    LocDescribes(byteOffset, byteOffset % 4, 4, numBits);
  }

  lemma AlignedField32(byteOffset: nat, numBits: nat)
    requires byteOffset % 4 == 0 && byteOffset < 65536 && 1 <= numBits <= 32
    ensures var f := Field32Loc(byteOffset, numBits); f.offset == byteOffset && f.bytes == 4 && f.mask > 0
    ensures Describes(Field32Loc(byteOffset, numBits), 8 * byteOffset, numBits)
  {
    Field32Describes(byteOffset, numBits);
    WordOffset(byteOffset);
    MaskIsSmall(Field32Loc(byteOffset, numBits).mask, 31, 32 - numBits, 32);
  }

  lemma Field64Describes(byteOffset: nat)
    ensures Describes(Field64Loc(byteOffset), 8 * byteOffset, 64)
  {
    GenMaskIsContiguous(63, 0);
  }

  // ---- Reading ----

  /** _IBA_GET: load the word, FIELD_GET, cast to the word's type. */
  function IbaGet(f: Field, buf: seq<byte>): nat
    requires f.Fits(buf) && f.mask > 0
  {
    Low(FieldGet(f.mask, Load(Big, buf[f.offset..f.offset + f.bytes])), 8 * f.bytes)
  }

  lemma WordFieldBit(buf: seq<byte>, o: nat, n: nat, mask: nat, h: nat, l: nat, i: nat)
    requires o + n <= |buf| && IsMask(mask, h, l) && h < 8 * n && mask > 0
    ensures
      Bit(FieldGet(mask, Load(Big, buf[o..o + n])), i) == Bit(BitsAt(buf, 8 * (o + n) - 1 - h, h - l + 1), i)
  {
    FieldGetBit(mask, h, l, Load(Big, buf[o..o + n]), i);
    BitsAtBit(buf, 8 * (o + n) - 1 - h, h - l + 1, i);
    if i <= h - l {
      WordBit(buf, o, n, i + l);
    }
  }

  /** A field of the big-endian word of `n` bytes at `o`. */
  lemma WordField(buf: seq<byte>, o: nat, n: nat, mask: nat, h: nat, l: nat)
    requires o + n <= |buf| && IsMask(mask, h, l) && h < 8 * n && mask > 0
    ensures FieldGet(mask, Load(Big, buf[o..o + n])) == BitsAt(buf, 8 * (o + n) - 1 - h, h - l + 1)
  {
    var x := Load(Big, buf[o..o + n]);
    var a, b := FieldGet(mask, x), BitsAt(buf, 8 * (o + n) - 1 - h, h - l + 1);
    forall i: nat
      ensures Bit(a, i) == Bit(b, i)
    {
      WordFieldBit(buf, o, n, mask, h, l, i);
    }
    SameBits(a, b);
  }

  lemma {:induction false} FieldIsSmall(mask: nat, h: nat, l: nat, x: nat, n: nat)
    requires IsMask(mask, h, l) && h < n && mask > 0
    ensures FieldGet(mask, x) < Pow2(n)
  {
    var y := FieldGet(mask, x);
    forall i: nat
      ensures i >= n ==> !Bit(y, i)
    {
      FieldGetBit(mask, h, l, x, i);
    }
    BitsBelow(y, n);
  }

  lemma CastKeepsField(buf: seq<byte>, o: nat, n: nat, mask: nat, h: nat, l: nat)
    requires o + n <= |buf| && IsMask(mask, h, l) && h < 8 * n && mask > 0
    ensures Low(FieldGet(mask, Load(Big, buf[o..o + n])), 8 * n) == BitsAt(buf, 8 * (o + n) - 1 - h, h - l + 1)
  {
    var x := Load(Big, buf[o..o + n]);
    WordField(buf, o, n, mask, h, l);
    FieldIsSmall(mask, h, l, x, 8 * n);
    LowOfSmall(FieldGet(mask, x), 8 * n);
  }

  /** IBA_GET returns exactly the number written big-endian in the bits its
      descriptor describes. */
  lemma {:induction false} GetReadsBits(f: Field, s: nat, w: nat, buf: seq<byte>)
    requires f.Fits(buf) && Describes(f, s, w) && f.mask > 0
    ensures IbaGet(f, buf) == BitsAt(buf, s, w)
  {
    var top := 8 * (f.offset + f.bytes);
    CastKeepsField(buf, f.offset, f.bytes, f.mask, top - 1 - s, top - s - w);
  }

  // ---- Writing ----

  /** The word _iba_set leaves: the field cleared, the prepared value or-ed in. */
  function SetWord(f: Field, x: nat, v: nat): nat
    requires 0 < f.mask < Pow2(8 * f.bytes)
  {
    Or(And(x, Not(f.mask, 8 * f.bytes)), FieldPrep(f.mask, v))
  }

  /** _IBA_SET: load the word, change it, store it. */
  function IbaSet(f: Field, buf: seq<byte>, v: nat): (r: seq<byte>)
    requires f.Fits(buf) && 0 < f.mask < Pow2(8 * f.bytes)
    ensures |r| == |buf|
  {
    var x := Load(Big, buf[f.offset..f.offset + f.bytes]);
    Overwrite(buf, f.offset, Store(Big, SetWord(f, x, v), f.bytes))
  }

  lemma SetReplacesWord(f: Field, h: nat, l: nat, x: nat, v: nat)
    requires IsMask(f.mask, h, l) && h < 8 * f.bytes && 0 < f.mask < Pow2(8 * f.bytes) && x < Pow2(8 * f.bytes)
    ensures Replaced(SetWord(f, x, v), x, v, h, l)
  {
    var m, e := Not(f.mask, 8 * f.bytes), FieldPrep(f.mask, v);
    var y := SetWord(f, x, v);
    forall i: nat
      ensures Bit(y, i) == if l <= i <= h then Bit(v, i - l) else Bit(x, i)
    {
      OrBit(And(x, m), e, i);
      AndBit(x, m, i);
      NotBit(f.mask, 8 * f.bytes, i);
      MaskBit(f.mask, h, l, i);
      FieldPrepBit(f.mask, h, l, v, i);
      if i >= 8 * f.bytes {
        HighBit(x, 8 * f.bytes, i);
      }
    }
  }

  /** The bits of a buffer after one word of it is overwritten. */
  lemma {:induction false} OverwriteBit(buf: seq<byte>, o: nat, n: nat, y: nat, k: nat)
    requires o + n <= |buf| && k < 8 * |buf|
    ensures
      BitOf(Overwrite(buf, o, Store(Big, y, n)), k) ==
      if 8 * o <= k < 8 * (o + n) then Bit(y, 8 * (o + n) - 1 - k) else BitOf(buf, k)
  {
    var r := Overwrite(buf, o, Store(Big, y, n));
    if 8 * o <= k < 8 * (o + n) {
      var j := 8 * (o + n) - 1 - k;
      assert r[o..o + n] == Store(Big, y, n);
      LoadStore(Big, y, n);
      LowBit(y, 8 * n, j);
      WordBit(r, o, n, j);
    }
  }

  lemma OverwriteReplaced(buf: seq<byte>, o: nat, n: nat, y: nat, v: nat, s: nat, w: nat, k: nat)
    requires o + n <= |buf| && k < 8 * |buf| && 8 * o <= s && w >= 1 && s + w <= 8 * (o + n)
    requires Replaced(y, Load(Big, buf[o..o + n]), v, 8 * (o + n) - 1 - s, 8 * (o + n) - s - w)
    ensures
      BitOf(Overwrite(buf, o, Store(Big, y, n)), k) ==
      if s <= k < s + w then Bit(v, s + w - 1 - k) else BitOf(buf, k)
  {
    OverwriteBit(buf, o, n, y, k);
    if 8 * o <= k < 8 * (o + n) {
      var j: nat := 8 * (o + n) - 1 - k;
      assert Bit(y, j) == if s <= k < s + w then Bit(v, s + w - 1 - k) else Bit(Load(Big, buf[o..o + n]), j);
      WordBit(buf, o, n, j);
    }
  }

  lemma {:induction false} DescribedReplaced(f: Field, s: nat, w: nat, buf: seq<byte>, v: nat)
    requires f.Fits(buf) && Describes(f, s, w) && 0 < f.mask < Pow2(8 * f.bytes)
    ensures
      var x, e := Load(Big, buf[f.offset..f.offset + f.bytes]), 8 * (f.offset + f.bytes);
      Replaced(SetWord(f, x, v), x, v, e - 1 - s, e - s - w)
  {
    var x, e := Load(Big, buf[f.offset..f.offset + f.bytes]), 8 * (f.offset + f.bytes);
    LoadIsSmall(Big, buf[f.offset..f.offset + f.bytes]);
    SetReplacesWord(f, e - 1 - s, e - s - w, x, v);
  }

  /** IBA_SET, bit by bit over the whole message: the described bits become the
      low bits of `v`, and no other bit changes. */
  lemma {:induction false} SetWritesBits(f: Field, s: nat, w: nat, buf: seq<byte>, v: nat, k: nat)
    requires f.Fits(buf) && Describes(f, s, w) && 0 < f.mask < Pow2(8 * f.bytes) && k < 8 * |buf|
    ensures BitOf(IbaSet(f, buf, v), k) == if s <= k < s + w then Bit(v, s + w - 1 - k) else BitOf(buf, k)
  {
    var x := Load(Big, buf[f.offset..f.offset + f.bytes]);
    DescribedReplaced(f, s, w, buf, v);
    OverwriteReplaced(buf, f.offset, f.bytes, SetWord(f, x, v), v, s, w, k);
  }

  lemma {:induction false} SetBitsAt(f: Field, s: nat, w: nat, buf: seq<byte>, v: nat)
    requires f.Fits(buf) && Describes(f, s, w) && 0 < f.mask < Pow2(8 * f.bytes)
    ensures BitsAt(IbaSet(f, buf, v), s, w) == Low(v, w)
  {
    var r := IbaSet(f, buf, v);
    var a, b := BitsAt(r, s, w), Low(v, w);
    forall i: nat
      ensures Bit(a, i) == Bit(b, i)
    {
      BitsAtBit(r, s, w, i);
      LowBit(v, w, i);
      if i < w {
        SetWritesBits(f, s, w, buf, v, s + w - 1 - i);
      }
    }
    SameBits(a, b);
  }

  /** Reading a field back after writing it gives the value modulo 2^width. */
  lemma {:induction false} SetThenGet(f: Field, s: nat, w: nat, buf: seq<byte>, v: nat)
    requires f.Fits(buf) && Describes(f, s, w) && 0 < f.mask < Pow2(8 * f.bytes)
    ensures IbaGet(f, IbaSet(f, buf, v)) == v % Pow2(w)
  {
    GetReadsBits(f, s, w, IbaSet(f, buf, v));
    SetBitsAt(f, s, w, buf, v);
    ShrIsDiv(v, w);
  }

  /** Any field on other bits, of whatever word, reads as before. */
  lemma SetKeepsOtherFields(f: Field, s: nat, w: nat, g: Field, s': nat, w': nat, buf: seq<byte>, v: nat)
    requires f.Fits(buf) && Describes(f, s, w) && 0 < f.mask < Pow2(8 * f.bytes)
    requires g.Fits(buf) && Describes(g, s', w') && g.mask > 0
    requires s + w <= s' || s' + w' <= s
    ensures IbaGet(g, IbaSet(f, buf, v)) == IbaGet(g, buf)
  {
    var r := IbaSet(f, buf, v);
    GetReadsBits(g, s', w', r);
    GetReadsBits(g, s', w', buf);
    forall k: nat | s' <= k < s' + w'
      ensures BitOf(r, k) == BitOf(buf, k)
    {
      SetWritesBits(f, s, w, buf, v, k);
    }
    SameBitsAt(r, buf, s', w');
  }

  /** In `r` the field `f` reads `v` modulo 2^width, and every field on other bits
      reads as in `buf`. */
  ghost predicate HoldsField(f: Field, buf: seq<byte>, r: seq<byte>, v: nat) {
    && |r| == |buf| && f.Fits(r) && f.mask > 0
    && forall s: nat, w: nat :: Describes(f, s, w) ==>
         IbaGet(f, r) == v % Pow2(w) && SameFieldsOff(buf, r, s, w)
  }

  ghost predicate SameFieldsOff(buf: seq<byte>, r: seq<byte>, s: nat, w: nat) {
    forall g: Field, s': nat, w': nat ::
      Describes(g, s', w') && g.Fits(buf) && g.Fits(r) && g.mask > 0 && (s + w <= s' || s' + w' <= s) ==>
        IbaGet(g, r) == IbaGet(g, buf)
  }

  lemma {:induction false} SetHoldsField(f: Field, buf: seq<byte>, v: nat)
    requires f.Fits(buf) && 0 < f.mask < Pow2(8 * f.bytes)
    ensures HoldsField(f, buf, IbaSet(f, buf, v), v)
  {
    var r := IbaSet(f, buf, v);
    forall s: nat, w: nat | Describes(f, s, w)
      ensures IbaGet(f, r) == v % Pow2(w) && SameFieldsOff(buf, r, s, w)
    {
      SetThenGet(f, s, w, buf, v);
      forall g: Field, s': nat, w': nat |
        Describes(g, s', w') && g.Fits(buf) && g.Fits(r) && g.mask > 0 && (s + w <= s' || s' + w' <= s)
        ensures IbaGet(g, r) == IbaGet(g, buf)
      {
        SetKeepsOtherFields(f, s, w, g, s', w', buf, v);
      }
    }
  }

  /** _IBA_SET on the buffer itself. */
  method IbaSetInPlace(f: Field, buf: array<byte>, v: nat)
    requires f.Fits(buf[..]) && 0 < f.mask < Pow2(8 * f.bytes)
    modifies buf
    ensures buf[..] == IbaSet(f, old(buf[..]), v)
    ensures HoldsField(f, old(buf[..]), buf[..], v)
  {
    SetHoldsField(f, buf[..], v);
    assert buf[..][f.offset..f.offset + f.bytes] == buf[f.offset..f.offset + f.bytes];
    var x := Load(Big, buf[f.offset..f.offset + f.bytes]);
    WriteWord(buf, f.offset, Store(Big, SetWord(f, x, v), f.bytes));
  }

  /** Whole bytes read as bits are the bytes loaded big-endian. */
  lemma {:induction false} BytesAsBits(buf: seq<byte>, o: nat, n: nat)
    requires o + n <= |buf|
    ensures BitsAt(buf, 8 * o, 8 * n) == Load(Big, buf[o..o + n])
  {
    var x, y := BitsAt(buf, 8 * o, 8 * n), Load(Big, buf[o..o + n]);
    forall i: nat
      ensures Bit(x, i) == Bit(y, i)
    {
      BitsAtBit(buf, 8 * o, 8 * n, i);
      if i < 8 * n {
        WordBit(buf, o, n, i);
      } else {
        LoadBit(Big, buf[o..o + n], i);
      }
    }
    SameBits(x, y);
  }
}
