/** Words in memory: loading and storing in either byte order, and the bitwise
    operators applied to stored words byte by byte. */
module ByteOrder {
  import opened Words
  import opened BitFields

  type byte = x: int | 0 <= x < 256

  datatype Order = Big | Little

  function Load(o: Order, bs: seq<byte>): nat {
    if bs == [] then 0
    else if o.Little? then bs[0] + 256 * Load(o, bs[1..])
    else bs[|bs| - 1] + 256 * Load(o, bs[..|bs| - 1])
  }

  function Store(o: Order, x: nat, n: nat): (bs: seq<byte>)
    ensures |bs| == n
  {
    if n == 0 then []
    else if o.Little? then [x % 256] + Store(o, x / 256, n - 1)
    else Store(o, x / 256, n - 1) + [x % 256]
  }

  /** Where bit `i` of a word of `n` bytes is kept. */
  function ByteIndex(o: Order, n: nat, i: nat): nat
    requires i < 8 * n
  {
    if o.Little? then i / 8 else n - 1 - i / 8
  }

  lemma Pow2Of8()
    ensures Pow2(8) == 256
  { }

  lemma {:induction false} ByteShift(x: nat)
    ensures Shl(x, 8) == 256 * x && Shr(x, 8) == x / 256 && Low(x, 8) == x % 256
  {
    Pow2Of8();
    ShlIsMul(x, 8);
    ShrIsDiv(x, 8);
  }

  /** The bits of a concatenation. */
  lemma {:induction false} ConcatBit(lo: nat, hi: nat, n: nat, i: nat)
    requires lo < Pow2(n)
    ensures Bit(lo + Shl(hi, n), i) == if i < n then Bit(lo, i) else Bit(hi, i - n)
  {
    if n > 0 {
      var x := lo + Shl(hi, n);
      assert x / 2 == lo / 2 + Shl(hi, n - 1) && x % 2 == lo % 2;
      if i > 0 {
        ConcatBit(lo / 2, hi, n - 1, i - 1);
      }
    }
  }

  lemma ByteConcatBit(b: byte, x: nat, i: nat)
    ensures Bit(b + 256 * x, i) == if i < 8 then Bit(b, i) else Bit(x, i - 8)
  {
    Pow2Of8();
    ByteShift(x);
    ConcatBit(b, x, 8, i);
  }

  /** Every bit of a loaded word is a bit of one byte. */
  lemma {:induction false} LoadBit(o: Order, bs: seq<byte>, i: nat)
    ensures Bit(Load(o, bs), i) == (i < 8 * |bs| && Bit(bs[ByteIndex(o, |bs|, i)], i % 8))
  {
    if bs == [] {
      ZeroBit(i);
    } else {
      var b, rest := if o.Little? then bs[0] else bs[|bs| - 1], if o.Little? then bs[1..] else bs[..|bs| - 1];
      ByteConcatBit(b, Load(o, rest), i);
      if i >= 8 {
        LoadBit(o, rest, i - 8);
        assert (i - 8) / 8 == i / 8 - 1 && (i - 8) % 8 == i % 8;
      }
    }
  }

  lemma {:induction false} LoadIsSmall(o: Order, bs: seq<byte>)
    ensures Load(o, bs) < Pow2(8 * |bs|)
  {
    forall i: nat
      ensures i >= 8 * |bs| ==> !Bit(Load(o, bs), i)
    {
      LoadBit(o, bs, i);
    }
    BitsBelow(Load(o, bs), 8 * |bs|);
  }

  lemma {:induction false} StoreBit(o: Order, x: nat, n: nat, i: nat)
    requires i < 8 * n
    ensures Bit(Store(o, x, n)[ByteIndex(o, n, i)], i % 8) == Bit(x, i)
  {
    ByteShift(x);
    if i < 8 {
      LowBit(x, 8, i);
    } else {
      StoreBit(o, x / 256, n - 1, i - 8);
      ShrBit(x, 8, i - 8);
      assert (i - 8) / 8 == i / 8 - 1 && (i - 8) % 8 == i % 8;
    }
  }

  /** Storing a word and loading it again keeps its low bits. */
  lemma {:induction false} LoadStore(o: Order, x: nat, n: nat)
    ensures Load(o, Store(o, x, n)) == Low(x, 8 * n)
  {
    var bs := Store(o, x, n);
    forall i: nat
      ensures Bit(Load(o, bs), i) == Bit(Low(x, 8 * n), i)
    {
      LoadBit(o, bs, i);
      LowBit(x, 8 * n, i);
      if i < 8 * n {
        StoreBit(o, x, n, i);
      }
    }
    SameBits(Load(o, bs), Low(x, 8 * n));
  }

  /** Loading a word and storing it again keeps every byte. */
  lemma {:induction false} StoreLoad(o: Order, bs: seq<byte>)
    ensures Store(o, Load(o, bs), |bs|) == bs
  {
    if bs == [] {
    } else if o.Little? {
      StoreLoad(o, bs[1..]);
      ByteDigit(bs[0], Load(o, bs[1..]));
      assert bs == [bs[0]] + bs[1..];
    } else {
      var n := |bs| - 1;
      StoreLoad(o, bs[..n]);
      ByteDigit(bs[n], Load(o, bs[..n]));
      assert bs == bs[..n] + [bs[n]];
    }
  }

  lemma ByteDigit(b: byte, x: nat)
    ensures (b + 256 * x) % 256 == b && (b + 256 * x) / 256 == x
  { }

  // ---- Bitwise operators on stored words ----

  function BytesAnd(a: seq<byte>, b: seq<byte>): (r: seq<byte>)
    requires |a| == |b|
    ensures |r| == |a|
  {
    seq(|a|, i requires 0 <= i < |a| => AndByte(a[i], b[i]))
  }

  function BytesOr(a: seq<byte>, b: seq<byte>): (r: seq<byte>)
    requires |a| == |b|
    ensures |r| == |a|
  {
    seq(|a|, i requires 0 <= i < |a| => OrByte(a[i], b[i]))
  }

  function BytesNot(a: seq<byte>): (r: seq<byte>)
    ensures |r| == |a|
  {
    seq(|a|, i requires 0 <= i < |a| => 255 - a[i])
  }

  function AndByte(x: byte, y: byte): byte {
    BoundedByte(x, y);
    And(x, y)
  }

  function OrByte(x: byte, y: byte): byte {
    BoundedByte(x, y);
    Or(x, y)
  }

  lemma {:induction false} BoundedByte(x: byte, y: byte)
    ensures And(x, y) < 256 && Or(x, y) < 256
  {
    Pow2Of8();
    forall i: nat
      ensures i >= 8 ==> !Bit(And(x, y), i) && !Bit(Or(x, y), i)
    {
      AndBit(x, y, i);
      OrBit(x, y, i);
      if i >= 8 {
        HighBit(x, 8, i);
        HighBit(y, 8, i);
      }
    }
    BitsBelow(And(x, y), 8);
    BitsBelow(Or(x, y), 8);
  }

  /** The operators commute with loading, in either byte order. */
  lemma {:induction false} LoadAnd(o: Order, a: seq<byte>, b: seq<byte>)
    requires |a| == |b|
    ensures Load(o, BytesAnd(a, b)) == And(Load(o, a), Load(o, b))
  {
    var x, y := Load(o, BytesAnd(a, b)), And(Load(o, a), Load(o, b));
    forall i: nat
      ensures Bit(x, i) == Bit(y, i)
    {
      AndBit(Load(o, a), Load(o, b), i);
      LoadBit(o, a, i);
      LoadBit(o, b, i);
      LoadBit(o, BytesAnd(a, b), i);
      if i < 8 * |a| {
        var j := ByteIndex(o, |a|, i);
        AndBit(a[j], b[j], i % 8);
      }
    }
    SameBits(x, y);
  }

  lemma {:induction false} LoadOr(o: Order, a: seq<byte>, b: seq<byte>)
    requires |a| == |b|
    ensures Load(o, BytesOr(a, b)) == Or(Load(o, a), Load(o, b))
  {
    var x, y := Load(o, BytesOr(a, b)), Or(Load(o, a), Load(o, b));
    forall i: nat
      ensures Bit(x, i) == Bit(y, i)
    {
      OrBit(Load(o, a), Load(o, b), i);
      LoadBit(o, a, i);
      LoadBit(o, b, i);
      LoadBit(o, BytesOr(a, b), i);
      if i < 8 * |a| {
        var j := ByteIndex(o, |a|, i);
        OrBit(a[j], b[j], i % 8);
      }
    }
    SameBits(x, y);
  }

  lemma {:induction false} LoadNot(o: Order, a: seq<byte>)
    ensures Load(o, a) < Pow2(8 * |a|) && Load(o, BytesNot(a)) == Not(Load(o, a), 8 * |a|)
  {
    LoadIsSmall(o, a);
    var x, y := Load(o, BytesNot(a)), Not(Load(o, a), 8 * |a|);
    forall i: nat
      ensures Bit(x, i) == Bit(y, i)
    {
      NotBit(Load(o, a), 8 * |a|, i);
      LoadBit(o, a, i);
      LoadBit(o, BytesNot(a), i);
      if i < 8 * |a| {
        Pow2Of8();
        NotBit(a[ByteIndex(o, |a|, i)], 8, i % 8);
      }
    }
    SameBits(x, y);
  }

  // ---- replace_bits and get_bits on stored words ----

  /** (old & ~to(field)) | encode_bits(val, field), on the stored bytes. */
  function ReplaceBits(o: Order, prior: seq<byte>, v: nat, f: nat): (r: seq<byte>)
    requires 0 < f < Pow2(64)
    ensures |r| == |prior|
  {
    BytesOr(BytesAnd(prior, BytesNot(Store(o, f, |prior|))),
            Store(o, EncodeBits(64, 8 * |prior|, v, f), |prior|))
  }

  function GetStoredBits(o: Order, v: seq<byte>, f: nat): nat
    requires 0 < f < Pow2(64)
  {
    GetBits(64, Load(o, v), f)
  }

  lemma {:induction false} ReplacedBit(o: Order, prior: seq<byte>, v: nat, f: nat, h: nat, l: nat, i: nat)
    requires IsMask(f, h, l) && h < 8 * |prior| <= 64
    requires 0 < f < Pow2(64)
    ensures Bit(Load(o, ReplaceBits(o, prior, v, f)), i)
         == if l <= i <= h then Bit(v, i - l) else Bit(Load(o, prior), i)
  {
    var n := |prior|;
    var fs := Store(o, f, n);
    var e := EncodeBits(64, 8 * n, v, f);
    var es := Store(o, e, n);
    EncodeIsPrep(64, 8 * n, f, h, l, v);
    PrepIsSmall(f, h, l, v, 8 * n);
    LoadStore(o, e, n);
    LowOfSmall(e, 8 * n);
    MaskIsSmall(f, h, l, 8 * n);
    LoadStore(o, f, n);
    LowOfSmall(f, 8 * n);
    LoadNot(o, fs);
    LoadAnd(o, prior, BytesNot(fs));
    LoadOr(o, BytesAnd(prior, BytesNot(fs)), es);
    OrBit(And(Load(o, prior), Not(f, 8 * n)), e, i);
    AndBit(Load(o, prior), Not(f, 8 * n), i);
    NotBit(f, 8 * n, i);
    MaskBit(f, h, l, i);
    FieldPrepBit(f, h, l, v, i);
    LoadBit(o, prior, i);
  }

  /** replace_bits takes the field's bits from `v` and leaves the others. */
  lemma {:induction false} ReplaceBitsReplaces(o: Order, prior: seq<byte>, v: nat, f: nat, h: nat, l: nat)
    requires IsMask(f, h, l) && h < 8 * |prior| <= 64
    requires 0 < f < Pow2(64)
    ensures Replaced(Load(o, ReplaceBits(o, prior, v, f)), Load(o, prior), v, h, l)
  {
    var x, y := Load(o, ReplaceBits(o, prior, v, f)), Load(o, prior);
    forall i: nat
      ensures Bit(x, i) == if l <= i <= h then Bit(v, i - l) else Bit(y, i)
    {
      ReplacedBit(o, prior, v, f, h, l, i);
    }
  }

  /** Reading the field back gives `v` modulo 2^width, in every byte order. */
  lemma {:induction false} ReplaceThenGet(o: Order, prior: seq<byte>, v: nat, f: nat, h: nat, l: nat)
    requires IsMask(f, h, l) && h < 8 * |prior| <= 64
    requires 0 < f < Pow2(64)
    ensures GetStoredBits(o, ReplaceBits(o, prior, v, f), f) == v % Pow2(h - l + 1)
  {
    var x := Load(o, ReplaceBits(o, prior, v, f));
    FamiliesAgree(64, 64, f, h, l, x);
    ReplaceBitsReplaces(o, prior, v, f, h, l);
    ReplacedReads(x, Load(o, prior), v, f, h, l);
  }

  /** A field on disjoint bits reads as before. */
  lemma ReplaceKeepsOthers(o: Order, prior: seq<byte>, v: nat, f: nat, h: nat, l: nat, g: nat, h': nat, l': nat)
    requires IsMask(f, h, l) && IsMask(g, h', l') && h < 8 * |prior| <= 64
    requires h < l' || h' < l
    requires 0 < f < Pow2(64) && 0 < g < Pow2(64)
    ensures GetStoredBits(o, ReplaceBits(o, prior, v, f), g) == GetStoredBits(o, prior, g)
  {
    var x, y := Load(o, ReplaceBits(o, prior, v, f)), Load(o, prior);
    FamiliesAgree(64, 64, g, h', l', x);
    FamiliesAgree(64, 64, g, h', l', y);
    ReplaceBitsReplaces(o, prior, v, f, h, l);
    ReplacedKeeps(x, y, v, h, l, g, h', l');
  }

  /** Overwrites the word at `p` byte by byte. */
  method WriteWord(p: array<byte>, at: nat, bs: seq<byte>)
    requires at + |bs| <= p.Length
    modifies p
    ensures p[..] == Overwrite(old(p[..]), at, bs)
  {
    for i := 0 to |bs|
      invariant p[at..at + i] == bs[..i]
      invariant p[..at] == old(p[..at]) && p[at + i..] == old(p[at + i..])
    {
      p[at + i] := bs[i];
      assert p[at..at + i + 1] == p[at..at + i] + [bs[i]];
      assert p[at + i + 1..] == old(p[at + i..])[1..];
    }
    assert p[..] == p[..at] + p[at..at + |bs|] + p[at + |bs|..];
  }

  /** The buffer `s` with `bs` in place of the bytes from `at` on. */
  function Overwrite(s: seq<byte>, at: nat, bs: seq<byte>): (r: seq<byte>)
    requires at + |bs| <= |s|
    ensures |r| == |s|
    ensures forall i :: 0 <= i < |s| ==> r[i] == if at <= i < at + |bs| then bs[i - at] else s[i]
  {
    s[..at] + bs + s[at + |bs|..]
  }

  /** In `r` the field `f` reads `v` modulo 2^width, and every field on disjoint bits
      reads as in `prior`. */
  ghost predicate HoldsField(o: Order, prior: seq<byte>, r: seq<byte>, v: nat, f: nat)
    requires 0 < f < Pow2(64)
  {
    forall h: nat, l: nat :: IsMask(f, h, l) && h < 8 * |prior| <= 64 ==>
      GetStoredBits(o, r, f) == v % Pow2(h - l + 1) && SameFieldsOff(o, prior, r, h, l)
  }

  ghost predicate SameFieldsOff(o: Order, a: seq<byte>, b: seq<byte>, h: nat, l: nat) {
    forall g: nat, h': nat, l': nat :: IsMask(g, h', l') && 0 < g < Pow2(64) && (h < l' || h' < l) ==>
      GetStoredBits(o, b, g) == GetStoredBits(o, a, g)
  }

  lemma {:induction false} ReplaceHoldsField(o: Order, prior: seq<byte>, v: nat, f: nat)
    requires 0 < f < Pow2(64)
    ensures HoldsField(o, prior, ReplaceBits(o, prior, v, f), v, f)
  {
    var r := ReplaceBits(o, prior, v, f);
    forall h: nat, l: nat | IsMask(f, h, l) && h < 8 * |prior| <= 64
      ensures GetStoredBits(o, r, f) == v % Pow2(h - l + 1) && SameFieldsOff(o, prior, r, h, l)
    {
      ReplaceThenGet(o, prior, v, f, h, l);
      forall g: nat, h': nat, l': nat | IsMask(g, h', l') && 0 < g < Pow2(64) && (h < l' || h' < l)
        ensures GetStoredBits(o, r, g) == GetStoredBits(o, prior, g)
      {
        ReplaceKeepsOthers(o, prior, v, f, h, l, g, h', l');
      }
    }
  }

  /** The pointer form: the stored word is replaced in place. */
  method ReplaceBitsInPlace(o: Order, p: array<byte>, v: nat, f: nat)
    requires 0 < f < Pow2(64)
    modifies p
    ensures p[..] == ReplaceBits(o, old(p[..]), v, f)
    ensures HoldsField(o, old(p[..]), p[..], v, f)
  {
    ReplaceHoldsField(o, p[..], v, f);
    WriteWord(p, 0, ReplaceBits(o, p[..], v, f));
  }
}
