/** redisBitpos: the first bit of a kind, skipping bytes and whole words that hold none. */
module Bitpos {
  import opened Bitfield

  /** `pos` is the first bit of the string, followed by zeroes, that equals `bit`. */
  ghost predicate First(s: seq<byte>, bit: bool, pos: nat) {
    BitAt(s, pos) == bit && forall o :: 0 <= o < pos ==> BitAt(s, o) != bit
  }

  // -------------------------------------------------------------------------
  // Fields of whole bytes
  // -------------------------------------------------------------------------

  /** The value of a byte in terms of its bits. */
  function Weigh(b: byte): nat {
    (if GetBit(b, 7) then 128 else 0) + (if GetBit(b, 6) then 64 else 0) + (if GetBit(b, 5) then 32 else 0)
    + (if GetBit(b, 4) then 16 else 0) + (if GetBit(b, 3) then 8 else 0) + (if GetBit(b, 2) then 4 else 0)
    + (if GetBit(b, 1) then 2 else 0) + (if GetBit(b, 0) then 1 else 0)
  }

  lemma ByteWeighs(b: byte)
    ensures Weigh(b) == b as int
  {
  }

  lemma NibbleOn(s: seq<byte>, o: nat, n: nat)
    ensures Field(s, o, n + 4) == 16 * Field(s, o, n) + (if BitAt(s, o + n) then 8 else 0)
            + (if BitAt(s, o + n + 1) then 4 else 0)
                                  + (if BitAt(s, o + n + 2) then 2 else 0) + (if BitAt(s, o + n + 3) then 1 else 0)
  {
    hide BitAt;
    assert Field(s, o, n + 2) == 4 * Field(s, o, n) + (if BitAt(s, o + n) then 2 else 0)
        + (if BitAt(s, o + n + 1) then 1 else 0);
  }

  lemma ByteOn(s: seq<byte>, o: nat, n: nat)
    ensures Field(s, o, n + 8) == 256 * Field(s, o, n) + Field(s, o + n, 8)
  {
    hide BitAt, Field;
    NibbleOn(s, o, n);
    NibbleOn(s, o, n + 4);
    NibbleOn(s, o + n, 0);
    NibbleOn(s, o + n, 4);
    NoField(s, o + n);
  }

  lemma FieldOfByte(s: seq<byte>, c: nat)
    ensures Field(s, 8 * c, 8) == if c < |s| then s[c] as int else 0
  {
    hide BitAt, GetBit, Field;
    NibbleOn(s, 8 * c, 0);
    NibbleOn(s, 8 * c, 4);
    NoField(s, 8 * c);
    if c < |s| { ByteWeighs(s[c]); }
    BitsOfByte(s, c);
  }

  lemma PlacesOfByte(c: nat)
    ensures Place(8 * c) == 7 && Place(8 * c + 1) == 6 && Place(8 * c + 2) == 5 && Place(8 * c + 3) == 4
    ensures Place(8 * c + 4) == 3 && Place(8 * c + 5) == 2 && Place(8 * c + 6) == 1 && Place(8 * c + 7) == 0
  {
  }

  predicate BitOf(s: seq<byte>, c: nat, place: bv8)
    requires place < 8
  {
    c < |s| && GetBit(s[c], place)
  }

  lemma BitsOfByte(s: seq<byte>, c: nat)
    ensures BitAt(s, 8 * c) == BitOf(s, c, 7) && BitAt(s, 8 * c + 1) == BitOf(s, c, 6)
    ensures BitAt(s, 8 * c + 2) == BitOf(s, c, 5) && BitAt(s, 8 * c + 3) == BitOf(s, c, 4)
    ensures BitAt(s, 8 * c + 4) == BitOf(s, c, 3) && BitAt(s, 8 * c + 5) == BitOf(s, c, 2)
    ensures BitAt(s, 8 * c + 6) == BitOf(s, c, 1) && BitAt(s, 8 * c + 7) == BitOf(s, c, 0)
  {
    hide GetBit, Place;
    PlacesOfByte(c);
  }

  lemma NoField(s: seq<byte>, o: nat)
    ensures Field(s, o, 0) == 0
  {
  }

  /** The bits of a field. */
  lemma {:induction false} BitOfField(s: seq<byte>, offset: nat, n: nat, j: nat)
    requires j < n
    ensures ValueBit(Field(s, offset, n), n - 1 - j) == BitAt(s, offset + j)
  {
    hide BitAt;
    var f := Field(s, offset, n);
    if j < n - 1 {
      BitOfField(s, offset, n - 1, j);
      var k := n - 2 - j;
      assert f / 2 == Field(s, offset, n - 1);
      QuotientOfHalf(f, Pow2(k));
    } else {
      assert f / 1 == f;
    }
  }

  lemma QuotientOfHalf(v: nat, p: nat)
    requires p > 0
    ensures v / (2 * p) == v / 2 / p
  {
    var a, e := v / 2, v % 2;
    var q, r := a / p, a % p;
    assert v == 2 * a + e && a == q * p + r;
    assert v == q * (2 * p) + (2 * r + e);
    Remainder(v, 2 * p, q, 2 * r + e);
  }

  lemma {:induction false} ZeroField(s: seq<byte>, offset: nat, n: nat)
    requires forall o :: offset <= o < offset + n ==> !BitAt(s, o)
    ensures Field(s, offset, n) == 0
  {
    hide BitAt;
    if n > 0 { ZeroField(s, offset, n - 1); }
  }

  lemma NonzeroField(s: seq<byte>, offset: nat, n: nat) returns (o: nat)
    requires Field(s, offset, n) != 0
    ensures offset <= o < offset + n && BitAt(s, o)
  {
    hide BitAt, Field;
    if o' :| offset <= o' < offset + n && BitAt(s, o') {
      o := o';
    } else {
      ZeroField(s, offset, n);
      assert false;
    }
  }

  // -------------------------------------------------------------------------
  // Skipping
  // -------------------------------------------------------------------------

  function SkipByte(bit: bool): byte { if bit then 0 else 255 }

  lemma SkippedBit(b: byte, bit: bool, place: bv8)
    requires place < 8 && b == SkipByte(bit)
    ensures GetBit(b, place) != bit
  {
  }

  /** A byte that is not skipped holds a bit of the kind. */
  lemma KeptByte(b: byte, bit: bool) returns (m: nat)
    requires b != SkipByte(bit)
    ensures m < 8 && GetBit(b, Place(m)) == bit
  {
    m := if GetBit(b, 7) == bit then 0 else if GetBit(b, 6) == bit then 1 else if GetBit(b, 5) == bit then 2
         else if GetBit(b, 4) == bit then 3 else if GetBit(b, 3) == bit then 4 else if GetBit(b, 2) == bit then 5
         else if GetBit(b, 1) == bit then 6 else 7;
    SomeBit(b, bit);
  }

  lemma SomeBit(b: byte, bit: bool)
    requires b != SkipByte(bit)
    ensures GetBit(b, 7) == bit || GetBit(b, 6) == bit || GetBit(b, 5) == bit || GetBit(b, 4) == bit
            || GetBit(b, 3) == bit || GetBit(b, 2) == bit || GetBit(b, 1) == bit || GetBit(b, 0) == bit
  {
  }

  lemma KeptBit(s: seq<byte>, i: nat, bit: bool) returns (o: nat)
    requires i < |s| && s[i] != SkipByte(bit)
    ensures 8 * i <= o < 8 * i + 8 && BitAt(s, o) == bit
  {
    hide GetBit, Place;
    var m := KeptByte(s[i], bit);
    o := 8 * i + m;
    SamePlace(o, m);
  }

  /** No bit of the kind in the first `n` bits. */
  ghost predicate None(s: seq<byte>, bit: bool, n: nat) {
    forall o :: 0 <= o < n ==> BitAt(s, o) != bit
  }

  lemma SkipOne(s: seq<byte>, bit: bool, i: nat)
    requires i < |s| && s[i] == SkipByte(bit) && None(s, bit, 8 * i)
    ensures None(s, bit, 8 * i + 8)
  {
    hide GetBit, Place, SkipByte;
    forall o | 8 * i <= o < 8 * i + 8 ensures BitAt(s, o) != bit { SkippedBit(s[i], bit, Place(o)); }
  }

  lemma {:induction false} SkipMany(s: seq<byte>, bit: bool, i: nat, n: nat)
    requires i + n <= |s| && None(s, bit, 8 * i) && forall b :: i <= b < i + n ==> s[b] == SkipByte(bit)
    ensures None(s, bit, 8 * (i + n))
  {
    hide None;
    if n > 0 {
      SkipMany(s, bit, i, n - 1);
      SkipOne(s, bit, i + n - 1);
    }
  }

  // -------------------------------------------------------------------------
  // The scan
  // -------------------------------------------------------------------------

  /** The first loops: whole bytes up to an aligned address, then whole words. The bytes that
      are skipped hold no bit of the kind; unless the string ends within eight bytes, the next
      eight hold one. */
  method SkipWords(s: seq<byte>, addr: nat, bit: bool) returns (i: nat, ghost at: nat)
    ensures i <= |s| && None(s, bit, 8 * i)
    ensures (8 * i <= at < 8 * i + 64 && BitAt(s, at) == bit) || |s| - i < 8
  {
    hide BitAt, None, SkipByte;
    i, at := 0, 0;
    assert None(s, bit, 0) by { NoneAtAll(s, bit); }
    while (addr + i) % 8 != 0 && i < |s|
      invariant 0 <= i <= |s| && None(s, bit, 8 * i)
      decreases |s| - i
    {
      if s[i] != SkipByte(bit) {
        at := KeptBit(s, i, bit);
        return;
      }
      SkipOne(s, bit, i);
      i := i + 1;
    }
    while |s| - i >= 8
      invariant 0 <= i <= |s| && None(s, bit, 8 * i)
    {
      if s[i..i + 8] != seq(8, _ => SkipByte(bit)) {
        ghost var b := Unequal(s, i, bit);
        at := KeptBit(s, b, bit);
        return;
      }
      forall b | i <= b < i + 8 ensures s[b] == SkipByte(bit) { assert s[i..i + 8][b - i] == s[b]; }
      SkipMany(s, bit, i, 8);
      i := i + 8;
    }
  }

  lemma NoneAtAll(s: seq<byte>, bit: bool)
    ensures None(s, bit, 0)
  {
  }

  lemma Unequal(s: seq<byte>, i: nat, bit: bool) returns (b: nat)
    requires i + 8 <= |s| && s[i..i + 8] != seq(8, _ => SkipByte(bit))
    ensures i <= b < i + 8 && s[b] != SkipByte(bit)
  {
    var w, t := s[i..i + 8], seq(8, _ => SkipByte(bit));
    var k :| 0 <= k < 8 && w[k] != t[k];
    b := i + k;
  }

  /** The eight bytes at byte `i`, the first most significant, with zeroes behind the end. */
  method LoadWord(s: seq<byte>, i: nat) returns (word: nat)
    requires i <= |s|
    ensures word == Field(s, 8 * i, 64)
  {
    hide Field, BitAt;
    word := 0;
    var c := i;
    NoField(s, 8 * i);
    for j := 0 to 8
      invariant c == (if i + j < |s| then i + j else |s|) && word == Field(s, 8 * i, 8 * j)
    {
      ByteOn(s, 8 * i, 8 * j);
      FieldOfByte(s, i + j);
      assert 8 * i + 8 * j == 8 * (i + j);
      word := word * 256;
      if c < |s| {
        word := word + s[c] as int;
        c := c + 1;
      }
    }
  }

  /** Scan the word bit by bit, from the most significant one. The loop is left at a bit of the
      kind: the end of it, where the server would panic, is not reached. */
  method ScanWord(s: seq<byte>, i: nat, word: nat, bit: bool, ghost at: nat) returns (pos: nat)
    requires word == Field(s, 8 * i, 64) && None(s, bit, 8 * i)
    requires 8 * i <= at < 8 * i + 64 && BitAt(s, at) == bit
    ensures First(s, bit, pos)
  {
    hide Field, BitAt, ValueBit, HasBit, Pow2, None, First;
    pos := 8 * i;
    var one: nat := Pow2(63);
    ghost var j := 0;
    while one > 0
      invariant 0 <= j <= 64 && one == (if j < 64 then Pow2(63 - j) else 0)
      invariant pos == 8 * i + j && pos <= at && None(s, bit, pos)
    {
      BitOfField(s, 8 * i, 64, j);
      OneIsPower(word, 63 - j);
      if HasBit(word, one) == bit {
        FirstHere(s, bit, pos);
        return;
      }
      NoneYet(s, bit, pos);
      pos := pos + 1;
      HalvePower(63 - j);
      one := one / 2;
      j := j + 1;
    }
    assert false;
  }

  /** The bit of `word` that the mask `one` selects. */
  function HasBit(word: nat, one: nat): bool
    requires one > 0
  {
    word / one % 2 == 1
  }

  lemma OneIsPower(word: nat, k: nat)
    ensures HasBit(word, Pow2(k)) == ValueBit(word, k)
  {
  }

  lemma FirstHere(s: seq<byte>, bit: bool, pos: nat)
    requires None(s, bit, pos) && BitAt(s, pos) == bit
    ensures First(s, bit, pos)
  {
  }

  lemma NoneYet(s: seq<byte>, bit: bool, pos: nat)
    requires None(s, bit, pos) && BitAt(s, pos) != bit
    ensures None(s, bit, pos + 1)
  {
  }

  lemma HalvePower(k: nat)
    ensures Pow2(k) / 2 == if k > 0 then Pow2(k - 1) else 0
  {
  }

  /** redisBitpos of a string at address `addr`: the first bit of the kind if zeroes followed
      the string, or -1 if there is none. */
  method RedisBitpos(s: seq<byte>, addr: nat, bit: bool) returns (pos: int)
    ensures if bit && forall o :: 0 <= o < 8 * |s| ==> !BitAt(s, o) then pos == -1 else pos >= 0 && First(s, bit, pos)
  {
    hide Field, BitAt;
    ghost var at;
    var i;
    i, at := SkipWords(s, addr, bit);
    var word := LoadWord(s, i);
    if bit && word == 0 {
      WordIsZero(s, i, at);
      return -1;
    }
    if bit {
      at := NonzeroField(s, 8 * i, 64);
    } else if |s| - i < 8 {
      at := 8 * |s|;
      BeyondEnd(s, at);
    }
    pos := ScanWord(s, i, word, bit, at);
    if bit { BeyondEnd(s, pos); }
  }

  lemma BeyondEnd(s: seq<byte>, o: nat)
    ensures o >= 8 * |s| ==> !BitAt(s, o)
  {
  }

  lemma WordIsZero(s: seq<byte>, i: nat, at: nat)
    requires Field(s, 8 * i, 64) == 0 && i <= |s| && None(s, true, 8 * i)
    requires (8 * i <= at < 8 * i + 64 && BitAt(s, at)) || |s| - i < 8
    ensures forall o :: 0 <= o < 8 * |s| ==> !BitAt(s, o)
  {
    hide Field, BitAt, ValueBit;
    forall o | 8 * i <= o < 8 * i + 64 ensures !BitAt(s, o) {
      BitOfField(s, 8 * i, 64, o - 8 * i);
      ZeroHasNoBits(63 - (o - 8 * i));
    }
  }

  lemma ZeroHasNoBits(k: nat)
    ensures !ValueBit(0, k)
  {
  }
}
