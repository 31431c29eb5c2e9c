/** redisPopcount: seven words at a time, counted in parallel in the bytes of a word. */
module Popcount {
  import opened Bitfield

  // -------------------------------------------------------------------------
  // Counting bits
  // -------------------------------------------------------------------------

  /** The entry of the table bitsinbyte. */
  function BitsInByte(b: byte): nat {
    One(b, 0) + One(b, 1) + One(b, 2) + One(b, 3) + One(b, 4) + One(b, 5) + One(b, 6) + One(b, 7)
  }

  /** 1 if the bit is set, counted from the most significant one. */
  function One(b: byte, m: nat): nat
    requires m < 8
  {
    if GetBit(b, PlaceOf(m)) then 1 else 0
  }

  function BitsInBytes(s: seq<byte>): nat {
    if s == [] then 0 else BitsInBytes(s[..|s| - 1]) + BitsInByte(s[|s| - 1])
  }

  /** The number of bits set among the first `n` bits of a string. */
  function CountBits(s: seq<byte>, n: nat): nat {
    if n == 0 then 0 else CountBits(s, n - 1) + if BitAt(s, n - 1) then 1 else 0
  }

  lemma ByteCounts(s: seq<byte>, i: nat)
    requires i < |s|
    ensures CountBits(s, 8 * i + 8) == CountBits(s, 8 * i) + BitsInByte(s[i])
  {
    hide BitAt, One;
    BitIs(s, i, 0); BitIs(s, i, 1); BitIs(s, i, 2); BitIs(s, i, 3);
    BitIs(s, i, 4); BitIs(s, i, 5); BitIs(s, i, 6); BitIs(s, i, 7);
    CountOn(s, 8 * i); CountOn(s, 8 * i + 2); CountOn(s, 8 * i + 4); CountOn(s, 8 * i + 6);
  }

  lemma CountOn(s: seq<byte>, n: nat)
    ensures CountBits(s, n + 2) == CountBits(s, n) + (if BitAt(s, n) then 1 else 0) + (if BitAt(s, n + 1) then 1 else 0)
  {
    hide BitAt;
  }

  lemma BitIs(s: seq<byte>, i: nat, m: nat)
    requires i < |s| && m < 8
    ensures One(s[i], m) == if BitAt(s, 8 * i + m) then 1 else 0
  {
    hide GetBit, Place, PlaceOf;
    assert (8 * i + m) / 8 == i && (8 * i + m) % 8 == m;
    PlaceIs(8 * i + m);
  }

  lemma PlaceIs(o: nat)
    ensures Place(o) == PlaceOf(o % 8)
  {
  }

  function PlaceOf(m: nat): (r: bv8)
    requires m < 8
    ensures r < 8
  {
    match m case 0 => 7 case 1 => 6 case 2 => 5 case 3 => 4 case 4 => 3 case 5 => 2 case 6 => 1 case _ => 0
  }

  /** Adding up the bytes counts the bits. */
  lemma {:induction false} BytesCount(s: seq<byte>, i: nat)
    requires i <= |s|
    ensures BitsInBytes(s[..i]) == CountBits(s, 8 * i)
  {
    hide BitsInByte;
    if i > 0 {
      BytesCount(s, i - 1);
      ByteCounts(s, i - 1);
      assert s[..i][..i - 1] == s[..i - 1];
    }
  }

  // -------------------------------------------------------------------------
  // Words
  // -------------------------------------------------------------------------

  function Fold1(x: bv32): bv32 { x - ((x >> 1) & 0x55555555) }
  function Fold2(y: bv32): bv32 { (y & 0x33333333) + ((y >> 2) & 0x33333333) }
  function Fold4(z: bv32): bv32 { (z + (z >> 4)) & 0x0F0F0F0F }

  /** Every byte of the word becomes the number of its bits. */
  function Packed(x: bv32): bv32 { Fold4(Fold2(Fold1(x))) }

  function Lane0(p: bv32): bv8 { (p & 0xFF) as bv8 }
  function Lane1(p: bv32): bv8 { ((p >> 8) & 0xFF) as bv8 }
  function Lane2(p: bv32): bv8 { ((p >> 16) & 0xFF) as bv8 }
  function Lane3(p: bv32): bv8 { (p >> 24) as bv8 }

  function SumOfBits(x: bv8): bv8 {
    (x & 1) + ((x >> 1) & 1) + ((x >> 2) & 1) + ((x >> 3) & 1) + ((x >> 4) & 1) + ((x >> 5) & 1) + ((x >> 6) & 1)
        + ((x >> 7) & 1)
  }

  lemma Packed0(x: bv32) ensures Lane0(Packed(x)) == SumOfBits(Lane0(x)) {}
  lemma Packed1(x: bv32) ensures Lane1(Packed(x)) == SumOfBits(Lane1(x)) {}
  lemma Packed2(x: bv32) ensures Lane2(Packed(x)) == SumOfBits(Lane2(x)) {}
  lemma Packed3(x: bv32) ensures Lane3(Packed(x)) == SumOfBits(Lane3(x)) {}

  function Plus(x: bv8, y: bv8): bv8 { x + y }
  function Succ(x: bv8): bv8 { x + 1 }
  function Pred(x: bv8): bv8 { x - 1 }
  function Int(x: bv8): nat { x as int }

  lemma SumOfBitsIs(b: bv8)
    ensures Int(SumOfBits(b)) == BitsInByte(b)
  {
  }

  lemma SumOfBitsSmall(b: bv8)
    ensures Int(SumOfBits(b)) <= 8
  {
  }

  function LaneSum(p: bv32): nat { Int(Lane0(p)) + Int(Lane1(p)) + Int(Lane2(p)) + Int(Lane3(p)) }

  /** No byte of the word exceeds `n`. */
  predicate Lanes(p: bv32, n: nat) {
    Int(Lane0(p)) <= n && Int(Lane1(p)) <= n && Int(Lane2(p)) <= n && Int(Lane3(p)) <= n
  }

  /** The bytes of a word in memory. */
  function Word(a: byte, b: byte, c: byte, d: byte): bv32 {
    (a as bv32) | ((b as bv32) << 8) | ((c as bv32) << 16) | ((d as bv32) << 24)
  }

  lemma WordLane0(a: byte, b: byte, c: byte, d: byte) ensures Lane0(Word(a, b, c, d)) == a {}
  lemma WordLane1(a: byte, b: byte, c: byte, d: byte) ensures Lane1(Word(a, b, c, d)) == b {}
  lemma WordLane2(a: byte, b: byte, c: byte, d: byte) ensures Lane2(Word(a, b, c, d)) == c {}
  lemma WordLane3(a: byte, b: byte, c: byte, d: byte) ensures Lane3(Word(a, b, c, d)) == d {}

  lemma PackedCounts(a: byte, b: byte, c: byte, d: byte)
    ensures var p := Packed(Word(a, b, c, d));
            Lanes(p, 8) && LaneSum(p) == BitsInByte(a) + BitsInByte(b) + BitsInByte(c) + BitsInByte(d)
  {
    hide Packed, Word, Lane0, Lane1, Lane2, Lane3, SumOfBits, BitsInByte, Int;
    var w := Word(a, b, c, d);
    WordLane0(a, b, c, d); WordLane1(a, b, c, d); WordLane2(a, b, c, d); WordLane3(a, b, c, d);
    Packed0(w); Packed1(w); Packed2(w); Packed3(w);
    SumOfBitsIs(a); SumOfBitsIs(b); SumOfBitsIs(c); SumOfBitsIs(d);
    SumOfBitsSmall(a); SumOfBitsSmall(b); SumOfBitsSmall(c); SumOfBitsSmall(d);
  }

  // -------------------------------------------------------------------------
  // Sums without overflow
  // -------------------------------------------------------------------------

  lemma SuccInt(x: bv8)
    requires Int(x) < 255
    ensures Int(Succ(x)) == Int(x) + 1
  {
  }

  lemma PredInt(x: bv8)
    requires x != 0
    ensures Int(Pred(x)) == Int(x) - 1 && Int(x) > 0
  {
  }

  lemma ZeroInt() ensures Int(0) == 0 {}
  lemma SuccPred(x: bv8) ensures Succ(Pred(x)) == x {}
  lemma PlusSucc(x: bv8, y: bv8) ensures Plus(x, Succ(y)) == Succ(Plus(x, y)) {}
  lemma PlusZero(x: bv8) ensures Plus(x, 0) == x {}

  /** Bytes add as integers as long as the sum is a byte. */
  lemma {:induction false} PlusInt(x: bv8, y: bv8)
    requires Int(x) + Int(y) <= 255
    ensures Int(Plus(x, y)) == Int(x) + Int(y)
    decreases Int(y)
  {
    hide Plus, Succ, Pred, Int;
    if y == 0 {
      ZeroInt();
      PlusZero(x);
    } else {
      var z := Pred(y);
      PredInt(y);
      PlusInt(x, z);
      SuccPred(y);
      PlusSucc(x, z);
      SuccInt(Plus(x, z));
    }
  }

  predicate Small(x: bv8) { x <= 127 }

  lemma SmallInt(x: bv8) ensures Small(x) <==> Int(x) <= 127 {}

  function Add(p: bv32, q: bv32): bv32 { p + q }

  lemma AddLane0(p: bv32, q: bv32)
    ensures Lane0(Add(p, q)) == Plus(Lane0(p), Lane0(q))
  {
  }

  lemma AddLane1(p: bv32, q: bv32)
    requires Small(Lane0(p)) && Small(Lane0(q))
    ensures Lane1(Add(p, q)) == Plus(Lane1(p), Lane1(q))
  {
  }

  lemma AddLane2(p: bv32, q: bv32)
    requires Small(Lane0(p)) && Small(Lane0(q)) && Small(Lane1(p)) && Small(Lane1(q))
    ensures Lane2(Add(p, q)) == Plus(Lane2(p), Lane2(q))
  {
  }

  lemma AddLane3(p: bv32, q: bv32)
    requires Small(Lane0(p)) && Small(Lane0(q)) && Small(Lane1(p)) && Small(Lane1(q)) && Small(Lane2(p))
    requires Small(Lane2(q))
    ensures Lane3(Add(p, q)) == Plus(Lane3(p), Lane3(q))
  {
  }

  /** Words whose bytes are small add byte by byte. */
  lemma AddLanes(p: bv32, q: bv32)
    requires Lanes(p, 127) && Lanes(q, 127)
    ensures Int(Lane0(Add(p, q))) == Int(Lane0(p)) + Int(Lane0(q))
    ensures Int(Lane1(Add(p, q))) == Int(Lane1(p)) + Int(Lane1(q))
    ensures Int(Lane2(Add(p, q))) == Int(Lane2(p)) + Int(Lane2(q))
    ensures Int(Lane3(Add(p, q))) == Int(Lane3(p)) + Int(Lane3(q))
  {
    hide Lane0, Lane1, Lane2, Lane3, Add, Plus, Small, Int;
    SmallInt(Lane0(p)); SmallInt(Lane0(q)); SmallInt(Lane1(p)); SmallInt(Lane1(q));
    SmallInt(Lane2(p)); SmallInt(Lane2(q));
    AddLane0(p, q); AddLane1(p, q); AddLane2(p, q); AddLane3(p, q);
    PlusInt(Lane0(p), Lane0(q)); PlusInt(Lane1(p), Lane1(q)); PlusInt(Lane2(p), Lane2(q)); PlusInt(Lane3(p), Lane3(q));
  }

  /** One more word of counts: no byte overflows into the next. */
  lemma AddWord(p: bv32, q: bv32, n: nat)
    requires Lanes(p, n) && Lanes(q, 8) && n <= 48
    ensures Lanes(Add(p, q), n + 8) && LaneSum(Add(p, q)) == LaneSum(p) + LaneSum(q)
  {
    hide Lane0, Lane1, Lane2, Lane3, Add, Int;
    AddLanes(p, q);
  }

  function Shr24(p: bv32): bv32 { p >> 24 }

  function Times(p: bv32): bv32 { p * 0x01010101 }

  lemma FirstSum(p: bv32)
    ensures Add(p, p << 8) == p + (p << 8)
  {
  }

  function Shifts(p: bv32): bv32 { p + (p << 8) + ((p + (p << 8)) << 16) }

  lemma SecondSum(p: bv32)
    ensures Shifts(p) == Add(p + (p << 8), (p + (p << 8)) << 16)
  {
  }

  /** The multiplication is two shifted additions. */
  lemma TimesShifts(p: bv32)
    ensures Times(p) == Shifts(p)
  {
  }

  lemma Shl8Lane0(p: bv32) ensures Lane0(p << 8) == 0 {}
  lemma Shl8Lane1(p: bv32) ensures Lane1(p << 8) == Lane0(p) {}
  lemma Shl8Lane2(p: bv32) ensures Lane2(p << 8) == Lane1(p) {}
  lemma Shl8Lane3(p: bv32) ensures Lane3(p << 8) == Lane2(p) {}
  lemma Shl16Lane0(p: bv32) ensures Lane0(p << 16) == 0 {}
  lemma Shl16Lane1(p: bv32) ensures Lane1(p << 16) == 0 {}
  lemma Shl16Lane2(p: bv32) ensures Lane2(p << 16) == Lane0(p) {}
  lemma Shl16Lane3(p: bv32) ensures Lane3(p << 16) == Lane1(p) {}

  function WordInt(p: bv32): nat { p as int }

  lemma TopByteIsLane3(p: bv32)
    ensures WordInt(Shr24(p)) == Int(Lane3(p))
  {
  }

  /** A word plus itself one byte up, and that plus itself two bytes up. */
  lemma SumsOfLanes(p: bv32, u: bv32, a: bv32, v: bv32)
    requires Lanes(p, 56) && Add(p, u) == a
    requires Lane0(u) == 0 && Lane1(u) == Lane0(p) && Lane2(u) == Lane1(p) && Lane3(u) == Lane2(p)
    requires Lane0(v) == 0 && Lane1(v) == 0 && Lane2(v) == Lane0(a) && Lane3(v) == Lane1(a)
    ensures WordInt(Shr24(Add(a, v))) == LaneSum(p)
  {
    hide Lane0, Lane1, Lane2, Lane3, Shr24, Add, Int, WordInt;
    ZeroInt();
    AddLanes(p, u);
    AddLanes(a, v);
    TopByteIsLane3(Add(a, v));
  }

  /** The multiplication by 0x01010101 adds the four bytes up in the topmost one. */
  lemma MultiplyAddsLanes(p: bv32)
    requires Lanes(p, 56)
    ensures WordInt(Shr24(Times(p))) == LaneSum(p)
  {
    hide Lane0, Lane1, Lane2, Lane3, Shr24, Add, Int, WordInt, Times, Shifts, Lanes, LaneSum;
    var a := p + (p << 8);
    Shl8Lane0(p); Shl8Lane1(p); Shl8Lane2(p); Shl8Lane3(p);
    FirstSum(p);
    Shl16Lane0(a); Shl16Lane1(a); Shl16Lane2(a); Shl16Lane3(a);
    SumsOfLanes(p, p << 8, a, a << 16);
    SecondSum(p);
    TimesShifts(p);
  }

  // -------------------------------------------------------------------------
  // The scan
  // -------------------------------------------------------------------------

  function WordAt(s: seq<byte>, i: nat): bv32
    requires i + 4 <= |s|
  {
    Word(s[i], s[i + 1], s[i + 2], s[i + 3])
  }

  /** The counts of seven words added up. */
  function SevenWords(s: seq<byte>, i: nat): bv32
    requires i + 28 <= |s|
  {
    Add(Add(Add(Add(Add(Add(Packed(WordAt(s, i)), Packed(WordAt(s, i + 4))), Packed(WordAt(s, i + 8))),
        Packed(WordAt(s, i + 12))),
                Packed(WordAt(s, i + 16))), Packed(WordAt(s, i + 20))), Packed(WordAt(s, i + 24)))
  }

  lemma WordCounts(s: seq<byte>, i: nat)
    requires i + 4 <= |s|
    ensures Lanes(Packed(WordAt(s, i)), 8)
    ensures LaneSum(Packed(WordAt(s, i))) == BitsInBytes(s[..i + 4]) - BitsInBytes(s[..i])
  {
    hide BitsInByte, Packed, Word, Lanes, LaneSum;
    PackedCounts(s[i], s[i + 1], s[i + 2], s[i + 3]);
    assert s[..i + 4][..i + 3] == s[..i + 3] && s[..i + 3][..i + 2] == s[..i + 2]
        && s[..i + 2][..i + 1] == s[..i + 1] && s[..i + 1][..i] == s[..i];
    assert BitsInBytes(s[..i + 2]) == BitsInBytes(s[..i]) + BitsInByte(s[i]) + BitsInByte(s[i + 1]);
  }

  /** Seven words give at most 56 in a byte and 224 in all, so nothing overflows. */
  lemma SevenWordsCount(s: seq<byte>, i: nat)
    requires i + 28 <= |s|
    ensures WordInt(Shr24(Times(SevenWords(s, i)))) == BitsInBytes(s[..i + 28]) - BitsInBytes(s[..i])
  {
    hide BitsInBytes, Packed, WordAt, Lanes, LaneSum, Add, Times, Shr24, WordInt;
    WordCounts(s, i); WordCounts(s, i + 4); WordCounts(s, i + 8); WordCounts(s, i + 12);
    WordCounts(s, i + 16); WordCounts(s, i + 20); WordCounts(s, i + 24);
    var a := Packed(WordAt(s, i));
    AddWord(a, Packed(WordAt(s, i + 4)), 8);
    var b := Add(a, Packed(WordAt(s, i + 4)));
    AddWord(b, Packed(WordAt(s, i + 8)), 16);
    var c := Add(b, Packed(WordAt(s, i + 8)));
    AddWord(c, Packed(WordAt(s, i + 12)), 24);
    var d := Add(c, Packed(WordAt(s, i + 12)));
    AddWord(d, Packed(WordAt(s, i + 16)), 32);
    var e := Add(d, Packed(WordAt(s, i + 16)));
    AddWord(e, Packed(WordAt(s, i + 20)), 40);
    var f := Add(e, Packed(WordAt(s, i + 20)));
    AddWord(f, Packed(WordAt(s, i + 24)), 48);
    MultiplyAddsLanes(SevenWords(s, i));
  }

  /** redisPopcount of a string that starts at address `addr`: the number of its bits that are
      set, whatever its length and alignment. */
  method RedisPopcount(s: seq<byte>, addr: nat) returns (bits: nat)
    ensures bits == CountBits(s, 8 * |s|)
  {
    hide BitsInByte, Packed, WordAt, Times, Shr24, WordInt, SevenWords;
    bits := 0;
    var i := 0;
    while (addr + i) % 4 != 0 && i < |s|
      invariant 0 <= i <= |s| && bits == BitsInBytes(s[..i])
      decreases |s| - i
    {
      assert s[..i + 1][..i] == s[..i];
      bits := bits + BitsInByte(s[i]);
      i := i + 1;
    }
    while |s| - i >= 28
      invariant 0 <= i <= |s| && bits == BitsInBytes(s[..i])
    {
      SevenWordsCount(s, i);
      bits := bits + WordInt(Shr24(Times(SevenWords(s, i))));
      i := i + 28;
    }
    while i < |s|
      invariant 0 <= i <= |s| && bits == BitsInBytes(s[..i])
    {
      assert s[..i + 1][..i] == s[..i];
      bits := bits + BitsInByte(s[i]);
      i := i + 1;
    }
    BytesCount(s, |s|);
  }
}
