/** CRC-64: the bit-by-bit definition of crc64.c and the slice-by-8 form of crcspeed.c.

    The proof works in the reflected register, where one input byte is an application of a
    linear map (`Advance`) to register xor byte. The exclusive or is wrapped in `Xor` so
    that the algebra never looks at single bits. */
module Crc64 {

  const POLY: bv64 := 0xad93d23594c935a9
  /** POLY with its bits in the opposite order. */
  const POLY_REFLECTED: bv64 := 0x95ac9329ac4bc9b5

  function Xor(x: bv64, y: bv64): bv64 { x ^ y }

  // -------------------------------------------------------------------------
  // crc_reflect
  // -------------------------------------------------------------------------

  /** Reverses the 64 bits of a word by swapping ever larger halves. */
  function Reflect(v: bv64): bv64 {
    var x := ((v >> 1) & 0x5555555555555555) | ((v & 0x5555555555555555) << 1);
    var x := ((x >> 2) & 0x3333333333333333) | ((x & 0x3333333333333333) << 2);
    var x := ((x >> 4) & 0x0F0F0F0F0F0F0F0F) | ((x & 0x0F0F0F0F0F0F0F0F) << 4);
    var x := ((x >> 8) & 0x00FF00FF00FF00FF) | ((x & 0x00FF00FF00FF00FF) << 8);
    var x := ((x >> 16) & 0x0000FFFF0000FFFF) | ((x & 0x0000FFFF0000FFFF) << 16);
    (x >> 32) | (x << 32)
  }

  function PushBit(ret: bv64, data: bv64): bv64 { (ret << 1) | (data & 1) }
  function Drop(data: bv64): bv64 { data >> 1 }
  function Raise(data: bv64): bv64 { data << 1 }

  /** What `n` rounds of the loop of crc_reflect make of its two variables. */
  function ReflectRounds(ret: bv64, data: bv64, n: nat): bv64
    decreases n
  {
    if n == 0 then ret else ReflectRounds(PushBit(ret, Drop(data)), Drop(data), n - 1)
  }

  function NineRounds(ret: bv64, d: bv64): bv64 {
    var ret := (ret << 1) | ((d >> 1) & 1);
    var ret := (ret << 1) | ((d >> 2) & 1);
    var ret := (ret << 1) | ((d >> 3) & 1);
    var ret := (ret << 1) | ((d >> 4) & 1);
    var ret := (ret << 1) | ((d >> 5) & 1);
    var ret := (ret << 1) | ((d >> 6) & 1);
    var ret := (ret << 1) | ((d >> 7) & 1);
    var ret := (ret << 1) | ((d >> 8) & 1);
    (ret << 1) | ((d >> 9) & 1)
  }

  function DropNine(d: bv64): bv64 { d >> 9 }

  function Rounds3(ret: bv64, d: bv64): bv64 {
    PushBit(PushBit(PushBit(ret, Drop(d)), Drop(Drop(d))), Drop(Drop(Drop(d))))
  }

  function Drop3(d: bv64): bv64 { Drop(Drop(Drop(d))) }

  lemma ThreeAtATime(ret: bv64, d: bv64, n: nat)
    ensures ReflectRounds(ret, d, n + 3) == ReflectRounds(Rounds3(ret, d), Drop3(d), n)
  {
    hide PushBit, Drop;
    var r1, d1 := PushBit(ret, Drop(d)), Drop(d);
    var r2, d2 := PushBit(r1, Drop(d1)), Drop(d1);
    assert ReflectRounds(ret, d, n + 3) == ReflectRounds(r1, d1, n + 2);
    assert ReflectRounds(r1, d1, n + 2) == ReflectRounds(r2, d2, n + 1);
  }

  lemma NineIsThreeThrees(ret: bv64, d: bv64)
    ensures Rounds3(Rounds3(Rounds3(ret, d), Drop3(d)), Drop3(Drop3(d))) == NineRounds(ret, d)
  {
  }

  lemma DropNineIsThreeThrees(d: bv64)
    ensures Drop3(Drop3(Drop3(d))) == DropNine(d)
  {
  }

  lemma NineAtATime(ret: bv64, d: bv64, n: nat)
    ensures ReflectRounds(ret, d, n + 9) == ReflectRounds(NineRounds(ret, d), DropNine(d), n)
  {
    hide *;
    ThreeAtATime(ret, d, n + 6);
    ThreeAtATime(Rounds3(ret, d), Drop3(d), n + 3);
    ThreeAtATime(Rounds3(Rounds3(ret, d), Drop3(d)), Drop3(Drop3(d)), n);
    NineIsThreeThrees(ret, d);
    DropNineIsThreeThrees(d);
  }

  lemma AllRounds(d: bv64)
    ensures NineRounds(NineRounds(NineRounds(NineRounds(NineRounds(NineRounds(NineRounds(
              d & 1, d), d >> 9), d >> 18), d >> 27), d >> 36), d >> 45), d >> 54) == Reflect(d)
  {
  }

  lemma DropNines(d: bv64)
    ensures DropNine(d) == d >> 9 && DropNine(d >> 9) == d >> 18 && DropNine(d >> 18) == d >> 27
    ensures DropNine(d >> 27) == d >> 36 && DropNine(d >> 36) == d >> 45 && DropNine(d >> 45) == d >> 54
  {
  }

  /** The shift-and-collect loop over 64 bits reverses the word. */
  lemma LoopReflects(d: bv64)
    ensures ReflectRounds(d & 1, d, 63) == Reflect(d)
  {
    hide Reflect, NineRounds, DropNine, ReflectRounds;
    DropNines(d);
    AllRounds(d);
    var r1 := NineRounds(d & 1, d);
    var r2 := NineRounds(r1, d >> 9);
    var r3 := NineRounds(r2, d >> 18);
    var r4 := NineRounds(r3, d >> 27);
    var r5 := NineRounds(r4, d >> 36);
    var r6 := NineRounds(r5, d >> 45);
    NineAtATime(d & 1, d, 54);
    NineAtATime(r1, d >> 9, 45);
    NineAtATime(r2, d >> 18, 36);
    NineAtATime(r3, d >> 27, 27);
    NineAtATime(r4, d >> 36, 18);
    NineAtATime(r5, d >> 45, 9);
    NineAtATime(r6, d >> 54, 0);
    NoRounds(NineRounds(r6, d >> 54), DropNine(d >> 54));
  }

  lemma NoRounds(ret: bv64, d: bv64)
    ensures ReflectRounds(ret, d, 0) == ret
  {
  }

  method CrcReflect(word: bv64, bits: nat) returns (ret: bv64)
    ensures bits > 0 ==> ret == ReflectRounds(word & 1, word, bits - 1)
    ensures bits == 64 ==> ret == Reflect(word)
  {
    hide PushBit, Drop, Reflect;
    var data := word;
    ret := data & 1;
    var i := 1;
    while i < bits
      invariant bits > 0 ==> i <= bits && ReflectRounds(word & 1, word, bits - 1) == ReflectRounds(ret, data, bits - i)
    {
      data := Drop(data);
      ret := PushBit(ret, data);
      i := i + 1;
    }
    LoopReflects(word);
  }

  // -------------------------------------------------------------------------
  // _crc64: one bit at a time
  // -------------------------------------------------------------------------

  predicate TopBit(crc: bv64) { crc & 0x8000000000000000 != 0 }

  /** One round of the inner loop: shift, and subtract the polynomial if a one falls out. */
  function ShiftIn(crc: bv64, input: bool): bv64 {
    if TopBit(crc) != input then (crc << 1) ^ POLY else crc << 1
  }

  function BitMask(k: nat): bv8
    requires k < 8
  {
    match k
    case 0 => 0x01 case 1 => 0x02 case 2 => 0x04 case 3 => 0x08
    case 4 => 0x10 case 5 => 0x20 case 6 => 0x40 case _ => 0x80
  }

  predicate InputBit(c: bv8, k: nat)
    requires k < 8
  {
    c & BitMask(k) != 0
  }

  /** The register after the `k` low bits of byte `c`, least significant first. */
  function ShiftBits(crc: bv64, c: bv8, k: nat): bv64
    requires k <= 8
  {
    if k == 0 then crc else ShiftIn(ShiftBits(crc, c, k - 1), InputBit(c, k - 1))
  }

  /** The register after all the bytes. */
  function ShiftBytes(crc: bv64, data: seq<bv8>): bv64
    decreases |data|
  {
    if data == [] then crc
    else ShiftBits(ShiftBytes(crc, data[..|data| - 1]), data[|data| - 1], 8)
  }

  method SlowCrc64(start: bv64, data: seq<bv8>) returns (r: bv64)
    ensures r == Reflect(ShiftBytes(start, data))
  {
    hide Reflect, ShiftIn, InputBit;
    var crc := start;
    for offset := 0 to |data|
      invariant crc == ShiftBytes(start, data[..offset])
    {
      var c := data[offset];
      ghost var before := crc;
      for i := 0 to 8
        invariant crc == ShiftBits(before, c, i)
      {
        crc := ShiftIn(crc, InputBit(c, i));
      }
      assert data[..offset + 1][..offset] == data[..offset];
    }
    assert data[..|data|] == data;
    r := CrcReflect(crc, 64);
  }

  // -------------------------------------------------------------------------
  // The same register, reflected
  // -------------------------------------------------------------------------

  predicate Odd(r: bv64) { r & 1 != 0 }

  /** One bit of input in the reflected register, which the input has already joined. */
  function AdvanceBit(r: bv64): bv64 {
    if Odd(r) then (r >> 1) ^ POLY_REFLECTED else r >> 1
  }

  /** Eight zero bits of input. */
  function Advance(r: bv64): bv64 {
    AdvanceBit(AdvanceBit(AdvanceBit(AdvanceBit(AdvanceBit(AdvanceBit(AdvanceBit(AdvanceBit(r))))))))
  }

  function AdvanceBits(r: bv64, n: nat): bv64 {
    if n == 0 then r else AdvanceBit(AdvanceBits(r, n - 1))
  }

  lemma AdvanceIsEightBits(r: bv64)
    ensures Advance(r) == AdvanceBits(r, 8)
  {
    hide AdvanceBit;
    assert AdvanceBits(r, 1) == AdvanceBit(AdvanceBits(r, 0));
    assert AdvanceBits(r, 2) == AdvanceBit(AdvanceBits(r, 1));
    assert AdvanceBits(r, 3) == AdvanceBit(AdvanceBits(r, 2));
    assert AdvanceBits(r, 4) == AdvanceBit(AdvanceBits(r, 3));
    assert AdvanceBits(r, 5) == AdvanceBit(AdvanceBits(r, 4));
    assert AdvanceBits(r, 6) == AdvanceBit(AdvanceBits(r, 5));
    assert AdvanceBits(r, 7) == AdvanceBit(AdvanceBits(r, 6));
  }

  lemma ReflectXor(s: bv64, p: bv64)
    ensures Reflect(Xor(s, p)) == Xor(Reflect(s), Reflect(p))
  {
    hide Reflect;
    ReflectXorWord(s, p);
  }

  lemma ReflectXorWord(s: bv64, p: bv64)
    ensures Reflect(s ^ p) == Reflect(s) ^ Reflect(p)
  {
  }

  lemma ReflectShift(s: bv64)
    ensures Reflect(Raise(s)) == Drop(Reflect(s))
  {
    hide Reflect;
    ReflectShiftWord(s);
  }

  lemma ReflectShiftWord(s: bv64)
    ensures Reflect(s << 1) == Reflect(s) >> 1
  {
  }

  lemma ReflectTop(s: bv64)
    ensures TopBit(s) <==> Odd(Reflect(s))
  {
  }

  lemma ReflectPoly()
    ensures Reflect(POLY) == POLY_REFLECTED && Reflect(0) == 0
  {
  }

  function InputWord(input: bool): bv64 { if input then 1 else 0 }

  lemma JoinInput(r: bv64, input: bool)
    ensures Odd(Xor(r, InputWord(input))) <==> Odd(r) != input
    ensures Drop(Xor(r, InputWord(input))) == Drop(r)
  {
  }

  lemma AdvanceBitForm(r: bv64)
    ensures AdvanceBit(r) == if Odd(r) then Xor(Drop(r), POLY_REFLECTED) else Drop(r)
  {
  }

  lemma ShiftInForm(crc: bv64, input: bool)
    ensures ShiftIn(crc, input) == if TopBit(crc) != input then Xor(Raise(crc), POLY) else Raise(crc)
  {
  }

  lemma ReflectShiftIn(s: bv64, input: bool)
    ensures Reflect(ShiftIn(s, input)) == AdvanceBit(Xor(Reflect(s), InputWord(input)))
  {
    hide *;
    AdvanceBitForm(Xor(Reflect(s), InputWord(input))); ShiftInForm(s, input);
    ReflectTop(s); ReflectShift(s); ReflectPoly(); ReflectXor(Raise(s), POLY);
    JoinInput(Reflect(s), input);
  }

  lemma EvenEven(x: bv64, y: bv64)
    requires !Odd(x) && !Odd(y)
    ensures AdvanceBit(x ^ y) == AdvanceBit(x) ^ AdvanceBit(y)
  {
  }

  lemma EvenOdd(x: bv64, y: bv64)
    requires !Odd(x) && Odd(y)
    ensures AdvanceBit(x ^ y) == AdvanceBit(x) ^ AdvanceBit(y)
  {
  }

  lemma OddEven(x: bv64, y: bv64)
    requires Odd(x) && !Odd(y)
    ensures AdvanceBit(x ^ y) == AdvanceBit(x) ^ AdvanceBit(y)
  {
  }

  lemma OddOdd(x: bv64, y: bv64)
    requires Odd(x) && Odd(y)
    ensures AdvanceBit(x ^ y) == AdvanceBit(x) ^ AdvanceBit(y)
  {
  }

  lemma AdvanceBitLinear(x: bv64, y: bv64)
    ensures AdvanceBit(Xor(x, y)) == Xor(AdvanceBit(x), AdvanceBit(y))
  {
    hide AdvanceBit;
    AdvanceBitLinearWord(x, y);
  }

  lemma AdvanceBitLinearWord(x: bv64, y: bv64)
    ensures AdvanceBit(x ^ y) == AdvanceBit(x) ^ AdvanceBit(y)
  {
    hide *;
    if Odd(x) {
      if Odd(y) { OddOdd(x, y); } else { OddEven(x, y); }
    } else {
      if Odd(y) { EvenOdd(x, y); } else { EvenEven(x, y); }
    }
  }

  lemma {:induction false} AdvanceBitsLinear(x: bv64, y: bv64, n: nat)
    ensures AdvanceBits(Xor(x, y), n) == Xor(AdvanceBits(x, n), AdvanceBits(y, n))
  {
    hide Xor, AdvanceBit;
    if n > 0 {
      AdvanceBitsLinear(x, y, n - 1);
      AdvanceBitLinear(AdvanceBits(x, n - 1), AdvanceBits(y, n - 1));
    }
  }

  lemma AdvanceLinear(x: bv64, y: bv64)
    ensures Advance(Xor(x, y)) == Xor(Advance(x), Advance(y))
  {
    hide Xor, Advance, AdvanceBits;
    AdvanceIsEightBits(Xor(x, y)); AdvanceIsEightBits(x); AdvanceIsEightBits(y);
    AdvanceBitsLinear(x, y, 8);
  }

  // Input byte by input byte

  function Low8(w: bv64): bv64 { w & 0xff }
  function Shr8(w: bv64): bv64 { w >> 8 }
  function Shl8(w: bv64): bv64 { w << 8 }
  function Word(b: bv8): bv64 { b as bv64 }

  /** One byte of input. */
  function Step(crc: bv64, b: bv8): bv64 { Advance(Xor(crc, Word(b))) }

  /** The checksum of crcspeed: byte at a time from register `crc`. */
  function Fold(crc: bv64, data: seq<bv8>): bv64
    decreases |data|
  {
    if data == [] then crc else Step(Fold(crc, data[..|data| - 1]), data[|data| - 1])
  }

  /** The byte without its `k` low bits. */
  function Remaining(c: bv8, k: nat): bv8
    requires k <= 8
  {
    match k
    case 0 => c case 1 => c >> 1 case 2 => c >> 2 case 3 => c >> 3
    case 4 => c >> 4 case 5 => c >> 5 case 6 => c >> 6 case 7 => c >> 7
    case _ => 0
  }

  lemma NextRemaining(c: bv8, k: nat)
    requires k < 8
    ensures Remaining(c, k) >> 1 == Remaining(c, k + 1)
  {
  }

  lemma InputIsLowBit(c: bv8, k: nat)
    requires k < 8
    ensures InputBit(c, k) <==> Remaining(c, k) & 1 != 0
  {
  }

  function LowBit(w: bv64): bv64 { w & 1 }

  lemma WordOfByte(b: bv8)
    ensures Drop(Word(b)) == Word(b >> 1)
    ensures LowBit(Word(b)) == InputWord(b & 1 != 0)
  {
  }

  lemma SplitLowBit(r: bv64, w: bv64)
    ensures Xor(r, w) == Xor(Xor(r, LowBit(w)), Raise(Drop(w)))
  {
  }

  lemma AdvanceRaised(w: bv64)
    ensures AdvanceBit(Raise(Drop(w))) == Drop(w)
  {
  }

  /** A word joined to the register moves along with it, one place per bit. */
  lemma AdvancePast(r: bv64, w: bv64)
    ensures AdvanceBit(Xor(r, w)) == Xor(AdvanceBit(Xor(r, LowBit(w))), Drop(w))
  {
    hide *;
    SplitLowBit(r, w);
    AdvanceBitLinear(Xor(r, LowBit(w)), Raise(Drop(w)));
    AdvanceRaised(w);
  }

  lemma AdvancePastByte(r: bv64, b: bv8)
    ensures AdvanceBit(Xor(r, Word(b))) == Xor(AdvanceBit(Xor(r, InputWord(b & 1 != 0))), Word(b >> 1))
  {
    hide *;
    AdvancePast(r, Word(b));
    WordOfByte(b);
  }

  /** Eight rounds of the inner loop are one step in the reflected register. */
  lemma {:induction false} ReflectShiftBits(s: bv64, c: bv8, k: nat)
    requires k <= 8
    ensures AdvanceBits(Xor(Reflect(s), Word(c)), k) == Xor(Reflect(ShiftBits(s, c, k)), Word(Remaining(c, k)))
  {
    hide Xor, Reflect, Word, AdvanceBit, ShiftIn, InputBit, Remaining, InputWord;
    if k == 0 {
      NothingRead(c);
    } else {
      var s' := ShiftBits(s, c, k - 1);
      ReflectShiftBits(s, c, k - 1);
      AdvancePastByte(Reflect(s'), Remaining(c, k - 1));
      NextRemaining(c, k - 1);
      InputIsLowBit(c, k - 1);
      ReflectShiftIn(s', InputBit(c, k - 1));
    }
  }

  lemma NothingRead(c: bv8)
    ensures Remaining(c, 0) == c
  {
  }

  lemma AllRead(r: bv64, c: bv8)
    ensures Xor(r, Word(Remaining(c, 8))) == r
  {
  }

  lemma ReflectByte(s: bv64, c: bv8)
    ensures Reflect(ShiftBits(s, c, 8)) == Step(Reflect(s), c)
  {
    hide Xor, Reflect, Word, AdvanceBits, Advance, ShiftBits, Remaining;
    ReflectShiftBits(s, c, 8);
    AllRead(Reflect(ShiftBits(s, c, 8)), c);
    AdvanceIsEightBits(Xor(Reflect(s), Word(c)));
  }

  /** The bit-by-bit definition, read in reflected order, is the byte-at-a-time fold. */
  lemma {:induction false} ReflectBytes(s: bv64, data: seq<bv8>)
    ensures Reflect(ShiftBytes(s, data)) == Fold(Reflect(s), data)
    decreases |data|
  {
    hide Reflect, ShiftBits, Step;
    if data != [] {
      ReflectBytes(s, data[..|data| - 1]);
      ReflectByte(ShiftBytes(s, data[..|data| - 1]), data[|data| - 1]);
    }
  }

  /** A checksum may be continued: chunks fold like their concatenation. */
  lemma {:induction false} FoldChunks(crc: bv64, a: seq<bv8>, b: seq<bv8>)
    ensures Fold(crc, a + b) == Fold(Fold(crc, a), b)
    decreases |b|
  {
    hide Step;
    if b == [] {
      assert a + b == a;
    } else {
      assert (a + b)[..|a + b| - 1] == a + b[..|b| - 1];
      FoldChunks(crc, a, b[..|b| - 1]);
    }
  }

  // -------------------------------------------------------------------------
  // Slicing by eight bytes
  // -------------------------------------------------------------------------

  lemma XorAssociates(x: bv64, y: bv64, z: bv64)
    ensures Xor(Xor(x, y), z) == Xor(x, Xor(y, z))
  {
  }

  function AdvanceN(r: bv64, n: nat): bv64 {
    if n == 0 then r else Advance(AdvanceN(r, n - 1))
  }

  lemma {:induction false} AdvanceFirst(r: bv64, n: nat)
    ensures AdvanceN(r, n + 1) == AdvanceN(Advance(r), n)
  {
    hide Advance;
    if n > 0 { AdvanceFirst(r, n - 1); }
  }

  lemma {:induction false} AdvanceNLinear(x: bv64, y: bv64, n: nat)
    ensures AdvanceN(Xor(x, y), n) == Xor(AdvanceN(x, n), AdvanceN(y, n))
  {
    hide Xor, Advance;
    if n > 0 {
      AdvanceNLinear(x, y, n - 1);
      AdvanceLinear(AdvanceN(x, n - 1), AdvanceN(y, n - 1));
    }
  }

  lemma SplitLowByte(r: bv64, w: bv64)
    ensures Xor(r, w) == Xor(Xor(r, Low8(w)), Shl8(Shr8(w)))
  {
  }

  lemma AdvanceShifted(w: bv64)
    ensures Advance(Shl8(Shr8(w))) == Shr8(w)
  {
  }

  /** A word joined to the register moves along with it, one byte per input byte. */
  lemma AdvancePastBytes(r: bv64, w: bv64)
    ensures Advance(Xor(r, w)) == Xor(Advance(Xor(r, Low8(w))), Shr8(w))
  {
    hide *;
    SplitLowByte(r, w);
    AdvanceLinear(Xor(r, Low8(w)), Shl8(Shr8(w)));
    AdvanceShifted(w);
  }

  lemma XorZero(w: bv64)
    ensures Xor(0, w) == w && Xor(w, 0) == w
  {
  }

  /** Table look-up of the low byte and a shift, as both tables and loops compute it. */
  lemma AdvanceByTable(w: bv64)
    ensures Advance(w) == Xor(Advance(Low8(w)), Shr8(w))
  {
    hide *;
    AdvancePastBytes(0, w);
    XorZero(w);
    XorZero(Low8(w));
  }

  /** Byte `k` of a word, least significant first: (x >> 8k) & 0xff. */
  function Byte(x: bv64, k: nat): bv64 { Low8(ShrBytes(x, k)) }

  function ShrBytes(x: bv64, k: nat): bv64 {
    if k == 0 then x else Shr8(ShrBytes(x, k - 1))
  }

  /** Entry of row `k`: byte `n` followed by `k` zero bytes. */
  function Entry(k: nat, n: bv64): bv64 { AdvanceN(n, k + 1) }

  lemma TakeByte(x: bv64, n: nat)
    ensures AdvanceN(x, n + 1) == Xor(AdvanceN(Low8(x), n + 1), AdvanceN(Shr8(x), n))
  {
    hide Xor, Advance, AdvanceN, Low8, Shr8;
    AdvanceFirst(x, n);
    AdvanceFirst(Low8(x), n);
    AdvanceByTable(x);
    AdvanceNLinear(Advance(Low8(x)), Shr8(x), n);
  }

  lemma TakeByteAt(x: bv64, k: nat)
    requires k < 8
    ensures AdvanceN(ShrBytes(x, k), 8 - k) == Xor(Entry(7 - k, Byte(x, k)), AdvanceN(ShrBytes(x, k + 1), 7 - k))
  {
    hide Xor, Advance, Low8, Shr8, AdvanceN;
    TakeByte(ShrBytes(x, k), 7 - k);
  }

  lemma NothingLeft(x: bv64)
    ensures ShrBytes(x, 8) == 0
  {
    hide Shr8;
    assert ShrBytes(x, 1) == Shr8(ShrBytes(x, 0));
    assert ShrBytes(x, 2) == Shr8(ShrBytes(x, 1));
    assert ShrBytes(x, 3) == Shr8(ShrBytes(x, 2));
    assert ShrBytes(x, 4) == Shr8(ShrBytes(x, 3));
    assert ShrBytes(x, 5) == Shr8(ShrBytes(x, 4));
    assert ShrBytes(x, 6) == Shr8(ShrBytes(x, 5));
    assert ShrBytes(x, 7) == Shr8(ShrBytes(x, 6));
    EightBytesOut(x);
  }

  lemma EightBytesOut(x: bv64)
    ensures Shr8(Shr8(Shr8(Shr8(Shr8(Shr8(Shr8(Shr8(x)))))))) == 0
  {
  }

  /** The eight look-ups of one round of the fast loop. */
  function Slices(x: bv64): bv64 {
    Xor(Xor(Xor(Xor(Xor(Xor(Xor(Entry(7, Byte(x, 0)), Entry(6, Byte(x, 1))), Entry(5, Byte(x, 2))),
        Entry(4, Byte(x, 3))),
        Entry(3, Byte(x, 4))), Entry(2, Byte(x, 5))), Entry(1, Byte(x, 6))), Entry(0, Byte(x, 7)))
  }

  lemma Regroup(e0: bv64, e1: bv64, e2: bv64, e3: bv64, e4: bv64, e5: bv64, e6: bv64, e7: bv64)
    ensures Xor(e0, Xor(e1, Xor(e2, Xor(e3, Xor(e4, Xor(e5, Xor(e6, e7)))))))
            == Xor(Xor(Xor(Xor(Xor(Xor(Xor(e0, e1), e2), e3), e4), e5), e6), e7)
  {
    hide Xor;
    var r6 := Xor(e6, e7);
    var r5 := Xor(e5, r6);
    var r4 := Xor(e4, r5);
    var r3 := Xor(e3, r4);
    var s1 := Xor(e0, e1);
    var s2 := Xor(s1, e2);
    var s3 := Xor(s2, e3);
    var s4 := Xor(s3, e4);
    XorAssociates(e0, e1, Xor(e2, r3));
    XorAssociates(s1, e2, r3);
    XorAssociates(s2, e3, r4);
    XorAssociates(s3, e4, r5);
    XorAssociates(s4, e5, r6);
    XorAssociates(Xor(s4, e5), e6, e7);
  }

  lemma HighHalf(x: bv64)
    ensures AdvanceN(ShrBytes(x, 4), 4)
            == Xor(Entry(3, Byte(x, 4)), Xor(Entry(2, Byte(x, 5)), Xor(Entry(1, Byte(x, 6)), Entry(0, Byte(x, 7)))))
  {
    hide Xor, Entry, Byte, AdvanceN, ShrBytes;
    TakeByteAt(x, 4); TakeByteAt(x, 5); TakeByteAt(x, 6); TakeByteAt(x, 7);
    FirstAndLast(x, Entry(0, Byte(x, 7)));
  }

  lemma LowHalf(x: bv64)
    ensures AdvanceN(x, 8)
            == Xor(Entry(7, Byte(x, 0)), Xor(Entry(6, Byte(x, 1)), Xor(Entry(5, Byte(x, 2)),
                 Xor(Entry(4, Byte(x, 3)), AdvanceN(ShrBytes(x, 4), 4)))))
  {
    hide Xor, Entry, Byte, AdvanceN, ShrBytes;
    TakeByteAt(x, 0); TakeByteAt(x, 1); TakeByteAt(x, 2); TakeByteAt(x, 3);
    FirstAndLast(x, Entry(0, Byte(x, 7)));
  }

  function NestedSlices(x: bv64): bv64 {
    Xor(Entry(7, Byte(x, 0)), Xor(Entry(6, Byte(x, 1)), Xor(Entry(5, Byte(x, 2)), Xor(Entry(4, Byte(x, 3)),
      Xor(Entry(3, Byte(x, 4)), Xor(Entry(2, Byte(x, 5)), Xor(Entry(1, Byte(x, 6)), Entry(0, Byte(x, 7)))))))))
  }

  /** By linearity the eight look-ups together advance the word by eight bytes. */
  lemma SlicesAdvance(x: bv64)
    ensures NestedSlices(x) == AdvanceN(x, 8)
    ensures Slices(x) == AdvanceN(x, 8)
  {
    hide Xor, Entry, Byte, AdvanceN, ShrBytes;
    LowHalf(x);
    HighHalf(x);
    Regroup(Entry(7, Byte(x, 0)), Entry(6, Byte(x, 1)), Entry(5, Byte(x, 2)), Entry(4, Byte(x, 3)),
            Entry(3, Byte(x, 4)), Entry(2, Byte(x, 5)), Entry(1, Byte(x, 6)), Entry(0, Byte(x, 7)));
  }

  lemma FirstAndLast(x: bv64, e: bv64)
    ensures ShrBytes(x, 0) == x
    ensures Xor(e, AdvanceN(ShrBytes(x, 8), 0)) == e
  {
    hide ShrBytes, Xor;
    NothingLeft(x);
    XorZero(e);
    NoShift(x);
  }

  lemma NoShift(x: bv64)
    ensures ShrBytes(x, 0) == x
  {
  }

  /** Eight bytes as one word, the first byte least significant. */
  function LoadLittle(b: seq<bv8>): bv64
    requires |b| == 8
  {
    LoadFrom(b, 0)
  }

  function Push(t: bv64, b: bv8): bv64 { (t << 8) | Word(b) }

  function LoadFrom(b: seq<bv8>, i: nat): bv64
    requires |b| == 8 && i <= 8
    decreases 8 - i
  {
    if i == 8 then 0 else Push(LoadFrom(b, i + 1), b[i])
  }

  function Cap(i: nat): bv64
    requires i <= 8
  {
    match i
    case 0 => 0xffffffffffffffff case 1 => 0xffffffffffffff case 2 => 0xffffffffffff case 3 => 0xffffffffff
    case 4 => 0xffffffff case 5 => 0xffffff case 6 => 0xffff case 7 => 0xff
    case _ => 0
  }

  predicate AtMost(x: bv64, c: bv64) { x <= c }

  lemma PushBound(t: bv64, b: bv8, i: nat)
    requires i < 8 && AtMost(t, Cap(i + 1))
    ensures AtMost(Push(t, b), Cap(i))
  {
  }

  lemma PushSplits(t: bv64, b: bv8)
    requires AtMost(t, 0xffffffffffffff)
    ensures Low8(Push(t, b)) == Word(b)
    ensures Shr8(Push(t, b)) == t
  {
  }

  lemma {:induction false} LoadFits(b: seq<bv8>, i: nat)
    requires |b| == 8 && i <= 8
    ensures AtMost(LoadFrom(b, i), Cap(i))
    decreases 8 - i
  {
    hide Push, AtMost, Cap;
    if i == 8 {
      ZeroFits();
    } else {
      LoadFits(b, i + 1);
      PushBound(LoadFrom(b, i + 1), b[i], i);
    }
  }

  lemma ZeroFits()
    ensures AtMost(0, Cap(8))
  {
  }

  lemma CapShrinks(t: bv64, i: nat)
    requires 0 < i <= 8 && AtMost(t, Cap(i))
    ensures AtMost(t, 0xffffffffffffff)
  {
  }

  /** What is left of the loaded word once `i` bytes have been folded. */
  lemma LoadSplits(b: seq<bv8>, i: nat)
    requires |b| == 8 && i < 8
    ensures Low8(LoadFrom(b, i)) == Word(b[i])
    ensures Shr8(LoadFrom(b, i)) == LoadFrom(b, i + 1)
  {
    hide Low8, Shr8, Word, Push, AtMost, Cap;
    LoadFits(b, i + 1);
    CapShrinks(LoadFrom(b, i + 1), i + 1);
    PushSplits(LoadFrom(b, i + 1), b[i]);
  }

  lemma {:induction false} FoldAhead(crc: bv64, b: seq<bv8>, i: nat)
    requires |b| == 8 && i <= 8
    ensures AdvanceN(Xor(crc, LoadLittle(b)), i) == Xor(Fold(crc, b[..i]), LoadFrom(b, i))
  {
    hide Xor, Advance, LoadFrom, Word;
    if i > 0 {
      var f := Fold(crc, b[..i - 1]);
      FoldAhead(crc, b, i - 1);
      AdvancePastBytes(f, LoadFrom(b, i - 1));
      LoadSplits(b, i - 1);
      assert b[..i][..i - 1] == b[..i - 1];
    }
  }

  /** One round of the fast loop folds eight bytes. */
  lemma SlicesFold(crc: bv64, b: seq<bv8>)
    requires |b| == 8
    ensures Slices(Xor(crc, LoadLittle(b))) == Fold(crc, b)
  {
    hide Xor, Slices, LoadLittle, AdvanceN, Fold;
    SlicesAdvance(Xor(crc, LoadLittle(b)));
    FoldAhead(crc, b, 8);
    assert b[..8] == b;
    NothingLoaded(b);
    XorZero(Fold(crc, b));
  }

  lemma NothingLoaded(b: seq<bv8>)
    requires |b| == 8
    ensures LoadFrom(b, 8) == 0
  {
  }

  // -------------------------------------------------------------------------
  // Tables and loops on a little-endian host
  // -------------------------------------------------------------------------

  function Index(w: bv64): (i: nat)
    ensures i < 256
  {
    IndexBound(w);
    Low8(w) as int
  }

  lemma IndexBound(w: bv64)
    ensures Low8(w) as int < 256
  {
  }

  lemma IndexBack(w: bv64)
    ensures Index(w) as bv64 == Low8(w)
  {
    hide Low8;
    IntBack(Low8(w));
  }

  lemma IntBack(w: bv64)
    ensures (w as int) as bv64 == w
  {
  }

  ghost predicate IsTable(table: array2<bv64>)
    reads table
  {
    && table.Length0 == 8 && table.Length1 == 256
    && forall k, n :: 0 <= k < 8 && 0 <= n < 256 ==> table[k, n] == EntryAt(k, n)
  }

  function EntryAt(k: nat, n: nat): bv64
    requires n < 256
  {
    Entry(k, n as bv64)
  }

  lemma LookUp(table: array2<bv64>, k: nat, w: bv64)
    requires IsTable(table) && k < 8
    ensures table[k, Index(w)] == Entry(k, Low8(w))
  {
    hide Entry, Low8;
    IndexBack(w);
  }

  lemma SingleByte(n: nat)
    requires n < 256
    ensures Word(n as bv8) == n as bv64
  {
  }

  /** The first row of the table: the bit-by-bit checksum of one byte. */
  lemma FirstRow(n: nat)
    requires n < 256
    ensures Reflect(ShiftBytes(0, [n as bv8])) == EntryAt(0, n)
  {
    hide Reflect, ShiftBytes, Advance, Xor, Word;
    ReflectBytes(0, [n as bv8]);
    ReflectPoly();
    assert [n as bv8][..0] == [];
    assert Fold(0, [n as bv8]) == Step(Fold(0, []), n as bv8);
    SingleByte(n);
    XorZero(n as bv64);
    assert AdvanceN(n as bv64, 0) == n as bv64;
    assert AdvanceN(n as bv64, 1) == Advance(AdvanceN(n as bv64, 0));
  }

  lemma NextRow(k: nat, n: nat, c: bv64)
    requires n < 256 && c == EntryAt(k, n)
    ensures Xor(EntryAt(0, Index(c)), Shr8(c)) == EntryAt(k + 1, n)
  {
    hide Xor, Advance, Low8, Shr8, Index;
    IndexBack(c);
    AdvanceByTable(c);
    assert AdvanceN(Low8(c), 0) == Low8(c);
    assert AdvanceN(Low8(c), 1) == Advance(Low8(c));
  }

  /** crcspeed64little_init over the bit-by-bit function. */
  method LittleInit(table: array2<bv64>)
    requires table.Length0 == 8 && table.Length1 == 256
    modifies table
    ensures IsTable(table)
  {
    hide EntryAt, Reflect, ShiftBytes, Index;
    for n := 0 to 256
      invariant forall m :: 0 <= m < n ==> table[0, m] == EntryAt(0, m)
    {
      var crc := SlowCrc64(0, [n as bv8]);
      FirstRow(n);
      table[0, n] := crc;
    }
    for n := 0 to 256
      invariant forall m :: 0 <= m < 256 ==> table[0, m] == EntryAt(0, m)
      invariant forall k, m :: 0 <= k < 8 && 0 <= m < n ==> table[k, m] == EntryAt(k, m)
    {
      NestColumn(table, n);
    }
  }

  /** The nested entries of column `n`. */
  method NestColumn(table: array2<bv64>, n: nat)
    requires table.Length0 == 8 && table.Length1 == 256 && n < 256
    requires forall m :: 0 <= m < 256 ==> table[0, m] == EntryAt(0, m)
    modifies table
    ensures forall k, m :: 0 <= k < 8 && 0 <= m < 256 && (k == 0 || m != n) ==> table[k, m] == old(table[k, m])
    ensures forall k :: 0 <= k < 8 ==> table[k, n] == EntryAt(k, n)
  {
    hide EntryAt, Xor, Shr8, Index;
    var crc := table[0, n];
    for k := 1 to 8
      invariant forall j, m :: 0 <= j < 8 && 0 <= m < 256 && (j == 0 || m != n) ==> table[j, m] == old(table[j, m])
      invariant forall j :: 0 <= j < k ==> table[j, n] == EntryAt(j, n)
      invariant crc == EntryAt(k - 1, n)
    {
      NextRow(k - 1, n, crc);
      crc := Xor(table[0, Index(crc)], Shr8(crc));
      table[k, n] := crc;
    }
  }

  /** One byte with the first row: little_table[0][(crc ^ b) & 0xff] ^ (crc >> 8). */
  function ByteByTable(table: array2<bv64>, crc: bv64, b: bv8): bv64
    requires table.Length0 == 8 && table.Length1 == 256
    reads table
  {
    Xor(table[0, Index(Xor(crc, Word(b)))], Shr8(crc))
  }

  lemma ByteDropsOut(crc: bv64, b: bv8)
    ensures Shr8(Xor(crc, Word(b))) == Shr8(crc)
  {
  }

  lemma ByteByTableSteps(table: array2<bv64>, crc: bv64, b: bv8)
    requires IsTable(table)
    ensures ByteByTable(table, crc, b) == Step(crc, b)
  {
    hide Xor, Shr8, Low8, Word, Index, Advance;
    var x := Xor(crc, Word(b));
    LookUp(table, 0, x);
    ByteDropsOut(crc, b);
    AdvanceByTable(x);
    assert AdvanceN(Low8(x), 0) == Low8(x);
    assert AdvanceN(Low8(x), 1) == Advance(Low8(x));
  }

  /** Eight bytes with all rows. */
  function SlicesByTable(table: array2<bv64>, x: bv64): bv64
    requires table.Length0 == 8 && table.Length1 == 256
    reads table
  {
    Xor(Xor(Xor(Xor(Xor(Xor(Xor(table[7, Index(ShrBytes(x, 0))], table[6, Index(ShrBytes(x, 1))]),
      table[5, Index(ShrBytes(x, 2))]), table[4, Index(ShrBytes(x, 3))]), table[3, Index(ShrBytes(x, 4))]),
      table[2, Index(ShrBytes(x, 5))]), table[1, Index(ShrBytes(x, 6))]), table[0, Index(ShrBytes(x, 7))])
  }

  lemma SlicesByTableAreSlices(table: array2<bv64>, x: bv64)
    requires IsTable(table)
    ensures SlicesByTable(table, x) == Slices(x)
  {
    hide Xor, Index, ShrBytes, Entry, Low8;
    LookUp(table, 7, ShrBytes(x, 0)); LookUp(table, 6, ShrBytes(x, 1));
    LookUp(table, 5, ShrBytes(x, 2)); LookUp(table, 4, ShrBytes(x, 3));
    LookUp(table, 3, ShrBytes(x, 4)); LookUp(table, 2, ShrBytes(x, 5));
    LookUp(table, 1, ShrBytes(x, 6)); LookUp(table, 0, ShrBytes(x, 7));
  }

  lemma FoldOne(start: bv64, buf: seq<bv8>, next: nat)
    requires next < |buf|
    ensures Fold(start, buf[..next + 1]) == Step(Fold(start, buf[..next]), buf[next])
  {
    hide Step;
    assert buf[..next + 1][..next] == buf[..next];
  }

  lemma FoldEight(start: bv64, buf: seq<bv8>, next: nat)
    requires next + 8 <= |buf|
    ensures Fold(start, buf[..next + 8]) == Slices(Xor(Fold(start, buf[..next]), LoadLittle(buf[next..next + 8])))
  {
    hide Fold, Slices, Xor, LoadLittle;
    assert buf[..next + 8] == buf[..next] + buf[next..next + 8];
    FoldChunks(start, buf[..next], buf[next..next + 8]);
    SlicesFold(Fold(start, buf[..next]), buf[next..next + 8]);
  }

  /** crcspeed64little: whatever the alignment of the buffer, the byte-at-a-time fold. */
  method CrcSpeed64Little(table: array2<bv64>, start: bv64, buf: seq<bv8>, address: nat) returns (crc: bv64)
    requires IsTable(table)
    ensures crc == Fold(start, buf)
  {
    hide Fold, Xor, Step, Slices, SlicesByTable, ByteByTable, LoadLittle;
    crc := start;
    var next: nat, len: nat := 0, |buf|;
    assert crc == Fold(start, buf[..0]) by { FoldNone(start, buf); }
    while len > 0 && (address + next) % 8 != 0
      invariant next + len == |buf| && crc == Fold(start, buf[..next])
    {
      ByteByTableSteps(table, crc, buf[next]);
      FoldOne(start, buf, next);
      crc := ByteByTable(table, crc, buf[next]);
      next, len := next + 1, len - 1;
    }
    while len >= 8
      invariant next + len == |buf| && crc == Fold(start, buf[..next])
    {
      FoldEight(start, buf, next);
      crc := Xor(crc, LoadLittle(buf[next..next + 8]));
      SlicesByTableAreSlices(table, crc);
      crc := SlicesByTable(table, crc);
      next, len := next + 8, len - 8;
    }
    while len > 0
      invariant next + len == |buf| && crc == Fold(start, buf[..next])
    {
      ByteByTableSteps(table, crc, buf[next]);
      FoldOne(start, buf, next);
      crc := ByteByTable(table, crc, buf[next]);
      next, len := next + 1, len - 1;
    }
    assert buf[..next] == buf;
  }

  lemma FoldNone(start: bv64, buf: seq<bv8>)
    ensures Fold(start, buf[..0]) == start
  {
  }

  /** crc64 with fresh tables agrees with the bit-by-bit definition from register zero. */
  method Checksum(data: seq<bv8>, address: nat) returns (crc: bv64)
    ensures crc == Reflect(ShiftBytes(0, data))
  {
    hide *;
    var table := new bv64[8, 256];
    LittleInit(table);
    crc := CrcSpeed64Little(table, 0, data, address);
    ReflectBytes(0, data);
    ReflectPoly();
  }

  // -------------------------------------------------------------------------
  // The big-endian form
  // -------------------------------------------------------------------------

  /** Reverses the bytes of a word. */
  function Rev8(a: bv64): bv64 {
    var a := ((a >> 8) & 0xff00ff00ff00ff) | ((a & 0xff00ff00ff00ff) << 8);
    var a := ((a >> 16) & 0xffff0000ffff) | ((a & 0xffff0000ffff) << 16);
    (a >> 32) | (a << 32)
  }

  lemma Rev8Xor(x: bv64, y: bv64)
    ensures Rev8(Xor(x, y)) == Xor(Rev8(x), Rev8(y))
  {
  }

  lemma Rev8Twice(x: bv64)
    ensures Rev8(Rev8(x)) == x
  {
  }

  lemma Rev8Shift(x: bv64)
    ensures Shl8(Rev8(x)) == Rev8(Shr8(x))
  {
    hide Rev8;
    Rev8ShiftWord(x);
  }

  lemma Rev8ShiftWord(x: bv64)
    ensures Rev8(x) << 8 == Rev8(x >> 8)
  {
  }

  /** Eight bytes as one word, the first byte most significant. */
  function LoadBig(b: seq<bv8>): bv64
    requires |b| == 8
  {
    LoadLittle(Reversed(b))
  }

  function Reversed(b: seq<bv8>): seq<bv8>
    requires |b| == 8
  {
    [b[7], b[6], b[5], b[4], b[3], b[2], b[1], b[0]]
  }

  function Pack(b0: bv8, b1: bv8, b2: bv8, b3: bv8, b4: bv8, b5: bv8, b6: bv8, b7: bv8): bv64 {
    (b0 as bv64) | ((b1 as bv64) << 8) | ((b2 as bv64) << 16) | ((b3 as bv64) << 24)
    | ((b4 as bv64) << 32) | ((b5 as bv64) << 40) | ((b6 as bv64) << 48) | ((b7 as bv64) << 56)
  }

  lemma PushAll(b0: bv8, b1: bv8, b2: bv8, b3: bv8, b4: bv8, b5: bv8, b6: bv8, b7: bv8)
    ensures Push(Push(Push(Push(Push(Push(Push(Push(0, b7), b6), b5), b4), b3), b2), b1), b0)
            == Pack(b0, b1, b2, b3, b4, b5, b6, b7)
  {
  }

  lemma Rev8Pack(b0: bv8, b1: bv8, b2: bv8, b3: bv8, b4: bv8, b5: bv8, b6: bv8, b7: bv8)
    ensures Rev8(Pack(b0, b1, b2, b3, b4, b5, b6, b7)) == Pack(b7, b6, b5, b4, b3, b2, b1, b0)
  {
  }

  lemma LoadIsPack(b: seq<bv8>)
    requires |b| == 8
    ensures LoadLittle(b) == Pack(b[0], b[1], b[2], b[3], b[4], b[5], b[6], b[7])
  {
    hide Push, Pack;
    assert LoadFrom(b, 7) == Push(LoadFrom(b, 8), b[7]);
    assert LoadFrom(b, 6) == Push(LoadFrom(b, 7), b[6]);
    assert LoadFrom(b, 5) == Push(LoadFrom(b, 6), b[5]);
    assert LoadFrom(b, 4) == Push(LoadFrom(b, 5), b[4]);
    assert LoadFrom(b, 3) == Push(LoadFrom(b, 4), b[3]);
    assert LoadFrom(b, 2) == Push(LoadFrom(b, 3), b[2]);
    assert LoadFrom(b, 1) == Push(LoadFrom(b, 2), b[1]);
    PushAll(b[0], b[1], b[2], b[3], b[4], b[5], b[6], b[7]);
  }

  /** The two byte orders differ by rev8. */
  lemma LoadBigIsReversed(b: seq<bv8>)
    requires |b| == 8
    ensures LoadBig(b) == Rev8(LoadLittle(b))
  {
    hide LoadLittle, Rev8, Pack;
    LoadIsPack(b);
    LoadIsPack(Reversed(b));
    Rev8Pack(b[0], b[1], b[2], b[3], b[4], b[5], b[6], b[7]);
  }

  lemma {:induction false} ShiftedLoad(b: seq<bv8>, k: nat)
    requires |b| == 8 && k <= 8
    ensures ShrBytes(LoadLittle(b), k) == LoadFrom(b, k)
  {
    hide Shr8, LoadFrom;
    if k > 0 {
      ShiftedLoad(b, k - 1);
      LoadSplits(b, k - 1);
    }
  }

  lemma LoadedByte(b: seq<bv8>, k: nat)
    requires |b| == 8 && k < 8
    ensures Byte(LoadLittle(b), k) == Word(b[k])
  {
    hide Low8, Word, ShrBytes, LoadLittle, LoadFrom;
    ShiftedLoad(b, k);
    LoadSplits(b, k);
  }

  function ByteOf(w: bv64): bv8 { (w & 0xff) as bv8 }

  /** The bytes of a word in memory on a little-endian host. */
  function Store(x: bv64): (b: seq<bv8>)
    ensures |b| == 8
  {
    [ByteOf(x), ByteOf(x >> 8), ByteOf(x >> 16), ByteOf(x >> 24), ByteOf(x >> 32), ByteOf(x >> 40), ByteOf(x >> 48),
        ByteOf(x >> 56)]
  }

  lemma PackBytes(x: bv64)
    ensures Pack(ByteOf(x), ByteOf(x >> 8), ByteOf(x >> 16), ByteOf(x >> 24),
                 ByteOf(x >> 32), ByteOf(x >> 40), ByteOf(x >> 48), ByteOf(x >> 56)) == x
  {
  }

  lemma LoadStore(x: bv64)
    ensures LoadLittle(Store(x)) == x
  {
    hide LoadLittle, Pack, ByteOf;
    LoadIsPack(Store(x));
    PackBytes(x);
  }

  lemma Rev8Byte(x: bv64, k: nat)
    requires k < 8
    ensures Byte(Rev8(x), k) == Byte(x, 7 - k)
  {
    hide Byte, Rev8, Word, LoadLittle, Store;
    var b := Store(x);
    LoadStore(x);
    LoadBigIsReversed(b);
    LoadedByte(b, 7 - k);
    LoadedByte(Reversed(b), k);
  }

  lemma XorCommutes(x: bv64, y: bv64)
    ensures Xor(x, y) == Xor(y, x)
  {
  }

  /** A chain of exclusive ors read from the other end. */
  lemma ReverseChain(e0: bv64, e1: bv64, e2: bv64, e3: bv64, e4: bv64, e5: bv64, e6: bv64, e7: bv64)
    ensures Xor(Xor(Xor(Xor(Xor(Xor(Xor(e7, e6), e5), e4), e3), e2), e1), e0)
            == Xor(e0, Xor(e1, Xor(e2, Xor(e3, Xor(e4, Xor(e5, Xor(e6, e7)))))))
  {
    hide Xor;
    var r6 := Xor(e6, e7);
    var r5 := Xor(e5, r6);
    var r4 := Xor(e4, r5);
    var r3 := Xor(e3, r4);
    var r2 := Xor(e2, r3);
    var r1 := Xor(e1, r2);
    XorCommutes(e7, e6); XorCommutes(r6, e5); XorCommutes(r5, e4); XorCommutes(r4, e3);
    XorCommutes(r3, e2); XorCommutes(r2, e1); XorCommutes(r1, e0);
  }

  lemma Rev8Chain(e0: bv64, e1: bv64, e2: bv64, e3: bv64, e4: bv64, e5: bv64, e6: bv64, e7: bv64)
    ensures Xor(Xor(Xor(Xor(Xor(Xor(Xor(Rev8(e0), Rev8(e1)), Rev8(e2)), Rev8(e3)), Rev8(e4)), Rev8(e5)), Rev8(e6)),
            Rev8(e7))
            == Rev8(Xor(Xor(Xor(Xor(Xor(Xor(Xor(e0, e1), e2), e3), e4), e5), e6), e7))
  {
    hide Xor, Rev8;
    var s1 := Xor(e0, e1);
    var s2 := Xor(s1, e2);
    var s3 := Xor(s2, e3);
    var s4 := Xor(s3, e4);
    var s5 := Xor(s4, e5);
    var s6 := Xor(s5, e6);
    Rev8Xor(e0, e1); Rev8Xor(s1, e2); Rev8Xor(s2, e3); Rev8Xor(s3, e4);
    Rev8Xor(s4, e5); Rev8Xor(s5, e6); Rev8Xor(s6, e7);
  }

  /** The look-ups of the big-endian loop, in its order and with its reversed entries. */
  function BigSlices(y: bv64): bv64 {
    Xor(Xor(Xor(Xor(Xor(Xor(Xor(Rev8(Entry(0, Byte(y, 0))), Rev8(Entry(1, Byte(y, 1)))), Rev8(Entry(2, Byte(y, 2)))),
      Rev8(Entry(3, Byte(y, 3)))), Rev8(Entry(4, Byte(y, 4)))), Rev8(Entry(5, Byte(y, 5)))),
          Rev8(Entry(6, Byte(y, 6)))),
      Rev8(Entry(7, Byte(y, 7))))
  }

  lemma BigSlicesRefine(x: bv64)
    ensures BigSlices(Rev8(x)) == Rev8(AdvanceN(x, 8))
  {
    hide Xor, Rev8, Entry, Byte, AdvanceN;
    Rev8Byte(x, 0); Rev8Byte(x, 1); Rev8Byte(x, 2); Rev8Byte(x, 3);
    Rev8Byte(x, 4); Rev8Byte(x, 5); Rev8Byte(x, 6); Rev8Byte(x, 7);
    var e0, e1, e2, e3 := Entry(7, Byte(x, 0)), Entry(6, Byte(x, 1)), Entry(5, Byte(x, 2)), Entry(4, Byte(x, 3));
    var e4, e5, e6, e7 := Entry(3, Byte(x, 4)), Entry(2, Byte(x, 5)), Entry(1, Byte(x, 6)), Entry(0, Byte(x, 7));
    Rev8Chain(e7, e6, e5, e4, e3, e2, e1, e0);
    ReverseChain(e0, e1, e2, e3, e4, e5, e6, e7);
    SlicesAdvance(x);
  }

  ghost predicate IsBigTable(table: array2<bv64>)
    reads table
  {
    && table.Length0 == 8 && table.Length1 == 256
    && forall k, n :: 0 <= k < 8 && 0 <= n < 256 ==> table[k, n] == Rev8(EntryAt(k, n))
  }

  lemma BigLookUp(table: array2<bv64>, k: nat, w: bv64)
    requires IsBigTable(table) && k < 8
    ensures table[k, Index(w)] == Rev8(Entry(k, Low8(w)))
  {
    hide Entry, Low8, Rev8;
    IndexBack(w);
  }

  /** big_table[0][(crc >> 56) ^ b] ^ (crc << 8) */
  function BigByteByTable(table: array2<bv64>, crc: bv64, b: bv8): bv64
    requires table.Length0 == 8 && table.Length1 == 256
    reads table
  {
    Xor(table[0, Index(Xor(ShrBytes(crc, 7), Word(b)))], Shl8(crc))
  }

  lemma TopByteJoins(c: bv64, b: bv8)
    ensures Low8(Xor(ShrBytes(Rev8(c), 7), Word(b))) == Low8(Xor(c, Word(b)))
  {
    hide Rev8, Xor, Word, Low8, ShrBytes;
    Rev8Byte(c, 7);
    NoShift(c);
    LowXor(ShrBytes(Rev8(c), 7), c, Word(b));
  }

  lemma LowXor(x: bv64, y: bv64, w: bv64)
    requires Low8(x) == Low8(y)
    ensures Low8(Xor(x, w)) == Low8(Xor(y, w))
  {
  }

  lemma BigByteRefines(table: array2<bv64>, c: bv64, b: bv8)
    requires IsBigTable(table)
    ensures BigByteByTable(table, Rev8(c), b) == Rev8(Step(c, b))
  {
    hide Xor, Rev8, Word, Low8, Shl8, Shr8, ShrBytes, Advance, Index;
    var x := Xor(c, Word(b));
    BigLookUp(table, 0, Xor(ShrBytes(Rev8(c), 7), Word(b)));
    TopByteJoins(c, b);
    Rev8Shift(c);
    ByteDropsOut(c, b);
    AdvanceByTable(x);
    Rev8Xor(Advance(Low8(x)), Shr8(x));
    assert AdvanceN(Low8(x), 0) == Low8(x);
    assert AdvanceN(Low8(x), 1) == Advance(Low8(x));
  }

  function BigSlicesByTable(table: array2<bv64>, y: bv64): bv64
    requires table.Length0 == 8 && table.Length1 == 256
    reads table
  {
    Xor(Xor(Xor(Xor(Xor(Xor(Xor(table[0, Index(ShrBytes(y, 0))], table[1, Index(ShrBytes(y, 1))]),
      table[2, Index(ShrBytes(y, 2))]), table[3, Index(ShrBytes(y, 3))]), table[4, Index(ShrBytes(y, 4))]),
      table[5, Index(ShrBytes(y, 5))]), table[6, Index(ShrBytes(y, 6))]), table[7, Index(ShrBytes(y, 7))])
  }

  lemma BigSlicesByTableAreBigSlices(table: array2<bv64>, y: bv64)
    requires IsBigTable(table)
    ensures BigSlicesByTable(table, y) == BigSlices(y)
  {
    hide Xor, Index, ShrBytes, Entry, Low8, Rev8;
    BigLookUp(table, 0, ShrBytes(y, 0)); BigLookUp(table, 1, ShrBytes(y, 1));
    BigLookUp(table, 2, ShrBytes(y, 2)); BigLookUp(table, 3, ShrBytes(y, 3));
    BigLookUp(table, 4, ShrBytes(y, 4)); BigLookUp(table, 5, ShrBytes(y, 5));
    BigLookUp(table, 6, ShrBytes(y, 6)); BigLookUp(table, 7, ShrBytes(y, 7));
  }

  lemma BigEight(c: bv64, b: seq<bv8>)
    requires |b| == 8
    ensures BigSlices(Xor(Rev8(c), LoadBig(b))) == Rev8(Fold(c, b))
  {
    hide Xor, Rev8, BigSlices, LoadBig, LoadLittle, AdvanceN, Fold, Slices;
    LoadBigIsReversed(b);
    Rev8Xor(c, LoadLittle(b));
    BigSlicesRefine(Xor(c, LoadLittle(b)));
    SlicesAdvance(Xor(c, LoadLittle(b)));
    SlicesFold(c, b);
  }

  /** crcspeed64big with reversed tables and big-endian loads computes the same checksum. */
  method CrcSpeed64Big(table: array2<bv64>, start: bv64, buf: seq<bv8>, address: nat) returns (crc: bv64)
    requires IsBigTable(table)
    ensures crc == Fold(start, buf)
  {
    hide Fold, Xor, Rev8, Step, BigSlices, BigSlicesByTable, BigByteByTable, LoadBig;
    crc := Rev8(start);
    var next: nat, len: nat := 0, |buf|;
    ghost var c := start;
    FoldNone(start, buf);
    while len > 0 && (address + next) % 8 != 0
      invariant next + len == |buf| && crc == Rev8(c) && c == Fold(start, buf[..next])
    {
      BigByteRefines(table, c, buf[next]);
      FoldOne(start, buf, next);
      crc := BigByteByTable(table, crc, buf[next]);
      c := Step(c, buf[next]);
      next, len := next + 1, len - 1;
    }
    while len >= 8
      invariant next + len == |buf| && crc == Rev8(c) && c == Fold(start, buf[..next])
    {
      BigEight(c, buf[next..next + 8]);
      FoldMore(start, buf, next);
      crc := Xor(crc, LoadBig(buf[next..next + 8]));
      BigSlicesByTableAreBigSlices(table, crc);
      crc := BigSlicesByTable(table, crc);
      c := Fold(c, buf[next..next + 8]);
      next, len := next + 8, len - 8;
    }
    while len > 0
      invariant next + len == |buf| && crc == Rev8(c) && c == Fold(start, buf[..next])
    {
      BigByteRefines(table, c, buf[next]);
      FoldOne(start, buf, next);
      crc := BigByteByTable(table, crc, buf[next]);
      c := Step(c, buf[next]);
      next, len := next + 1, len - 1;
    }
    assert buf[..next] == buf;
    Rev8Twice(c);
    crc := Rev8(crc);
  }

  lemma FoldMore(start: bv64, buf: seq<bv8>, next: nat)
    requires next + 8 <= |buf|
    ensures Fold(start, buf[..next + 8]) == Fold(Fold(start, buf[..next]), buf[next..next + 8])
  {
    hide Fold;
    assert buf[..next + 8] == buf[..next] + buf[next..next + 8];
    FoldChunks(start, buf[..next], buf[next..next + 8]);
  }
}
