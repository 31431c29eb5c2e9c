/** BITFIELD: integers of any width up to 64 bits at any bit offset of a string. Bit 0 is the
    most significant bit of the first byte. 64-bit words are integers with explicit wrap. */
module Bitfield {
  import opened Common

  type byte = bv8

  function Pow2(n: nat): (r: int)
    ensures r > 0
  {
    if n == 0 then 1 else 2 * Pow2(n - 1)
  }

  // -------------------------------------------------------------------------
  // Bits of bytes
  // -------------------------------------------------------------------------

  /** 7 - (offset & 7) */
  function Place(offset: nat): (r: bv8)
    ensures r < 8
  {
    match offset % 8
    case 0 => 7 case 1 => 6 case 2 => 5 case 3 => 4 case 4 => 3 case 5 => 2 case 6 => 1 case _ => 0
  }

  lemma PlacesDiffer(a: nat, b: nat)
    requires a / 8 == b / 8 && a != b
    ensures Place(a) != Place(b)
  {
  }

  function GetBit(b: byte, place: bv8): bool
    requires place < 8
  {
    (b >> place) & 1 == 1
  }

  function SetBit(b: byte, place: bv8, v: bool): byte
    requires place < 8
  {
    (b & !((1 as bv8) << place)) | ((if v then 1 else 0) << place)
  }

  lemma SetThenGet(b: byte, place: bv8, v: bool)
    requires place < 8
    ensures GetBit(SetBit(b, place, v), place) == v
  {
  }

  lemma SetOtherGet(b: byte, place: bv8, v: bool, other: bv8)
    requires place < 8 && other < 8 && other != place
    ensures GetBit(SetBit(b, place, v), other) == GetBit(b, other)
  {
  }

  /** Bit `o` of a string; beyond its end the string is zero. */
  function BitAt(s: seq<byte>, o: nat): bool {
    o / 8 < |s| && GetBit(s[o / 8], Place(o))
  }

  /** Bit `k` of an integer, counted from the least significant one. */
  function ValueBit(v: nat, k: nat): bool {
    v / Pow2(k) % 2 == 1
  }

  /** The unsigned number in `bits` bits of a string from bit `offset` on. */
  function Field(s: seq<byte>, offset: nat, bits: nat): (r: nat)
    ensures r < Pow2(bits)
  {
    if bits == 0 then 0 else 2 * Field(s, offset, bits - 1) + if BitAt(s, offset + bits - 1) then 1 else 0
  }

  /** `t` is `s` with the low `bits` bits of `v` written at `offset`, and nothing else. */
  ghost predicate Written(s: seq<byte>, t: seq<byte>, offset: nat, bits: nat, v: nat) {
    && |t| == |s|
    && (forall o :: offset <= o < offset + bits ==> BitAt(t, o) == ValueBit(v, bits - 1 - (o - offset)))
    && (forall o :: (0 <= o < offset || offset + bits <= o) ==> BitAt(t, o) == BitAt(s, o))
  }

  lemma OneBitChanges(s: seq<byte>, o: nat, v: bool, q: nat)
    requires o / 8 < |s|
    ensures var t := s[o / 8 := SetBit(s[o / 8], Place(o), v)];
            BitAt(t, q) == if q == o then v else BitAt(s, q)
  {
    hide GetBit, SetBit, Place;
    var b := s[o / 8];
    if q == o {
      SetThenGet(b, Place(o), v);
    } else if q / 8 == o / 8 {
      PlacesDiffer(q, o);
      SetOtherGet(b, Place(o), v, Place(q));
    }
  }

  /** setUnsignedBitfield */
  method SetUnsignedBitfield(p: array<byte>, offset: nat, bits: nat, value: nat)
    requires offset + bits <= 8 * p.Length && bits <= 64
    modifies p
    ensures Written(old(p[..]), p[..], offset, bits, value)
  {
    hide BitAt, ValueBit, GetBit, SetBit, Place;
    var j := 0;
    while j < bits
      invariant 0 <= j <= bits
      invariant forall o :: offset <= o < offset + j ==> BitAt(p[..], o) == ValueBit(value, bits - 1 - (o - offset))
      invariant forall o :: (0 <= o < offset || offset + j <= o) ==> BitAt(p[..], o) == BitAt(old(p[..]), o)
    {
      var bitval := ValueBit(value, bits - 1 - j);
      var at := offset + j;
      ghost var before := p[..];
      p[at / 8] := SetBit(p[at / 8], Place(at), bitval);
      assert p[..] == before[at / 8 := SetBit(before[at / 8], Place(at), bitval)];
      forall o: nat ensures BitAt(p[..], o) == if o == at then bitval else BitAt(before, o) {
        OneBitChanges(before, at, bitval, o);
      }
      j := j + 1;
    }
  }

  /** getUnsignedBitfield */
  method GetUnsignedBitfield(p: array<byte>, offset: nat, bits: nat) returns (value: nat)
    requires offset + bits <= 8 * p.Length && bits <= 64
    ensures value == Field(p[..], offset, bits)
  {
    hide GetBit, Place, Pow2;
    value := 0;
    for j := 0 to bits
      invariant value == Field(p[..], offset, j)
    {
      var at := offset + j;
      var bitval := if GetBit(p[at / 8], Place(at)) then 1 else 0;
      value := 2 * value + bitval;
    }
  }

  // -------------------------------------------------------------------------
  // Round trip
  // -------------------------------------------------------------------------

  lemma SmallMultiple(k: int, m: int)
    requires m > 0 && -m < k * m < m
    ensures k == 0
  {
  }

  lemma Remainder(v: int, m: int, q: int, r: int)
    requires m > 0 && v == q * m + r && 0 <= r < m
    ensures v % m == r && v / m == q
  {
    var d, e := v / m, v % m;
    assert v == d * m + e && 0 <= e < m;
    assert (d - q) * m == d * m - q * m;
    SmallMultiple(d - q, m);
  }

  lemma HalfRemainder(u: nat, m: nat)
    requires m > 0
    ensures 2 * (u / 2 % m) + u % 2 == u % (2 * m)
  {
    var h, b := u / 2, u % 2;
    var q, r := h / m, h % m;
    assert h == q * m + r;
    assert u == q * (2 * m) + (2 * r + b);
    Remainder(u, 2 * m, q, 2 * r + b);
  }

  lemma HalfQuotient(v: nat, p: nat)
    requires p > 0
    ensures v / (2 * p) == v / p / 2
  {
    var a, e := v / p, v % p;
    var h, b := a / 2, a % 2;
    var bp := if b == 0 then 0 else p;
    Quotient(v, p);
    Doubled(h, b, p);
    Remainder(v, 2 * p, h, bp + e);
  }

  lemma Quotient(v: nat, p: nat)
    requires p > 0
    ensures v == v / p * p + v % p
  {
  }

  lemma Doubled(h: nat, b: nat, p: nat)
    requires b < 2
    ensures (2 * h + b) * p == h * (2 * p) + if b == 0 then 0 else p
  {
    assert h * (2 * p) == 2 * h * p;
  }

  lemma {:induction false} FieldOfBits(s: seq<byte>, offset: nat, n: nat, v: nat, k: nat)
    requires forall o :: offset <= o < offset + n ==> BitAt(s, o) == ValueBit(v, k + n - 1 - (o - offset))
    ensures Field(s, offset, n) == v / Pow2(k) % Pow2(n)
  {
    hide BitAt;
    if n > 0 {
      FieldOfBits(s, offset, n - 1, v, k + 1);
      var p, m, bit := Pow2(k), Pow2(n - 1), BitAt(s, offset + n - 1);
      var f := Field(s, offset, n - 1);
      assert f == Part(v, 2 * p, m) && Field(s, offset, n) == 2 * f + if bit then 1 else 0;
      assert bit == (Part(v, p, 2) == 1) && Pow2(n) == 2 * m;
      hide Pow2, Field, ValueBit;
      PartOn(v, p, m);
      assert Part(v, p, 2 * m) == v / p % (2 * m);
    }
  }

  /** The digit of `v` at the place of value `p` in base `m`. */
  ghost function Part(v: nat, p: nat, m: nat): nat
    requires p > 0 && m > 0
  {
    v / p % m
  }

  lemma PartOn(v: nat, p: nat, m: nat)
    requires p > 0 && m > 0
    ensures Part(v, p, 2 * m) == 2 * Part(v, 2 * p, m) + Part(v, p, 2) && Part(v, p, 2) < 2
  {
    HalfQuotient(v, p);
    HalfRemainder(v / p, m);
  }

  /** A field that was written reads back modulo its width. */
  lemma FieldOfWritten(s: seq<byte>, t: seq<byte>, offset: nat, bits: nat, v: nat)
    requires Written(s, t, offset, bits, v)
    ensures Field(t, offset, bits) == v % Pow2(bits)
  {
    hide BitAt, ValueBit;
    FieldOfBits(t, offset, bits, v, 0);
    assert v / 1 == v;
  }

  /** A field beside the written one is as it was. */
  lemma {:induction false} OtherField(s: seq<byte>, t: seq<byte>, offset: nat, bits: nat, v: nat, from: nat, n: nat)
    requires Written(s, t, offset, bits, v) && (from + n <= offset || offset + bits <= from)
    ensures Field(t, from, n) == Field(s, from, n)
  {
    hide BitAt, ValueBit;
    if n > 0 { OtherField(s, t, offset, bits, v, from, n - 1); }
  }

  // -------------------------------------------------------------------------
  // Signed fields
  // -------------------------------------------------------------------------

  const U64: int := 0x1_0000_0000_0000_0000
  const I64_MAX: int := 0x7fff_ffff_ffff_ffff
  const I64_MIN: int := -0x8000_0000_0000_0000

  predicate IsI64(v: int) { I64_MIN <= v <= I64_MAX }

  /** A 64-bit word read as a signed integer. */
  function ToI64(v: int): (r: int)
    ensures IsI64(r) && (IsI64(v) ==> r == v)
  {
    var u := v % U64;
    if u > I64_MAX then u - U64 else u
  }

  /** The number in [-2^(bits-1), 2^(bits-1)) that is congruent to `v` modulo 2^bits. */
  function Signed(v: int, bits: nat): (r: int)
    requires bits > 0
    ensures -Pow2(bits - 1) <= r < Pow2(bits - 1)
  {
    var u := v % Pow2(bits);
    if u >= Pow2(bits - 1) then u - Pow2(bits) else u
  }

  lemma PowersUpTo64()
    ensures Pow2(64) == U64 && Pow2(63) == U64 / 2
  {
    assert Pow2(4) == 16;
    assert Pow2(8) == 256 by { PowAdd(4, 4); }
    assert Pow2(16) == 65536 by { PowAdd(8, 8); }
    assert Pow2(32) == 65536 * 65536 by { PowAdd(16, 16); }
    PowAdd(32, 32);
    assert Pow2(64) == 2 * Pow2(63);
  }

  lemma {:induction false} PowAdd(a: nat, b: nat)
    ensures Pow2(a + b) == Pow2(a) * Pow2(b)
  {
    if b > 0 {
      PowAdd(a, b - 1);
      assert Pow2(a) * (2 * Pow2(b - 1)) == 2 * (Pow2(a) * Pow2(b - 1));
    }
  }

  lemma {:induction false} PowGrows(a: nat, b: nat)
    requires a <= b
    ensures Pow2(a) <= Pow2(b)
  {
    if a < b { PowGrows(a, b - 1); }
  }

  lemma ModOfMod(v: int, m: int, n: int)
    requires m > 0 && n > 0 && m * n > 0
    ensures v % (m * n) % m == v % m
  {
    var w := m * n;
    var q, u := v / w, v % w;
    assert v == q * w + u;
    var a, r := u / m, u % m;
    assert u == a * m + r;
    assert q * w == q * n * m;
    assert v == (q * n + a) * m + r;
    Remainder(v, m, q * n + a, r);
  }

  /** Reducing modulo 2^64 first changes nothing. */
  lemma WrapKeepsField(v: int, bits: nat)
    requires bits <= 64
    ensures v % U64 % Pow2(bits) == v % Pow2(bits)
  {
    PowersUpTo64();
    PowAdd(bits, 64 - bits);
    hide Pow2;
    ModOfMod(v, Pow2(bits), Pow2(64 - bits));
  }

  /** setSignedBitfield */
  method SetSignedBitfield(p: array<byte>, offset: nat, bits: nat, value: int)
    requires offset + bits <= 8 * p.Length && bits <= 64 && IsI64(value)
    modifies p
    ensures Written(old(p[..]), p[..], offset, bits, value % U64)
  {
    var uv := value % U64;
    SetUnsignedBitfield(p, offset, bits, uv);
  }

  /** getSignedBitfield */
  method GetSignedBitfield(p: array<byte>, offset: nat, bits: nat) returns (value: int)
    requires offset + bits <= 8 * p.Length && 0 < bits <= 64
    ensures value == Signed(Field(p[..], offset, bits), bits)
  {
    PowersUpTo64();
    PowGrows(bits, 64);
    var u := GetUnsignedBitfield(p, offset, bits);
    value := ToI64(u);
    if bits < 64 && u / Pow2(bits - 1) % 2 == 1 {
      TopBit(u, bits);
      value := u - Pow2(bits);
    } else {
      TopBit(u, bits);
    }
  }

  /** Of a number with `bits` bits the top one says whether it is in the upper half. */
  lemma TopBit(u: nat, bits: nat)
    requires bits > 0 && u < Pow2(bits)
    ensures u / Pow2(bits - 1) % 2 == 1 <==> u >= Pow2(bits - 1)
    ensures u % Pow2(bits) == u
  {
    var m := Pow2(bits - 1);
    if u >= m { Remainder(u, m, 1, u - m); } else { Remainder(u, m, 0, u); }
    Remainder(u, Pow2(bits), 0, u);
  }

  lemma SignedInRange(v: int, bits: nat)
    requires bits > 0 && -Pow2(bits - 1) <= v < Pow2(bits - 1)
    ensures Signed(v, bits) == v
  {
    if v >= 0 { Remainder(v, Pow2(bits), 0, v); } else { Remainder(v, Pow2(bits), -1, v + Pow2(bits)); }
  }

  lemma SignedOfRemainder(v: int, bits: nat)
    requires bits > 0
    ensures Signed(v % Pow2(bits), bits) == Signed(v, bits)
  {
    var u := v % Pow2(bits);
    Remainder(u, Pow2(bits), 0, u);
  }

  /** Set and get of a signed field give the value back modulo the width, sign extended. */
  lemma SignedRoundTrip(s: seq<byte>, t: seq<byte>, offset: nat, bits: nat, v: int)
    requires 0 < bits <= 64 && Written(s, t, offset, bits, v % U64)
    ensures Signed(Field(t, offset, bits), bits) == Signed(v, bits)
  {
    hide Pow2, Signed, Written;
    FieldOfWritten(s, t, offset, bits, v % U64);
    WrapKeepsField(v, bits);
    SignedOfRemainder(v, bits);
  }

  // -------------------------------------------------------------------------
  // Overflow
  // -------------------------------------------------------------------------

  datatype Overflow = Wrap | Sat | Fail

  /** What an overflow check returns, and the limit it sets (0 if it sets none). */
  datatype Check = Check(overflow: int, limit: int)

  function Clamp(v: int, min: int, max: int): int {
    if v < min then min else if v > max then max else v
  }

  function MaxUnsigned(bits: nat): int { Pow2(bits) - 1 }

  function MaxSigned(bits: nat): int
    requires bits > 0
  {
    Pow2(bits - 1) - 1
  }

  /** checkUnsignedBitfieldOverflow, for the widths up to 63 that BITFIELD accepts */
  function CheckUnsigned(value: nat, incr: int, bits: nat, ow: Overflow): Check
    requires value < U64 && IsI64(incr) && bits <= 63
  {
    var max := MaxUnsigned(bits);
    var maxincr, minincr := ToI64(max - value), ToI64(0 - value);
    var wrapped := (value + incr) % U64 % Pow2(bits);
    if value > max || (incr > 0 && incr > maxincr) then
      Check(1, match ow case Wrap => wrapped case Sat => max case Fail => 0)
    else if incr < 0 && incr < minincr then
      match ow case Wrap => Check(1, wrapped) case Sat => Check(-1, 0) case Fail => Check(-1, 0)
    else Check(0, 0)
  }

  /** The sum as the wrap branch of the signed check computes it. */
  function WrapSigned(value: int, incr: int, bits: nat): int
    requires 0 < bits <= 64
  {
    var c: nat := (value + incr) % U64;
    if bits < 64 then
      (if ValueBit(c, bits - 1) then c % Pow2(bits) - Pow2(bits) else c % Pow2(bits))
    else ToI64(c)
  }

  /** checkSignedBitfieldOverflow; the two differences are 64-bit words and may wrap */
  function CheckSigned(value: int, incr: int, bits: nat, ow: Overflow): Check
    requires IsI64(value) && IsI64(incr) && 0 < bits <= 64
  {
    var max := MaxSigned(bits);
    var min := -max - 1;
    var maxincr, minincr := ToI64(max - value), ToI64(min - value);
    var wrapped := WrapSigned(value, incr, bits);
    if value > max || (bits != 64 && incr > maxincr) || (value >= 0 && incr > 0 && incr > maxincr) then
      Check(1, match ow case Wrap => wrapped case Sat => max case Fail => 0)
    else if value < min || (bits != 64 && incr < minincr) || (value < 0 && incr < 0 && incr < minincr) then
      match ow case Wrap => Check(1, wrapped) case Sat => Check(-1, min) case Fail => Check(-1, 0)
    else Check(0, 0)
  }

  lemma WidthFits(bits: nat)
    requires bits <= 63
    ensures 1 <= Pow2(bits) <= I64_MAX + 1
  {
    PowersUpTo64();
    PowGrows(bits, 63);
  }

  /** The check is non-zero exactly when the sum leaves the range; SAT gives the clamp and WRAP
      the representative modulo 2^bits. INCRBY calls it with a value of the field, SET with no
      increment. */
  lemma UnsignedCheck(value: nat, incr: int, bits: nat, ow: Overflow)
    requires value < U64 && IsI64(incr) && bits <= 63 && (value <= MaxUnsigned(bits) || incr == 0)
    ensures var c, sum, max := CheckUnsigned(value, incr, bits, ow), value + incr, MaxUnsigned(bits);
            && (c.overflow != 0 <==> sum < 0 || sum > max)
            && (ow != Wrap ==> (c.overflow == 1 <==> sum > max) && (c.overflow == -1 <==> sum < 0))
            && (c.overflow != 0 && ow == Sat ==> c.limit == Clamp(sum, 0, max))
            && (c.overflow != 0 && ow == Wrap ==> c.limit == sum % Pow2(bits))
  {
    WidthFits(bits);
    WrapKeepsField(value + incr, bits);
    hide Pow2;
  }

  lemma WrapSignedIs(value: int, incr: int, bits: nat)
    requires 0 < bits <= 64
    ensures WrapSigned(value, incr, bits) == Signed(value + incr, bits)
  {
    PowersUpTo64();
    WrapKeepsField(value + incr, bits);
    var c := (value + incr) % U64;
    var m := Pow2(bits - 1);
    if bits < 64 {
      TopBit(c % Pow2(bits), bits);
      LowBitsKeepBit(c, bits);
    }
  }

  /** Reducing to `bits` bits keeps the top one of them. */
  lemma LowBitsKeepBit(c: nat, bits: nat)
    requires bits > 0
    ensures ValueBit(c % Pow2(bits), bits - 1) == ValueBit(c, bits - 1)
  {
    TopOfRemainder(c, Pow2(bits - 1));
  }

  lemma TopOfRemainder(c: nat, m: nat)
    requires m > 0
    ensures c % (2 * m) / m % 2 == c / m % 2
  {
    var h, e := c / m, c % m;
    HalfQuotient(c, m);
    var q, r := c / (2 * m), c % (2 * m);
    Quotient(c, m);
    Quotient(c, 2 * m);
    Doubled(q, h % 2, m);
    assert (h % 2) * m == if h % 2 == 0 then 0 else m;
    Remainder(r, m, h % 2, e);
  }

  /** INCRBY on a signed field: `value` is in range. */
  lemma SignedCheck(value: int, incr: int, bits: nat, ow: Overflow)
    requires 0 < bits <= 64 && IsI64(incr) && IsI64(value) && -MaxSigned(bits) - 1 <= value <= MaxSigned(bits)
    ensures var c, sum, max := CheckSigned(value, incr, bits, ow), value + incr, MaxSigned(bits);
            var min := -max - 1;
            && (c.overflow != 0 <==> sum < min || sum > max)
            && (ow != Wrap ==> (c.overflow == 1 <==> sum > max) && (c.overflow == -1 <==> sum < min))
            && (c.overflow != 0 && ow == Sat ==> c.limit == Clamp(sum, min, max))
            && (c.overflow != 0 && ow == Wrap ==> c.limit == Signed(sum, bits))
  {
    WrapSignedIs(value, incr, bits);
    WidthFits(bits - 1);
    PowersUpTo64();
    if bits < 64 { WidthFits(bits); }
    hide Pow2, WrapSigned, Signed;
    assert Pow2(bits) == 2 * Pow2(bits - 1) by { DoublePow(bits); }
  }

  lemma DoublePow(bits: nat)
    requires bits > 0
    ensures Pow2(bits) == 2 * Pow2(bits - 1)
  {
  }

  /** SET on a signed field, with any 64-bit value: FAIL and WRAP are right, but SAT gives the
      clamp if and only if the value is not too far below the field. */
  lemma SignedSetCheck(value: int, bits: nat, ow: Overflow)
    requires 0 < bits <= 64 && IsI64(value)
    ensures var c, max := CheckSigned(value, 0, bits, ow), MaxSigned(bits);
            var min := -max - 1;
            && (c.overflow != 0 <==> value < min || value > max)
            && (c.overflow != 0 && ow == Wrap ==> c.limit == Signed(value, bits))
            && (c.overflow != 0 && ow == Sat ==> (c.limit == Clamp(value, min, max) <==> value >= max - I64_MAX))
  {
    WrapSignedIs(value, 0, bits);
    WidthFits(bits - 1);
    PowersUpTo64();
    if bits < 64 { WidthFits(bits); }
    assert Pow2(bits) == 2 * Pow2(bits - 1) by { DoublePow(bits); }
    var max := MaxSigned(bits);
    WrapsOnce(max - value);
    WrapsOnce(-max - 1 - value);
    hide Pow2, WrapSigned, Signed, ToI64;
  }

  /** Where a difference of two 64-bit numbers ends up. */
  lemma WrapsOnce(v: int)
    requires -U64 <= v < U64
    ensures ToI64(v) == if v > I64_MAX then v - U64 else if v < I64_MIN then v + U64 else v
  {
  }

  /** The smallest value stored with SAT in eight bits becomes the greatest. */
  lemma SignedSetCounterexample()
    ensures CheckSigned(I64_MIN, 0, 8, Sat) == Check(1, 127)
  {
    assert Pow2(7) == 128;
    assert ToI64(127 - I64_MIN) < 0;
  }

  // -------------------------------------------------------------------------
  // The operations of BITFIELD
  // -------------------------------------------------------------------------

  /** SET or INCRBY: bitfieldOp */
  datatype Op = Op(offset: nat, i64: int, incrby: bool, ow: Overflow, bits: nat)

  /** What an operation on a signed field that holds `was` stores, if it stores anything. */
  function StoredSigned(op: Op, was: int): Option<int>
    requires op.bits > 0
  {
    var target := if op.incrby then was + op.i64 else op.i64;
    var max := MaxSigned(op.bits);
    if -max - 1 <= target <= max then Some(target)
    else match op.ow
      case Fail => None
      case Wrap => Some(Signed(target, op.bits))
      case Sat => Some(if op.incrby || target >= max - I64_MAX then Clamp(target, -max - 1, max) else max)
  }

  function StoredUnsigned(op: Op, was: int): Option<int> {
    var target := if op.incrby then was + op.i64 else op.i64 % U64;
    var max := MaxUnsigned(op.bits);
    if 0 <= target <= max then Some(target)
    else match op.ow
      case Fail => None
      case Wrap => Some(target % Pow2(op.bits))
      case Sat => Some(Clamp(target, 0, max))
  }

  lemma SignedFits(was: int, bits: nat)
    requires 0 < bits <= 64 && -Pow2(bits - 1) <= was < Pow2(bits - 1)
    ensures IsI64(was) && IsI64(MaxSigned(bits)) && IsI64(-MaxSigned(bits) - 1)
  {
    PowersUpTo64();
    PowGrows(bits - 1, 63);
  }

  /** The signed branch of the operation loop: the field holds what was asked for, the other
      bits are as before, and the reply is the new value, or for SET the old one. */
  method ExecSigned(p: array<byte>, op: Op) returns (reply: Option<int>)
    requires 0 < op.bits <= 64 && IsI64(op.i64) && op.offset + op.bits <= 8 * p.Length
    modifies p
    ensures var was := Signed(Field(old(p[..]), op.offset, op.bits), op.bits);
            var stored := StoredSigned(op, was);
            if stored.None? then reply == None && p[..] == old(p[..])
            else && reply == Some(if op.incrby then stored.value else was)
                 && Written(old(p[..]), p[..], op.offset, op.bits, stored.value % U64)
                 && Signed(Field(p[..], op.offset, op.bits), op.bits) == stored.value
  {
    hide Signed, Field, Pow2, CheckSigned, Written;
    var oldval := GetSignedBitfield(p, op.offset, op.bits);
    SignedFits(oldval, op.bits);
    var newval, check;
    if op.incrby {
      check := CheckSigned(oldval, op.i64, op.bits, op.ow);
      newval := ToI64(oldval + op.i64);
      SignedCheck(oldval, op.i64, op.bits, op.ow);
    } else {
      check := CheckSigned(op.i64, 0, op.bits, op.ow);
      newval := op.i64;
      SignedSetCheck(op.i64, op.bits, op.ow);
      if op.ow == Sat { SatGivesALimit(op.i64, op.bits); }
    }
    if check.overflow != 0 { newval := check.limit; }
    if check.overflow != 0 && op.ow == Fail { return None; }
    StoredIsSigned(op, oldval);
    SetSignedBitfield(p, op.offset, op.bits, newval);
    SignedRoundTrip(old(p[..]), p[..], op.offset, op.bits, newval);
    return Some(if op.incrby then newval else oldval);
  }

  /** What is stored is a value of the field. */
  lemma StoredIsSigned(op: Op, was: int)
    requires 0 < op.bits <= 64
    ensures var v := StoredSigned(op, was); v.Some? ==> IsI64(v.value) && Signed(v.value, op.bits) == v.value
  {
    var v := StoredSigned(op, was);
    if v.Some? {
      SignedFits(v.value, op.bits);
      SignedInRange(v.value, op.bits);
    }
  }

  lemma SatGivesALimit(value: int, bits: nat)
    requires 0 < bits <= 64 && IsI64(value)
    ensures var c := CheckSigned(value, 0, bits, Sat); c.overflow != 0 ==>
            c.limit == MaxSigned(bits) || c.limit == -MaxSigned(bits) - 1
  {
    hide Pow2, WrapSigned;
  }

  /** What a check leaves to be stored, `v` being the result without overflow. */
  function Kept(c: Check, ow: Overflow, v: int): Option<int> {
    if c.overflow == 0 then Some(v) else if ow == Fail then None else Some(c.limit)
  }

  lemma IncrbyStores(op: Op, was: nat)
    requires op.incrby && op.bits <= 63 && IsI64(op.i64) && was <= MaxUnsigned(op.bits) < U64
    ensures StoredUnsigned(op, was) == Kept(CheckUnsigned(was, op.i64, op.bits, op.ow), op.ow, (was + op.i64) % U64)
  {
    hide CheckUnsigned, Pow2;
    UnsignedCheck(was, op.i64, op.bits, op.ow);
  }

  lemma SetStores(op: Op, was: nat)
    requires !op.incrby && op.bits <= 63 && IsI64(op.i64)
    ensures StoredUnsigned(op, was) == Kept(CheckUnsigned(op.i64 % U64, 0, op.bits, op.ow), op.ow, op.i64 % U64)
  {
    hide CheckUnsigned, Pow2;
    UnsignedCheck(op.i64 % U64, 0, op.bits, op.ow);
  }

  /** The unsigned branch. */
  method ExecUnsigned(p: array<byte>, op: Op) returns (reply: Option<int>)
    requires op.bits <= 63 && IsI64(op.i64) && op.offset + op.bits <= 8 * p.Length
    modifies p
    ensures var was := Field(old(p[..]), op.offset, op.bits);
            var stored := StoredUnsigned(op, was);
            if stored.None? then reply == None && p[..] == old(p[..])
            else && reply == Some(if op.incrby then stored.value else was)
                 && stored.value >= 0 && Written(old(p[..]), p[..], op.offset, op.bits, stored.value)
                 && Field(p[..], op.offset, op.bits) == stored.value
  {
    hide Field, Pow2, CheckUnsigned, Written, StoredUnsigned;
    WidthFits(op.bits);
    var oldval := GetUnsignedBitfield(p, op.offset, op.bits);
    var newval: nat, check;
    if op.incrby {
      check := CheckUnsigned(oldval, op.i64, op.bits, op.ow);
      newval := (oldval + op.i64) % U64;
      IncrbyStores(op, oldval);
    } else {
      newval := op.i64 % U64;
      check := CheckUnsigned(newval, 0, op.bits, op.ow);
      SetStores(op, oldval);
    }
    if check.overflow != 0 && op.ow == Fail { return None; }
    StoredIsUnsigned(op, oldval);
    if check.overflow != 0 { newval := check.limit; }
    SetUnsignedBitfield(p, op.offset, op.bits, newval);
    FieldOfWritten(old(p[..]), p[..], op.offset, op.bits, newval);
    return Some(if op.incrby then newval else oldval);
  }

  lemma StoredIsUnsigned(op: Op, was: int)
    ensures var v := StoredUnsigned(op, was); v.Some? ==>
            0 <= v.value < Pow2(op.bits) && v.value % Pow2(op.bits) == v.value
  {
    var v := StoredUnsigned(op, was);
    if v.Some? { Remainder(v.value, Pow2(op.bits), 0, v.value); }
  }

  // -------------------------------------------------------------------------
  // GET
  // -------------------------------------------------------------------------

  lemma {:induction false} FieldOfWindow(s: seq<byte>, buf: seq<byte>, first: nat, offset: nat, bits: nat)
    requires offset >= 8 * first
    requires forall o :: offset <= o < offset + bits ==> BitAt(buf, o - 8 * first) == BitAt(s, o)
    ensures Field(buf, offset - 8 * first, bits) == Field(s, offset, bits)
  {
    hide BitAt;
    if bits > 0 { FieldOfWindow(s, buf, first, offset, bits - 1); }
  }

  lemma WindowBit(s: seq<byte>, buf: seq<byte>, first: nat, o: nat)
    requires o >= 8 * first && o / 8 - first < |buf|
    requires buf[o / 8 - first] == if o / 8 < |s| then s[o / 8] else 0
    ensures BitAt(buf, o - 8 * first) == BitAt(s, o)
  {
    assert (o - 8 * first) / 8 == o / 8 - first && (o - 8 * first) % 8 == o % 8;
    hide Place, GetBit;
    assert Place(o - 8 * first) == Place(o) by { SamePlace(o - 8 * first, o); }
    assert !GetBit(0, Place(o)) by { ZeroBit(Place(o)); }
  }

  lemma SamePlace(a: nat, b: nat)
    requires a % 8 == b % 8
    ensures Place(a) == Place(b)
  {
  }

  lemma ZeroBit(place: bv8)
    requires place < 8
    ensures !GetBit(0, place)
  {
  }

  /** GET copies nine bytes into a buffer of zeroes and reads the field there: the same as
      reading the string as if zeroes followed it. */
  method Get(s: seq<byte>, offset: nat, bits: nat, signed: bool) returns (value: int)
    requires 0 < bits <= 64
    ensures value == if signed then Signed(Field(s, offset, bits), bits) else Field(s, offset, bits)
  {
    hide Field, BitAt, Signed;
    var buf := new byte[9](_ => 0);
    var first := offset / 8;
    var i := 0;
    while i < 9 && i + first < |s|
      invariant 0 <= i <= 9
      invariant forall j :: 0 <= j < i ==> j + first < |s| && buf[j] == s[j + first]
      invariant forall j :: i <= j < 9 ==> buf[j] == 0
    {
      buf[i] := s[i + first];
      i := i + 1;
    }
    forall o | offset <= o < offset + bits ensures BitAt(buf[..], o - 8 * first) == BitAt(s, o) {
      WindowBit(s, buf[..], first, o);
    }
    FieldOfWindow(s, buf[..], first, offset, bits);
    if signed {
      value := GetSignedBitfield(buf, offset - 8 * first, bits);
    } else {
      value := GetUnsignedBitfield(buf, offset - 8 * first, bits);
    }
  }
}
