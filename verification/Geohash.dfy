/** Integer cell arithmetic of geohash.c. A hash interleaves two coordinates of `step`
    bits each: latitude in the even bit positions and longitude in the odd ones. */
module Geohash {

  const EVEN: bv64 := 0x5555555555555555
  const ODD: bv64 := 0xaaaaaaaaaaaaaaaa

  // -------------------------------------------------------------------------
  // Interleaving
  // -------------------------------------------------------------------------

  /** One half of interleave64: moves bit i of a 32-bit value to bit 2i. */
  function Spread(v: bv64): bv64 {
    var x := (v | (v << 16)) & 0x0000FFFF0000FFFF;
    var x := (x | (x << 8)) & 0x00FF00FF00FF00FF;
    var x := (x | (x << 4)) & 0x0F0F0F0F0F0F0F0F;
    var x := (x | (x << 2)) & 0x3333333333333333;
    (x | (x << 1)) & 0x5555555555555555
  }

  function Interleave64(lat: bv64, lon: bv64): bv64
    requires lat <= 0xFFFFFFFF && lon <= 0xFFFFFFFF
  {
    Spread(lat) | (Spread(lon) << 1)
  }

  /** One half of deinterleave64: gathers the even bits of a word into its low 32 bits. */
  function Squash(v: bv64): bv64 {
    var x := (v | (v >> 0)) & 0x5555555555555555;
    var x := (x | (x >> 1)) & 0x3333333333333333;
    var x := (x | (x >> 2)) & 0x0F0F0F0F0F0F0F0F;
    var x := (x | (x >> 4)) & 0x00FF00FF00FF00FF;
    var x := (x | (x >> 8)) & 0x0000FFFF0000FFFF;
    (x | (x >> 16)) & 0x00000000FFFFFFFF
  }

  function Deinterleave64(interleaved: bv64): bv64 {
    Squash(interleaved) | (Squash(interleaved >> 1) << 32)
  }

  function Lat(bits: bv64): bv64 { Squash(bits) }
  function Lon(bits: bv64): bv64 { Squash(bits >> 1) }

  /** geohashDecode takes the latitude out of the low half of the deinterleaved word, */
  lemma LatUnpacks(bits: bv64)
    ensures Lat(bits) == Deinterleave64(bits) & 0xFFFFFFFF
  {
  }

  /** ... and the longitude out of the high half. */
  lemma LonUnpacks(bits: bv64)
    ensures Lon(bits) == Deinterleave64(bits) >> 32
  {
  }

  /** Where each bit lives: bit i of the latitude is bit 2i of the hash, bit i of the
      longitude is bit 2i+1. */
  lemma CoordinateBits(bits: bv64, i: bv64)
    requires i < 32
    ensures Lat(bits) & (1 << i) != 0 <==> bits & (1 << (2 * i)) != 0
    ensures Lon(bits) & (1 << i) != 0 <==> bits & (2 << (2 * i)) != 0
  {
    SingleBit(i);
    SquashBit(bits, 1 << i, 1 << (2 * i));
    ShiftedSquashBit(bits, 1 << i, 2 << (2 * i));
  }

  lemma SingleBit(i: bv64)
    requires i < 32
    ensures Spread(1 << i) == 1 << (2 * i)
    ensures Spread(1 << i) << 1 == 2 << (2 * i)
    ensures (var k: bv64 := 1 << i; k) <= 0xFFFFFFFF
  {
  }

  lemma SquashBit(v: bv64, k: bv64, m: bv64)
    requires k <= 0xFFFFFFFF && m == Spread(k)
    ensures Squash(v) & k != 0 <==> v & m != 0
  {
  }

  lemma ShiftedSquashBit(v: bv64, k: bv64, m: bv64)
    requires k <= 0xFFFFFFFF && m == Spread(k) << 1
    ensures Squash(v >> 1) & k != 0 <==> v & m != 0
  {
  }

  /** deinterleave64 undoes interleave64 on every pair of 32-bit values. */
  lemma DeinterleaveInterleave(lat: bv64, lon: bv64)
    requires lat <= 0xFFFFFFFF && lon <= 0xFFFFFFFF
    ensures Deinterleave64(Interleave64(lat, lon)) == lat | (lon << 32)
  {
  }

  /** ... and interleave64 undoes deinterleave64, so a hash is its pair of coordinates. */
  lemma InterleaveDeinterleave(bits: bv64)
    ensures Lat(bits) <= 0xFFFFFFFF && Lon(bits) <= 0xFFFFFFFF
    ensures Interleave64(Lat(bits), Lon(bits)) == bits
    ensures var d := Deinterleave64(bits); Interleave64(d & 0xFFFFFFFF, d >> 32) == bits
  {
    SpreadSquash(bits);
    LatUnpacks(bits);
    LonUnpacks(bits);
  }

  lemma SpreadSquash(bits: bv64)
    ensures Spread(Squash(bits)) | (Spread(Squash(bits >> 1)) << 1) == bits
  {
  }

  lemma SameCoordinates(a: bv64, b: bv64)
    ensures Lat(a) == Lat(b) && Lon(a) == Lon(b) ==> a == b
  {
    hide Lat, Lon, Spread;
    InterleaveDeinterleave(a);
    InterleaveDeinterleave(b);
  }

  // -------------------------------------------------------------------------
  // Moving to an adjacent cell
  // -------------------------------------------------------------------------

  /** 2^step - 1, the last position along an axis. */
  function AxisMask(step: bv64): bv64
    requires 1 <= step <= 32
  {
    (1 << step) - 1
  }

  ghost predicate IsAxisMask(k: bv64) {
    k <= 0xFFFFFFFF && k & (k + 1) == 0
  }

  /** The neighbour of position `c` on a ring of k + 1 cells. */
  function OnRing(c: bv64, d: int, k: bv64): bv64 {
    if d == 0 then c else if d > 0 then Next(c, k) else Previous(c, k)
  }

  function Next(c: bv64, k: bv64): bv64 { (c + 1) & k }
  function Previous(c: bv64, k: bv64): bv64 { (c - 1) & k }

  // On numbers it is a step modulo the number of cells.

  function Inc(x: bv64): bv64 { x + 1 }
  function Dec(x: bv64): bv64 { x - 1 }
  function Twice(x: bv64): bv64 { x + x }
  function Plus(x: bv64, y: bv64): bv64 { x + y }
  function Minus(x: bv64, y: bv64): bv64 { x - y }
  predicate Small(x: bv64) { x < 0x4000000000000000 }
  predicate Fits(x: bv64) { x & 0xFFFFFFFF00000000 == 0 }

  /** The number that a word stands for. */
  function Number(x: bv64): nat
    decreases x
  {
    if x == 0 then 0 else 1 + Number(Dec(x))
  }

  function Pow2(n: nat): nat { if n == 0 then 1 else 2 * Pow2(n - 1) }

  function Sign(d: int): int { if d == 0 then 0 else if d > 0 then 1 else -1 }

  lemma IncDec(x: bv64)
    requires Small(x)
    ensures Inc(x) != 0 && Dec(Inc(x)) == x
  {
  }

  lemma PlusDec(x: bv64, y: bv64)
    requires Fits(x) && Fits(y) && y != 0
    ensures Fits(Dec(y)) && Inc(Plus(x, Dec(y))) == Plus(x, y)
  {
  }

  lemma PlusSmall(x: bv64, y: bv64)
    requires Fits(x) && Fits(y)
    ensures Small(Plus(x, y))
  {
  }

  lemma PlusZero(x: bv64)
    ensures Plus(x, 0) == x
  {
  }

  lemma TwiceDec(x: bv64)
    requires x != 0 && Small(x)
    ensures Small(Dec(x)) && Twice(x) != 0 && Dec(Twice(x)) != 0 && Dec(Dec(Twice(x))) == Twice(Dec(x))
  {
  }

  lemma NumberNext(x: bv64)
    requires Small(x)
    ensures Number(Inc(x)) == Number(x) + 1
  {
    hide Inc, Dec, Small;
    IncDec(x);
  }

  lemma {:induction false} NumberAdds(x: bv64, y: bv64)
    requires Fits(x) && Fits(y)
    ensures Number(Plus(x, y)) == Number(x) + Number(y)
    decreases Number(y)
  {
    hide Plus, Fits, Small, Inc, Dec;
    if y == 0 {
      PlusZero(x);
    } else {
      PlusDec(x, y);
      PlusSmall(x, Dec(y));
      NumberAdds(x, Dec(y));
      NumberNext(Plus(x, Dec(y)));
    }
  }

  lemma {:induction false} NumberDoubles(x: bv64)
    requires Small(x)
    ensures Number(Twice(x)) == 2 * Number(x)
    decreases Number(x)
  {
    hide Dec, Twice, Small;
    if x == 0 {
      assert Twice(x) == 0 by { NothingTwice(); }
    } else {
      TwiceDec(x);
      NumberDoubles(Dec(x));
      assert Number(Twice(x)) == 1 + Number(Dec(Twice(x)));
      assert Number(Dec(Twice(x))) == 1 + Number(Dec(Dec(Twice(x))));
    }
  }

  lemma NothingTwice()
    ensures Twice(0) == 0
  {
  }

  function Power(step: bv64): bv64
    requires step <= 32
  {
    1 << step
  }

  lemma OneMoreBit(step: bv64)
    requires 1 <= step <= 32
    ensures Dec(step) <= 32 && Power(step) == Twice(Power(Dec(step))) && Small(Power(Dec(step)))
  {
  }

  lemma {:induction false} NumberOfPower(step: bv64)
    requires step <= 32
    ensures Number(Power(step)) == Pow2(Number(step))
    decreases Number(step)
  {
    hide Dec, Twice, Small, Power;
    if step == 0 {
      assert Power(0) == 1 && Dec(1) == 0 by { FirstPower(); }
    } else {
      OneMoreBit(step);
      NumberOfPower(Dec(step));
      NumberDoubles(Power(Dec(step)));
    }
  }

  lemma FirstPower()
    ensures Power(0) == 1 && Dec(1) == 0
  {
  }

  /** An axis has 2^step cells. */
  lemma CellsOfAxis(step: bv64)
    requires 1 <= step <= 32
    ensures Number(AxisMask(step)) + 1 == Pow2(Number(step))
  {
    hide Number, Power, Inc, Small, AxisMask;
    NumberOfPower(step);
    LastCell(step);
    NumberNext(AxisMask(step));
  }

  lemma LastCell(step: bv64)
    requires 1 <= step <= 32
    ensures Small(AxisMask(step)) && Inc(AxisMask(step)) == Power(step)
  {
  }

  lemma NextOnRing(c: bv64, k: bv64)
    requires IsAxisMask(k) && c <= k
    ensures Next(c, k) == if c == k then 0 else Inc(c)
  {
  }

  lemma PreviousOnRing(c: bv64, k: bv64)
    requires IsAxisMask(k) && c <= k
    ensures Previous(c, k) == if c == 0 then k else Dec(c)
  {
  }

  lemma Distance(c: bv64, k: bv64)
    requires IsAxisMask(k) && c <= k
    ensures Small(c) && Fits(c) && Fits(Minus(k, c)) && Plus(c, Minus(k, c)) == k
  {
  }

  lemma Wraps(i: int, n: nat)
    requires n > 0 && 0 <= i < n
    ensures (i + 1) % n == (if i == n - 1 then 0 else i + 1) && (i - 1) % n == (if i == 0 then n - 1 else i - 1)
    ensures i % n == i
  {
  }

  lemma NumberBack(x: bv64)
    ensures Number(x) == if x == 0 then 0 else Number(Dec(x)) + 1
  {
  }

  /** The positions of an axis are the numbers below that of its cells. */
  lemma NumberOnAxis(c: bv64, k: bv64)
    requires IsAxisMask(k) && c <= k
    ensures Number(c) <= Number(k) && (c == k <==> Number(c) == Number(k))
    ensures Number(Inc(c)) == Number(c) + 1
  {
    hide IsAxisMask, Inc, Dec, Plus, Minus, Small, Fits, Number;
    Distance(c, k);
    NumberNext(c);
    NumberAdds(c, Minus(k, c));
    NumberBack(Minus(k, c));
    if Minus(k, c) == 0 { PlusZero(c); }
  }

  /** A position moves by one cell, or stays, modulo 2^step. */
  lemma OnRingIsModular(c: bv64, d: int, step: bv64)
    requires 1 <= step <= 32 && c <= AxisMask(step)
    ensures Pow2(Number(step)) > 0
    ensures Number(OnRing(c, d, AxisMask(step))) == (Number(c) + Sign(d)) % Pow2(Number(step))
  {
    hide Next, Previous, AxisMask, Pow2, Inc, Dec, Number, IsAxisMask;
    var k := AxisMask(step);
    AxisMaskShape(step);
    CellsOfAxis(step);
    NextOnRing(c, k);
    PreviousOnRing(c, k);
    NumberOnAxis(c, k);
    NumberBack(c);
    NumberBack(0);
    Wraps(Number(c), Number(k) + 1);
  }

  /** The shifted constants of geohash_move_x and geohash_move_y. */
  function EvenMask(step: bv64): bv64
    requires 1 <= step <= 32
  {
    EVEN >> (64 - step * 2)
  }

  function OddMask(step: bv64): bv64
    requires 1 <= step <= 32
  {
    ODD >> (64 - step * 2)
  }

  function SpreadOdd(k: bv64): bv64 { Spread(k) << 1 }

  // They are the axis mask, spread over the positions of one coordinate.

  lemma EvenMaskShape(step: bv64)
    requires 1 <= step <= 32
    ensures EvenMask(step) == Spread(AxisMask(step))
  {
  }

  lemma OddMaskShape(step: bv64)
    requires 1 <= step <= 32
    ensures OddMask(step) == SpreadOdd(AxisMask(step))
  {
  }

  lemma AxisMaskShape(step: bv64)
    requires 1 <= step <= 32
    ensures IsAxisMask(AxisMask(step))
  {
  }

  // The word-wide additions of the two move functions. `zz` fills the gaps between the
  // bits of one coordinate, so that a carry or borrow runs from each bit to the next.

  function East(bits: bv64, zz: bv64, m: bv64): bv64 {
    (((bits & ODD) + (zz + 1)) & m) | (bits & EVEN)
  }

  function West(bits: bv64, zz: bv64, m: bv64): bv64 {
    ((((bits & ODD) | zz) - (zz + 1)) & m) | (bits & EVEN)
  }

  function North(bits: bv64, zz: bv64, m: bv64): bv64 {
    (bits & ODD) | (((bits & EVEN) + (zz + 1)) & m)
  }

  function South(bits: bv64, zz: bv64, m: bv64): bv64 {
    (bits & ODD) | ((((bits & EVEN) | zz) - (zz + 1)) & m)
  }

  lemma EastLon(bits: bv64, k: bv64)
    requires IsAxisMask(k)
    ensures Lon(East(bits, Spread(k), SpreadOdd(k))) == Next(Lon(bits), k)
  {
  }

  lemma EastLat(bits: bv64, k: bv64)
    requires IsAxisMask(k)
    ensures Lat(East(bits, Spread(k), SpreadOdd(k))) == Lat(bits)
  {
  }

  lemma WestLon(bits: bv64, k: bv64)
    requires IsAxisMask(k)
    ensures Lon(West(bits, Spread(k), SpreadOdd(k))) == Previous(Lon(bits), k)
  {
  }

  lemma WestLat(bits: bv64, k: bv64)
    requires IsAxisMask(k)
    ensures Lat(West(bits, Spread(k), SpreadOdd(k))) == Lat(bits)
  {
  }

  lemma NorthLat(bits: bv64, k: bv64)
    requires IsAxisMask(k)
    ensures Lat(North(bits, SpreadOdd(k), Spread(k))) == Next(Lat(bits), k)
  {
  }

  lemma NorthLon(bits: bv64, k: bv64)
    requires IsAxisMask(k)
    ensures Lon(North(bits, SpreadOdd(k), Spread(k))) == Lon(bits)
  {
  }

  lemma SouthLat(bits: bv64, k: bv64)
    requires IsAxisMask(k)
    ensures Lat(South(bits, SpreadOdd(k), Spread(k))) == Previous(Lat(bits), k)
  {
  }

  lemma SouthLon(bits: bv64, k: bv64)
    requires IsAxisMask(k)
    ensures Lon(South(bits, SpreadOdd(k), Spread(k))) == Lon(bits)
  {
  }

  /** geohash_move_x */
  function MovedX(bits: bv64, step: bv64, d: int): bv64
    requires 1 <= step <= 32
  {
    if d == 0 then bits
    else if d > 0 then East(bits, EvenMask(step), OddMask(step))
    else West(bits, EvenMask(step), OddMask(step))
  }

  /** geohash_move_y */
  function MovedY(bits: bv64, step: bv64, d: int): bv64
    requires 1 <= step <= 32
  {
    if d == 0 then bits
    else if d > 0 then North(bits, OddMask(step), EvenMask(step))
    else South(bits, OddMask(step), EvenMask(step))
  }

  /** Moving in x is a step on the longitude ring and leaves the latitude alone. */
  lemma MoveXIsRingStep(bits: bv64, step: bv64, d: int)
    requires 1 <= step <= 32
    ensures Lon(MovedX(bits, step, d)) == OnRing(Lon(bits), d, AxisMask(step))
    ensures Lat(MovedX(bits, step, d)) == Lat(bits)
  {
    hide Lon, Lat, Next, Previous, East, West, EvenMask, OddMask, Spread, SpreadOdd, AxisMask, IsAxisMask;
    EvenMaskShape(step); OddMaskShape(step); AxisMaskShape(step);
    var k := AxisMask(step);
    EastLon(bits, k); EastLat(bits, k); WestLon(bits, k); WestLat(bits, k);
  }

  /** Moving in y is a step on the latitude ring and leaves the longitude alone. */
  lemma MoveYIsRingStep(bits: bv64, step: bv64, d: int)
    requires 1 <= step <= 32
    ensures Lat(MovedY(bits, step, d)) == OnRing(Lat(bits), d, AxisMask(step))
    ensures Lon(MovedY(bits, step, d)) == Lon(bits)
  {
    hide Lon, Lat, Next, Previous, North, South, EvenMask, OddMask, Spread, SpreadOdd, AxisMask, IsAxisMask;
    EvenMaskShape(step); OddMaskShape(step); AxisMaskShape(step);
    var k := AxisMask(step);
    NorthLon(bits, k); NorthLat(bits, k); SouthLon(bits, k); SouthLat(bits, k);
  }

  // -------------------------------------------------------------------------
  // Neighbours
  // -------------------------------------------------------------------------

  /** A position shift along one axis. */
  type Shift = d: int | -1 <= d <= 1

  function Neighbor(bits: bv64, step: bv64, dx: Shift, dy: Shift): bv64
    requires 1 <= step <= 32
  {
    MovedY(MovedX(bits, step, dx), step, dy)
  }

  /** A neighbour is the hash of the shifted coordinates: the grid is a torus. */
  lemma NeighborOnTorus(bits: bv64, step: bv64, dx: Shift, dy: Shift)
    requires 1 <= step <= 32
    ensures Lat(Neighbor(bits, step, dx, dy)) == OnRing(Lat(bits), dy, AxisMask(step))
    ensures Lon(Neighbor(bits, step, dx, dy)) == OnRing(Lon(bits), dx, AxisMask(step))
  {
    hide Lat, Lon, MovedX, MovedY, OnRing, AxisMask;
    MoveXIsRingStep(bits, step, dx);
    MoveYIsRingStep(MovedX(bits, step, dx), step, dy);
  }

  predicate OnAxis(c: bv64, step: bv64)
    requires 1 <= step <= 32
  {
    c <= AxisMask(step)
  }

  /** On numbers: both coordinates of a cell of the grid move by the shifts, modulo 2^step. */
  lemma NeighborIsModular(bits: bv64, step: bv64, dx: Shift, dy: Shift)
    requires 1 <= step <= 32 && OnAxis(Lat(bits), step) && OnAxis(Lon(bits), step)
    ensures Pow2(Number(step)) > 0
    ensures var r := Neighbor(bits, step, dx, dy);
            && Number(Lat(r)) == (Number(Lat(bits)) + Sign(dy)) % Pow2(Number(step))
            && Number(Lon(r)) == (Number(Lon(bits)) + Sign(dx)) % Pow2(Number(step))
  {
    hide Lat, Lon, Neighbor, OnRing, AxisMask, Number, Pow2;
    NeighborOnTorus(bits, step, dx, dy);
    OnRingIsModular(Lat(bits), dy, step);
    OnRingIsModular(Lon(bits), dx, step);
  }

  lemma NextDiffers(c: bv64, k: bv64)
    requires IsAxisMask(k) && c <= k && k != 0
    ensures Next(c, k) != c
  {
  }

  lemma PreviousDiffers(c: bv64, k: bv64)
    requires IsAxisMask(k) && c <= k && k != 0
    ensures Previous(c, k) != c
  {
  }

  lemma NextIsNotPrevious(c: bv64, k: bv64)
    requires IsAxisMask(k) && c <= k
    ensures Next(c, k) == Previous(c, k) <==> k <= 1
  {
  }

  lemma AxisMaskSize(step: bv64)
    requires 1 <= step <= 32
    ensures AxisMask(step) >= 1 && (AxisMask(step) == 1 <==> step == 1)
  {
  }

  /** Different shifts reach different positions, except on the two-cell ring of step 1. */
  lemma RingStepsDistinct(c: bv64, d: Shift, e: Shift, step: bv64)
    requires 1 <= step <= 32 && OnAxis(c, step)
    ensures SameWord(OnRing(c, d, AxisMask(step)), OnRing(c, e, AxisMask(step))) <==> SameShift(d, e, step)
  {
    hide AxisMask, Next, Previous, IsAxisMask;
    var k := AxisMask(step);
    AxisMaskShape(step); AxisMaskSize(step);
    NextDiffers(c, k); PreviousDiffers(c, k); NextIsNotPrevious(c, k);
  }

  ghost predicate SameWord(a: bv64, b: bv64) { a == b }

  /** Shifts that lead to the same position of an axis: equal ones, and at step 1, where
      the ring has two cells, the two opposite ones. */
  ghost predicate SameShift(d: Shift, e: Shift, step: bv64) {
    d == e || (step == 1 && d != 0 && e != 0)
  }

  lemma SameNeighbor(bits: bv64, step: bv64, dx: Shift, dy: Shift, ex: Shift, ey: Shift)
    requires 1 <= step <= 32
    ensures SameWord(Neighbor(bits, step, dx, dy), Neighbor(bits, step, ex, ey)) <==>
            && SameWord(OnRing(Lon(bits), dx, AxisMask(step)), OnRing(Lon(bits), ex, AxisMask(step)))
            && SameWord(OnRing(Lat(bits), dy, AxisMask(step)), OnRing(Lat(bits), ey, AxisMask(step)))
  {
    hide Lat, Lon, OnRing, AxisMask, Neighbor;
    NeighborOnTorus(bits, step, dx, dy);
    NeighborOnTorus(bits, step, ex, ey);
    SameCoordinates(Neighbor(bits, step, dx, dy), Neighbor(bits, step, ex, ey));
  }

  /** The cell and its eight neighbours are nine different cells exactly when step > 1. */
  lemma NeighborsDistinct(bits: bv64, step: bv64, dx: Shift, dy: Shift, ex: Shift, ey: Shift)
    requires 1 <= step <= 32 && OnAxis(Lat(bits), step) && OnAxis(Lon(bits), step)
    ensures SameWord(Neighbor(bits, step, dx, dy), Neighbor(bits, step, ex, ey)) <==>
            SameShift(dx, ex, step) && SameShift(dy, ey, step)
  {
    hide *;
    SameNeighbor(bits, step, dx, dy, ex, ey);
    RingStepsDistinct(Lon(bits), dx, ex, step);
    RingStepsDistinct(Lat(bits), dy, ey, step);
  }

  datatype GeoHashBits = GeoHashBits(bits: bv64, step: bv64)

  /** The cell `dx` columns and `dy` rows away. */
  ghost predicate Adjacent(cell: GeoHashBits, hash: GeoHashBits, dx: Shift, dy: Shift)
    requires 1 <= hash.step <= 32
  {
    && cell.step == hash.step
    && Lon(cell.bits) == OnRing(Lon(hash.bits), dx, AxisMask(hash.step))
    && Lat(cell.bits) == OnRing(Lat(hash.bits), dy, AxisMask(hash.step))
  }

  class GeoHashNeighbors {
    var north: GeoHashBits
    var east: GeoHashBits
    var west: GeoHashBits
    var south: GeoHashBits
    var north_east: GeoHashBits
    var south_east: GeoHashBits
    var north_west: GeoHashBits
    var south_west: GeoHashBits

    /** geohashNeighbors: every field becomes the adjacent cell in its direction. */
    method Fill(hash: GeoHashBits)
      requires 1 <= hash.step <= 32
      modifies this
      ensures Adjacent(east, hash, 1, 0) && Adjacent(west, hash, -1, 0)
      ensures Adjacent(north, hash, 0, 1) && Adjacent(south, hash, 0, -1)
      ensures Adjacent(north_west, hash, -1, 1) && Adjacent(north_east, hash, 1, 1)
      ensures Adjacent(south_east, hash, 1, -1) && Adjacent(south_west, hash, -1, -1)
    {
      hide *;
      east := Move(hash, 1, 0);
      west := Move(hash, -1, 0);
      south := Move(hash, 0, -1);
      north := Move(hash, 0, 1);
      north_west := Move(hash, -1, 1);
      north_east := Move(hash, 1, 1);
      south_east := Move(hash, 1, -1);
      south_west := Move(hash, -1, -1);
    }
  }

  /** A copy of `hash`, moved first in x and then in y. */
  method Move(hash: GeoHashBits, dx: Shift, dy: Shift) returns (cell: GeoHashBits)
    requires 1 <= hash.step <= 32
    ensures Adjacent(cell, hash, dx, dy)
  {
    hide MovedX, MovedY, OnRing, Lat, Lon, AxisMask;
    var bits := hash.bits;
    bits := MovedX(bits, hash.step, dx);
    bits := MovedY(bits, hash.step, dy);
    cell := hash.(bits := bits);
    NeighborOnTorus(hash.bits, hash.step, dx, dy);
  }
}
