/** BITOP: four 64-bit words at a time as long as every input has data, then byte by byte as
    if zeroes followed the shorter inputs. */
module Bitop {

  type byte = bv8

  datatype Op = And | Or | Xor | Not

  // -------------------------------------------------------------------------
  // Byte by byte
  // -------------------------------------------------------------------------

  function Op8(op: Op, x: byte, y: byte): byte {
    match op case And => x & y case Or => x | y case Xor => x ^ y case Not => x
  }

  function Start8(op: Op, x: byte): byte { if op == Not then !x else x }

  /** Byte `j` of an input; beyond its end it is zero. */
  function At(s: seq<byte>, j: nat): byte { if j < |s| then s[j] else 0 }

  /** The fold over the first `n` inputs at byte `j`. */
  function Folded(op: Op, src: seq<seq<byte>>, j: nat, n: nat): byte
    requires 0 < n <= |src|
  {
    if n == 1 then Start8(op, At(src[0], j)) else Op8(op, Folded(op, src, j, n - 1), At(src[n - 1], j))
  }

  function Mask(k: nat): byte
    requires k < 8
  {
    match k
    case 0 => 0x01 case 1 => 0x02 case 2 => 0x04 case 3 => 0x08
    case 4 => 0x10 case 5 => 0x20 case 6 => 0x40 case _ => 0x80
  }

  /** Bit `k` of a byte, the least significant first. */
  predicate Bit(b: byte, k: nat)
    requires k < 8
  {
    HasMask(b, Mask(k))
  }

  predicate HasMask(b: byte, m: byte) { b & m != 0 }

  /** How many of the first `n` inputs have bit `k` of byte `j`. */
  function Having(src: seq<seq<byte>>, j: nat, k: nat, n: nat): (c: nat)
    requires n <= |src| && k < 8
    ensures c <= n
  {
    if n == 0 then 0 else Having(src, j, k, n - 1) + if Bit(At(src[n - 1], j), k) then 1 else 0
  }

  predicate IsMask(m: byte) { m != 0 && m & (m - 1) == 0 }

  lemma MaskIs(k: nat)
    requires k < 8
    ensures IsMask(Mask(k))
  {
  }

  lemma MaskAnd(x: byte, y: byte, m: byte)
    requires IsMask(m)
    ensures HasMask(Op8(And, x, y), m) <==> HasMask(x, m) && HasMask(y, m)
  {
  }

  lemma MaskOr(x: byte, y: byte, m: byte)
    ensures HasMask(Op8(Or, x, y), m) <==> HasMask(x, m) || HasMask(y, m)
  {
  }

  lemma MaskXor(x: byte, y: byte, m: byte)
    requires IsMask(m)
    ensures HasMask(Op8(Xor, x, y), m) <==> HasMask(x, m) != HasMask(y, m)
  {
  }

  lemma MaskStart(op: Op, x: byte, m: byte)
    requires IsMask(m)
    ensures HasMask(Start8(op, x), m) <==> if op == Not then !HasMask(x, m) else HasMask(x, m)
  {
  }

  lemma BitOfOp(op: Op, x: byte, y: byte, k: nat)
    requires k < 8
    ensures Bit(Op8(op, x, y), k) <==>
            match op
            case And => Bit(x, k) && Bit(y, k)
            case Or => Bit(x, k) || Bit(y, k)
            case Xor => Bit(x, k) != Bit(y, k)
            case Not => Bit(x, k)
    ensures Bit(Start8(op, x), k) <==> if op == Not then !Bit(x, k) else Bit(x, k)
  {
    if op == Not { assert Op8(op, x, y) == x; }
    hide HasMask, IsMask, Mask, Op8, Start8;
    var m := Mask(k);
    MaskIs(k);
    MaskAnd(x, y, m);
    MaskOr(x, y, m);
    MaskXor(x, y, m);
    MaskStart(op, x, m);
  }

  /** Bit by bit: AND asks that every input has the bit, OR that some input has it, XOR that an odd
      number of them do, and NOT that its input does not. */
  lemma {:induction false} FoldedBit(op: Op, src: seq<seq<byte>>, j: nat, k: nat, n: nat)
    requires 0 < n <= |src| && k < 8 && (op == Not ==> n == 1)
    ensures Bit(Folded(op, src, j, n), k) <==>
            match op
            case And => Having(src, j, k, n) == n
            case Or => Having(src, j, k, n) > 0
            case Xor => Having(src, j, k, n) % 2 == 1
            case Not => Having(src, j, k, n) == 0
  {
    hide Bit, Op8, Start8, At;
    if n == 1 {
      assert Having(src, j, k, 0) == 0;
      BitOfOp(op, At(src[0], j), 0, k);
    } else {
      FoldedBit(op, src, j, k, n - 1);
      BitOfOp(op, Folded(op, src, j, n - 1), At(src[n - 1], j), k);
    }
  }

  // -------------------------------------------------------------------------
  // Words
  // -------------------------------------------------------------------------

  function And64(x: bv64, y: bv64): bv64 { x & y }
  function Or64(x: bv64, y: bv64): bv64 { x | y }
  function Xor64(x: bv64, y: bv64): bv64 { x ^ y }
  function Not64(x: bv64): bv64 { !x }

  function Op64(op: Op, x: bv64, y: bv64): bv64 {
    match op case And => And64(x, y) case Or => Or64(x, y) case Xor => Xor64(x, y) case Not => x
  }

  function Shr8(w: bv64): bv64 { w >> 8 }
  function Low(w: bv64): byte { (w & 0xff) as bv8 }

  function Shifted(w: bv64, k: nat): bv64 { if k == 0 then w else Shr8(Shifted(w, k - 1)) }

  /** Byte `k` of a word in memory. */
  function Byte(w: bv64, k: nat): byte { Low(Shifted(w, k)) }

  lemma ShrAnd(x: bv64, y: bv64) ensures Shr8(And64(x, y)) == And64(Shr8(x), Shr8(y)) {}
  lemma ShrOr(x: bv64, y: bv64) ensures Shr8(Or64(x, y)) == Or64(Shr8(x), Shr8(y)) {}
  lemma ShrXor(x: bv64, y: bv64) ensures Shr8(Xor64(x, y)) == Xor64(Shr8(x), Shr8(y)) {}
  lemma LowAnd(x: bv64, y: bv64) ensures Low(And64(x, y)) == Low(x) & Low(y) {}
  lemma LowOr(x: bv64, y: bv64) ensures Low(Or64(x, y)) == Low(x) | Low(y) {}
  lemma LowXor(x: bv64, y: bv64) ensures Low(Xor64(x, y)) == Low(x) ^ Low(y) {}

  lemma LowOp(op: Op, x: bv64, y: bv64)
    ensures Low(Op64(op, x, y)) == Op8(op, Low(x), Low(y))
  {
    hide Low, And64, Or64, Xor64;
    match op
    case And => LowAnd(x, y);
    case Or => LowOr(x, y);
    case Xor => LowXor(x, y);
    case Not =>
  }

  lemma ShrOp(op: Op, x: bv64, y: bv64)
    ensures Shr8(Op64(op, x, y)) == Op64(op, Shr8(x), Shr8(y))
  {
    hide Shr8, And64, Or64, Xor64;
    match op
    case And => ShrAnd(x, y);
    case Or => ShrOr(x, y);
    case Xor => ShrXor(x, y);
    case Not =>
  }

  /** An operation on words is the operation on their bytes. */
  lemma {:induction false} ShiftedOp(op: Op, x: bv64, y: bv64, k: nat)
    ensures Shifted(Op64(op, x, y), k) == Op64(op, Shifted(x, k), Shifted(y, k))
  {
    hide Shr8, Op64;
    if k > 0 {
      ShiftedOp(op, x, y, k - 1);
      ShrOp(op, Shifted(x, k - 1), Shifted(y, k - 1));
    }
  }

  lemma ByteOfOp(op: Op, x: bv64, y: bv64, k: nat)
    ensures Byte(Op64(op, x, y), k) == Op8(op, Byte(x, k), Byte(y, k))
  {
    hide Low, Op64, Op8, Shifted;
    ShiftedOp(op, x, y, k);
    LowOp(op, Shifted(x, k), Shifted(y, k));
  }

  lemma Shr16(w: bv64) ensures Shr8(w >> 8) == w >> 16 {}
  lemma Shr24(w: bv64) ensures Shr8(w >> 16) == w >> 24 {}
  lemma Shr32(w: bv64) ensures Shr8(w >> 24) == w >> 32 {}
  lemma Shr40(w: bv64) ensures Shr8(w >> 32) == w >> 40 {}
  lemma Shr48(w: bv64) ensures Shr8(w >> 40) == w >> 48 {}
  lemma Shr56(w: bv64) ensures Shr8(w >> 48) == w >> 56 {}

  /** A word shifted by `k` bytes. */
  function ShiftedBy(w: bv64, k: nat): bv64
    requires k < 8
  {
    match k
    case 0 => w case 1 => w >> 8 case 2 => w >> 16 case 3 => w >> 24
    case 4 => w >> 32 case 5 => w >> 40 case 6 => w >> 48 case _ => w >> 56
  }

  lemma ShrNext(w: bv64, k: nat)
    requires 0 < k < 8
    ensures Shr8(ShiftedBy(w, k - 1)) == ShiftedBy(w, k)
  {
    match k
    case 1 =>
    case 2 => Shr16(w);
    case 3 => Shr24(w);
    case 4 => Shr32(w);
    case 5 => Shr40(w);
    case 6 => Shr48(w);
    case _ => Shr56(w);
  }

  lemma {:induction false} ShiftedIs(w: bv64, k: nat)
    requires k < 8
    ensures Shifted(w, k) == ShiftedBy(w, k)
  {
    hide Shr8;
    if k > 0 {
      hide ShiftedBy;
      ShiftedIs(w, k - 1);
      ShrNext(w, k);
    }
  }

  function Load(b: seq<byte>): bv64
    requires |b| == 8
  {
    (b[0] as bv64) | ((b[1] as bv64) << 8) | ((b[2] as bv64) << 16) | ((b[3] as bv64) << 24)
    | ((b[4] as bv64) << 32) | ((b[5] as bv64) << 40) | ((b[6] as bv64) << 48) | ((b[7] as bv64) << 56)
  }

  lemma LowOfLoad0(b: seq<byte>) requires |b| == 8 ensures Low(Load(b)) == b[0] {}
  lemma LowOfLoad1(b: seq<byte>) requires |b| == 8 ensures Low(Load(b) >> 8) == b[1] {}
  lemma LowOfLoad2(b: seq<byte>) requires |b| == 8 ensures Low(Load(b) >> 16) == b[2] {}
  lemma LowOfLoad3(b: seq<byte>) requires |b| == 8 ensures Low(Load(b) >> 24) == b[3] {}
  lemma LowOfLoad4(b: seq<byte>) requires |b| == 8 ensures Low(Load(b) >> 32) == b[4] {}
  lemma LowOfLoad5(b: seq<byte>) requires |b| == 8 ensures Low(Load(b) >> 40) == b[5] {}
  lemma LowOfLoad6(b: seq<byte>) requires |b| == 8 ensures Low(Load(b) >> 48) == b[6] {}
  lemma LowOfLoad7(b: seq<byte>) requires |b| == 8 ensures Low(Load(b) >> 56) == b[7] {}

  lemma LowOfLoad(b: seq<byte>, k: nat)
    requires |b| == 8 && k < 8
    ensures Low(ShiftedBy(Load(b), k)) == b[k]
  {
    hide Low, Load;
    match k
    case 0 => LowOfLoad0(b);
    case 1 => LowOfLoad1(b);
    case 2 => LowOfLoad2(b);
    case 3 => LowOfLoad3(b);
    case 4 => LowOfLoad4(b);
    case 5 => LowOfLoad5(b);
    case 6 => LowOfLoad6(b);
    case _ => LowOfLoad7(b);
  }

  lemma ByteOfLoad(b: seq<byte>, k: nat)
    requires |b| == 8 && k < 8
    ensures Byte(Load(b), k) == b[k]
  {
    hide Load, Low, Shifted, ShiftedBy;
    ShiftedIs(Load(b), k);
    LowOfLoad(b, k);
  }

  function Ones(): bv64 { 0xffff_ffff_ffff_ffff }

  lemma NotIsXor(x: bv64) ensures Not64(x) == Xor64(x, Ones()) {}

  lemma LowOfOnes(k: nat)
    requires k < 8
    ensures Low(ShiftedBy(Ones(), k)) == 255
  {
  }

  lemma XorOnes(b: byte) ensures b ^ 255 == !b {}

  lemma ByteOfNot(x: bv64, k: nat)
    requires k < 8
    ensures Byte(Not64(x), k) == !Byte(x, k)
  {
    hide Not64, Xor64, Ones, Low, Shifted, ShiftedBy;
    NotIsXor(x);
    ByteOfOp(Xor, x, Ones(), k);
    ShiftedIs(Ones(), k);
    LowOfOnes(k);
    XorOnes(Byte(x, k));
  }

  // -------------------------------------------------------------------------
  // The fast path
  // -------------------------------------------------------------------------

  /** Write a word at byte `at`. */
  method Store(res: array<byte>, at: nat, w: bv64)
    requires at + 8 <= res.Length
    modifies res
    ensures forall b :: at <= b < at + 8 ==> res[b] == Byte(w, b - at)
    ensures forall b :: 0 <= b < res.Length && (b < at || at + 8 <= b) ==> res[b] == old(res[b])
  {
    hide Byte;
    for k := 0 to 8
      invariant forall b :: at <= b < at + k ==> res[b] == Byte(w, b - at)
      invariant forall b :: 0 <= b < res.Length && (b < at || at + k <= b) ==> res[b] == old(res[b])
    {
      res[at + k] := Byte(w, k);
    }
  }

  /** One word of the result is combined with one of another input. */
  method OpWord(op: Op, res: array<byte>, src: seq<byte>, at: nat)
    requires at + 8 <= res.Length && at + 8 <= |src| && op != Not
    modifies res
    ensures forall b :: at <= b < at + 8 ==> res[b] == Op8(op, old(res[b]), src[b])
    ensures forall b :: 0 <= b < res.Length && (b < at || at + 8 <= b) ==> res[b] == old(res[b])
  {
    hide Byte, Op8, Op64, Load;
    var x, y := res[at..at + 8], src[at..at + 8];
    forall b | at <= b < at + 8 ensures Byte(Op64(op, Load(x), Load(y)), b - at) == Op8(op, res[b], src[b]) {
      ByteOfOp(op, Load(x), Load(y), b - at);
      ByteOfLoad(x, b - at);
      ByteOfLoad(y, b - at);
    }
    Store(res, at, Op64(op, Load(x), Load(y)));
  }

  method OpFourWords(op: Op, res: array<byte>, src: seq<byte>, at: nat)
    requires at + 32 <= res.Length && at + 32 <= |src| && op != Not
    modifies res
    ensures forall b :: at <= b < at + 32 ==> res[b] == Op8(op, old(res[b]), src[b])
    ensures forall b :: 0 <= b < res.Length && (b < at || at + 32 <= b) ==> res[b] == old(res[b])
  {
    hide Op8;
    OpWord(op, res, src, at);
    OpWord(op, res, src, at + 8);
    OpWord(op, res, src, at + 16);
    OpWord(op, res, src, at + 24);
  }

  method NotWord(res: array<byte>, at: nat)
    requires at + 8 <= res.Length
    modifies res
    ensures forall b :: at <= b < at + 8 ==> res[b] == !old(res[b])
    ensures forall b :: 0 <= b < res.Length && (b < at || at + 8 <= b) ==> res[b] == old(res[b])
  {
    hide Byte, Not64, Load;
    var x := res[at..at + 8];
    forall b | at <= b < at + 8 ensures Byte(Not64(Load(x)), b - at) == !res[b] {
      ByteOfNot(Load(x), b - at);
      ByteOfLoad(x, b - at);
    }
    Store(res, at, Not64(Load(x)));
  }

  method NotFourWords(res: array<byte>, at: nat)
    requires at + 32 <= res.Length
    modifies res
    ensures forall b :: at <= b < at + 32 ==> res[b] == !old(res[b])
    ensures forall b :: 0 <= b < res.Length && (b < at || at + 32 <= b) ==> res[b] == old(res[b])
  {
    NotWord(res, at);
    NotWord(res, at + 8);
    NotWord(res, at + 16);
    NotWord(res, at + 24);
  }

  /** Four words of the result, combined with all other inputs, or inverted. */
  method FourWords(op: Op, src: seq<seq<byte>>, res: array<byte>, at: nat)
    requires |src| > 0 && (op == Not ==> |src| == 1) && at + 32 <= res.Length
    requires forall i :: 0 <= i < |src| ==> at + 32 <= |src[i]|
    requires forall b :: at <= b < at + 32 ==> res[b] == src[0][b]
    modifies res
    ensures forall b :: at <= b < at + 32 ==> res[b] == Folded(op, src, b, |src|)
    ensures forall b :: 0 <= b < res.Length && (b < at || at + 32 <= b) ==> res[b] == old(res[b])
  {
    hide Op8, Folded;
    StartFolds(op, src, at);
    if op == Not {
      NotFourWords(res, at);
    } else {
      for i := 1 to |src|
        invariant forall b :: at <= b < at + 32 ==> res[b] == Folded(op, src, b, i)
        invariant forall b :: 0 <= b < res.Length && (b < at || at + 32 <= b) ==> res[b] == old(res[b])
      {
        FoldsOn(op, src, at, i);
        OpFourWords(op, res, src[i], at);
      }
    }
  }

  lemma StartFolds(op: Op, src: seq<seq<byte>>, at: nat)
    requires |src| > 0 && at + 32 <= |src[0]|
    ensures forall b :: at <= b < at + 32 ==> Folded(op, src, b, 1) == if op == Not then !src[0][b] else src[0][b]
  {
  }

  lemma FoldsOn(op: Op, src: seq<seq<byte>>, at: nat, i: nat)
    requires 0 < i < |src| && at + 32 <= |src[i]|
    ensures forall b :: at <= b < at + 32 ==> Folded(op, src, b, i + 1) == Op8(op, Folded(op, src, b, i), src[i][b])
  {
    hide Op8;
  }

  /** One byte of the result. */
  method OneByte(op: Op, src: seq<seq<byte>>, j: nat) returns (output: byte)
    requires |src| > 0 && (op == Not ==> |src| == 1)
    ensures output == Folded(op, src, j, |src|)
  {
    output := if |src[0]| <= j then 0 else src[0][j];
    if op == Not { output := !output; }
    for i := 1 to |src|
      invariant output == Folded(op, src, j, i)
    {
      var b := if |src[i]| <= j then 0 else src[i][j];
      output := Op8(op, output, b);
    }
  }

  /** The shortest and the longest input; a key that does not exist is an empty one. */
  method Lengths(src: seq<seq<byte>>) returns (minlen: nat, maxlen: nat)
    requires |src| > 0
    ensures forall i :: 0 <= i < |src| ==> minlen <= |src[i]| <= maxlen
    ensures exists i :: 0 <= i < |src| && |src[i]| == maxlen
  {
    minlen, maxlen := 0, 0;
    for j := 0 to |src|
      invariant forall i :: 0 <= i < j ==> minlen <= |src[i]| <= maxlen
      invariant if j == 0 then maxlen == 0 else exists i :: 0 <= i < j && |src[i]| == maxlen
    {
      if |src[j]| > maxlen || j == 0 { maxlen := |src[j]|; }
      if j == 0 || |src[j]| < minlen { minlen := |src[j]|; }
    }
  }

  /** The computation of bitopCommand: for every byte of the longest input, the fold of the
      operation over all inputs. */
  method Compute(op: Op, src: seq<seq<byte>>) returns (res: array<byte>)
    requires |src| > 0 && (op == Not ==> |src| == 1)
    ensures (forall i :: 0 <= i < |src| ==> |src[i]| <= res.Length)
    ensures (exists i :: 0 <= i < |src| && |src[i]| == res.Length)
    ensures forall j :: 0 <= j < res.Length ==> res[j] == Folded(op, src, j, |src|)
  {
    hide Folded;
    var minlen, maxlen := Lengths(src);
    res := new byte[maxlen](_ => 0);
    var j := 0;
    if minlen >= 32 && |src| <= 16 {
      forall b | 0 <= b < minlen { res[b] := src[0][b]; }
      while minlen - j >= 32
        invariant 0 <= j <= minlen
        invariant forall b :: 0 <= b < j ==> res[b] == Folded(op, src, b, |src|)
        invariant forall b :: j <= b < minlen ==> res[b] == src[0][b]
      {
        FourWords(op, src, res, j);
        j := j + 32;
      }
    }
    while j < maxlen
      invariant 0 <= j <= maxlen
      invariant forall b :: 0 <= b < j ==> res[b] == Folded(op, src, b, |src|)
    {
      res[j] := OneByte(op, src, j);
      j := j + 1;
    }
  }
}