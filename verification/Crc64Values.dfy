/** Values of the checksum: the check value of CRC-64-Jones, and the residue law that data
    followed by its own checksum has the checksum zero. */
module Crc64Values {
  import opened Crc64

  /** The digits 1 to 9 in ASCII. */
  const CHECK: seq<bv8> := [0x31, 0x32, 0x33, 0x34, 0x35, 0x36, 0x37, 0x38, 0x39]

  /** The register after each of them. */
  const REGISTERS: seq<bv64> := [
    0, 0xfdc17184a9f739fa, 0xe10364513a98ed96, 0xd5bcfb814479b1ac, 0x43593c5dcda521f0,
    0xf0758513239c7e0d, 0xa3a90925b2ab4903, 0x47824d362431ad45, 0x49ec20b315e86dc2, 0xe9c6d914c4b8d9ca]

  lemma CheckStep(i: nat)
    requires i < 9
    ensures Step(REGISTERS[i], CHECK[i]) == REGISTERS[i + 1]
  {
    if i == 0 { assert Step(0, 0x31) == 0xfdc17184a9f739fa; }
    else if i == 1 { assert Step(0xfdc17184a9f739fa, 0x32) == 0xe10364513a98ed96; }
    else if i == 2 { assert Step(0xe10364513a98ed96, 0x33) == 0xd5bcfb814479b1ac; }
    else if i == 3 { assert Step(0xd5bcfb814479b1ac, 0x34) == 0x43593c5dcda521f0; }
    else if i == 4 { assert Step(0x43593c5dcda521f0, 0x35) == 0xf0758513239c7e0d; }
    else if i == 5 { assert Step(0xf0758513239c7e0d, 0x36) == 0xa3a90925b2ab4903; }
    else if i == 6 { assert Step(0xa3a90925b2ab4903, 0x37) == 0x47824d362431ad45; }
    else if i == 7 { assert Step(0x47824d362431ad45, 0x38) == 0x49ec20b315e86dc2; }
    else { assert Step(0x49ec20b315e86dc2, 0x39) == 0xe9c6d914c4b8d9ca; }
  }

  lemma {:induction false} CheckPrefix(n: nat)
    requires n <= 9
    ensures Fold(0, CHECK[..n]) == REGISTERS[n]
  {
    hide Step;
    if n == 0 {
      assert CHECK[..0] == [];
    } else {
      CheckPrefix(n - 1);
      assert CHECK[..n][..n - 1] == CHECK[..n - 1];
      CheckStep(n - 1);
    }
  }

  /** The check value, of the fast form and of the bit-by-bit definition. */
  lemma CheckValue()
    ensures Fold(0, CHECK) == 0xe9c6d914c4b8d9ca
    ensures Reflect(ShiftBytes(0, CHECK)) == 0xe9c6d914c4b8d9ca
  {
    hide Fold, Reflect, ShiftBytes;
    assert CHECK[..9] == CHECK;
    CheckPrefix(9);
    ReflectBytes(0, CHECK);
    assert Reflect(0) == 0 by { ReflectZero(); }
  }

  lemma ReflectZero()
    ensures Reflect(0) == 0
  {
  }

  lemma XorSelf(x: bv64)
    ensures Xor(x, x) == 0
  {
  }

  lemma {:induction false} AdvanceNothing(n: nat)
    ensures AdvanceN(0, n) == 0
  {
    if n > 0 { AdvanceNothing(n - 1); }
  }

  /** Data followed by its checksum, least significant byte first, leaves the register zero. */
  lemma ResidueIsZero(start: bv64, data: seq<bv8>)
    ensures Fold(start, data + Store(Fold(start, data))) == 0
  {
    hide Fold, Store, Xor, Slices, AdvanceN, LoadLittle;
    var crc := Fold(start, data);
    FoldChunks(start, data, Store(crc));
    SlicesFold(crc, Store(crc));
    LoadStore(crc);
    XorSelf(crc);
    SlicesAdvance(0);
    AdvanceNothing(8);
  }
}
