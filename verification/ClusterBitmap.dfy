/** The bitmap of slots of a node: CLUSTER_SLOTS bits in bytes, and the set of slots it stands for. */
module ClusterBitmap {
  import opened ClusterModel

  const BYTES := 2048

  type Bitmap = b: seq<bv8> | |b| == BYTES witness seq(BYTES, _ => 0)

  function Zero(): Bitmap { seq(BYTES, _ => 0) }

  /** Bit `i` of a byte. */
  predicate BitOf(b: bv8, i: nat)
    requires i < 8
  {
    b & (1 << i) != 0
  }

  /** bitmapTestBit */
  predicate TestBit(b: Bitmap, pos: Slot) { BitOf(b[pos / 8], pos % 8) }

  /** The slots whose bits are set. */
  ghost function SlotsOf(b: Bitmap): set<Slot> { set j: Slot | TestBit(b, j) }

  lemma BitSet(b: bv8, i: nat, k: nat)
    requires i < 8 && k < 8
    ensures BitOf(b | (1 << i), k) <==> k == i || BitOf(b, k)
  {
  }

  lemma BitCleared(b: bv8, i: nat, k: nat)
    requires i < 8 && k < 8
    ensures BitOf(b & !(1 << i), k) <==> k != i && BitOf(b, k)
  {
  }

  lemma SamePlace(j: Slot, pos: Slot)
    ensures j == pos <==> j / 8 == pos / 8 && j % 8 == pos % 8
  {
  }

  /** bitmapSetBit */
  function SetBit(b: Bitmap, pos: Slot): Bitmap { b[pos / 8 := b[pos / 8] | (1 << (pos % 8))] }

  /** bitmapClearBit */
  function ClearBit(b: Bitmap, pos: Slot): Bitmap { b[pos / 8 := b[pos / 8] & !(1 << (pos % 8))] }

  /** Setting a bit adds its slot and changes nothing else. */
  lemma SetBitAdds(b: Bitmap, pos: Slot)
    ensures SlotsOf(SetBit(b, pos)) == SlotsOf(b) + {pos}
  {
    hide BitOf;
    var r := SetBit(b, pos);
    forall j: Slot ensures TestBit(r, j) <==> j == pos || TestBit(b, j) {
      SamePlace(j, pos);
      if j / 8 == pos / 8 { BitSet(b[pos / 8], pos % 8, j % 8); }
    }
  }

  /** Clearing a bit removes its slot and changes nothing else. */
  lemma ClearBitRemoves(b: Bitmap, pos: Slot)
    ensures SlotsOf(ClearBit(b, pos)) == SlotsOf(b) - {pos}
  {
    hide BitOf;
    var r := ClearBit(b, pos);
    forall j: Slot ensures TestBit(r, j) <==> j != pos && TestBit(b, j) {
      SamePlace(j, pos);
      if j / 8 == pos / 8 { BitCleared(b[pos / 8], pos % 8, j % 8); }
    }
  }

  lemma ZeroIsEmpty()
    ensures SlotsOf(Zero()) == {}
  {
    forall j: Slot ensures !TestBit(Zero(), j) { assert Zero()[j / 8] == 0; }
  }
}
