/** A disk block: BSIZE bytes, which the log header and indirect blocks also use as
    little-endian 32-bit words. */
module DiskBlock {

  const BSIZE: nat := 1024
  const NINDIRECT: nat := 256   // words in a block

  type Block = b: seq<int> | |b| == BSIZE witness seq(BSIZE, _ => 0)

  /** ((uint*)data)[j], little-endian. */
  function Word(b: Block, j: nat): int
    requires j < NINDIRECT
  {
    b[4 * j] + 256 * b[4 * j + 1] + 65536 * b[4 * j + 2] + 16777216 * b[4 * j + 3]
  }

  function SetWord(b: Block, j: nat, v: int): Block
    requires j < NINDIRECT
  {
    b[4 * j := v % 256][4 * j + 1 := v / 256 % 256][4 * j + 2 := v / 65536 % 256][4 * j + 3 := v / 16777216]
  }

  lemma WordSet(b: Block, j: nat, v: int, k: nat)
    requires j < NINDIRECT && k < NINDIRECT
    ensures Word(SetWord(b, j, v), k) == if k == j then v else Word(b, k)
  {
    if k == j {
      Recompose(v);
    } else {
      assert 4 * k + 3 < 4 * j || 4 * j + 3 < 4 * k;
    }
  }

  lemma Recompose(v: int)
    ensures v == v % 256 + 256 * (v / 256 % 256) + 65536 * (v / 65536 % 256) + 16777216 * (v / 16777216)
  {
    assert v / 65536 == v / 256 / 256 && v / 16777216 == v / 65536 / 256;
  }
}
