/** Reading a file through a one-block buffer (buf_read_file and ffs_read_file in
    bootstrap/ffs_file_io.c), with block and fragment sizes from the shift and mask macros of
    bootstrap/fs.h, against the file as one flat sequence of bytes.  The device does not fail. */
module FileRead {

  import opened Arithmetic
  import opened BitArithmetic
  import BlockMap
  import opened Options
  import opened Words

  /** fs_bshift and fs_fshift; fs_bsize and fs_fsize are their powers of two. */
  datatype Sizes = Sizes(bshift: nat, fshift: nat)

  predicate SizesOk(z: Sizes) { z.fshift <= z.bshift < 31 }

  function BSize(z: Sizes): nat { Pow2(z.bshift) }

  function FSize(z: Sizes): nat { Pow2(z.fshift) }

  /** fs_bmask and fs_fmask: the complement of the size less one. */
  function MaskFor(shift: nat): nat
    requires shift <= 32
  {
    ClearLow(0, shift);
    Not(Pow2(shift) - 1)
  }

  /** The macros blkoff, lblkno, fragroundup and blksize. */
  function BlkOff(z: Sizes, loc: nat): nat
    requires SizesOk(z)
  {
    And(loc, Not(MaskFor(z.bshift)))
  }

  function LblkNo(z: Sizes, loc: nat): nat { ShiftRight(loc, z.bshift) }

  function FragRoundUp(z: Sizes, size: nat): nat
    requires SizesOk(z)
  {
    And(size + FSize(z) - 1, MaskFor(z.fshift))
  }

  function BlkSize(z: Sizes, direct: nat, size: nat, lbn: nat): nat
    requires SizesOk(z)
  {
    if lbn >= direct || size >= (lbn + 1) * BSize(z) then BSize(z) else FragRoundUp(z, BlkOff(z, size))
  }

  /** blkoff is the remainder and lblkno the quotient by the block size. */
  lemma OffsetMacros(z: Sizes, loc: nat)
    requires SizesOk(z)
    ensures BlkOff(z, loc) == Mod(loc, BSize(z)) && LblkNo(z, loc) == Div(loc, BSize(z))
  {
    MaskIsMod(loc, z.bshift);
    ShiftIsDiv(loc, z.bshift);
  }

  /** Rounding up to whole fragments stays within a block. */
  lemma FragMacro(z: Sizes, size: nat)
    requires SizesOk(z) && size <= BSize(z)
    ensures size <= FragRoundUp(z, size) <= BSize(z) && FragRoundUp(z, size) % FSize(z) == 0
  {
    var f, b := FSize(z), BSize(z);
    Pow2Of32();
    Monotone(z.fshift, z.bshift);
    Monotone(z.bshift, 30);
    assert Pow2(32) == 4 * Pow2(30);
    var x := size + f - 1;
    ClearLow(x, z.fshift);
    var q := PowersDivide(z.fshift, z.bshift);
    MultipleDiv(f, q);
    assert f * q == b;
    FloorBetween(x, f, b);
  }

  lemma FloorBetween(x: nat, f: nat, b: nat)
    requires f > 0 && b % f == 0 && x < b + f
    ensures x - f < x - x % f <= b && (x - x % f) % f == 0
  {
    var q, m := x / f, b / f;
    Recombine(x, f);
    Recombine(b, f);
    assert (m + 1) * f == m * f + f;
    QuotientBelow(x, m + 1, f);
    MulMono(f, q, m);
    MultipleDiv(f, q);
    assert x - x % f == f * q && b == f * m;
  }

  /** The byte before the end of the file in the file's last, incomplete block. */
  lemma LastBlock(size: nat, offset: nat, b: nat)
    requires b > 0 && offset < size < (offset / b + 1) * b
    ensures offset % b < size % b
  {
    var q := offset / b;
    Recombine(offset, b);
    assert (q + 1) * b == q * b + b;
    DivUnique(size, b, q, size - q * b);
  }

  lemma PartialSize(z: Sizes, size: nat)
    requires SizesOk(z)
    ensures size % BSize(z) <= FragRoundUp(z, BlkOff(z, size)) <= BSize(z)
  {
    OffsetMacros(z, size);
    Recombine(size, BSize(z));
    FragMacro(z, size % BSize(z));
  }

  /** The block that holds a byte of the file is stored with enough bytes to include it. */
  lemma BlockHolds(z: Sizes, direct: nat, size: nat, offset: nat)
    requires SizesOk(z) && offset < size
    ensures BlkOff(z, offset) < BlkSize(z, direct, size, LblkNo(z, offset)) <= BSize(z)
  {
    OffsetMacros(z, offset);
    Recombine(offset, BSize(z));
    PartialSize(z, size);
    if size < (LblkNo(z, offset) + 1) * BSize(z) { LastBlock(size, offset, BSize(z)); }
  }

  lemma BlkSizeBound(z: Sizes, direct: nat, size: nat, lbn: nat)
    requires SizesOk(z)
    ensures BlkSize(z, direct, size, lbn) <= BSize(z)
  {
    PartialSize(z, size);
  }

  // ---------------------------------------------------------------- the file

  /** A file with a one-block buffer in front of its block map. */
  class Reader {
    const z: Sizes
    const size: nat                    // i_size
    const content: nat -> seq<byte>    // what the device holds from a disk block on, up to a whole block
    const blocks: BlockMap.File
    var buf: seq<byte>
    var bufBlkno: Option<nat>

    constructor (z: Sizes, size: nat, content: nat -> seq<byte>, blocks: BlockMap.File)
      requires SizesOk(z) && blocks.Valid() && forall d: nat :: |content(d)| == BSize(z)
      requires size <= WORD && BSize(z) == 4 * blocks.sh.entries < WORD
      ensures Valid() && this.z == z && this.size == size && this.content == content && this.blocks == blocks
    {
      this.z, this.size, this.content, this.blocks := z, size, content, blocks;
      buf, bufBlkno := [], None;
    }

    /** The bytes of a file block: those on disk, or zeros for a hole. */
    ghost function Block(fb: nat): (r: seq<byte>)
      requires Sound() && Lookup(fb).Some?
      ensures |r| == BSize(z)
    {
      var d := Lookup(fb).value;
      if d == 0 then seq(BSize(z), _ => 0) else content(d)
    }

    ghost function Lookup(fb: nat): Option<nat>
      requires Sound()
    {
      BlockMap.Lookup(blocks.sh, blocks.inode, blocks.index, fb)
    }

    /** The file as a flat sequence: byte `i` is byte i % bsize of block i / bsize. */
    ghost function ByteAt(i: nat): byte
      requires Sound() && i < Readable()
    {
      ReadableMapped(i);
      Block(Div(i, BSize(z)))[Mod(i, BSize(z))]
    }

    /** The part of the file that its inode can map. */
    ghost function Readable(): nat {
      var most := BlockMap.Span(blocks.sh) * BSize(z);
      if size < most then size else most
    }

    ghost predicate Sound() {
      && SizesOk(z) && BlockMap.Mapped(blocks.sh, blocks.inode, blocks.index)
      && (forall d: nat :: |content(d)| == BSize(z))
      && size <= WORD && BSize(z) == 4 * blocks.sh.entries < WORD
    }

    lemma ReadableMapped(i: nat)
      requires Sound()
      ensures Lookup(Div(i, BSize(z))).Some? <==> i < BlockMap.Span(blocks.sh) * BSize(z)
    {
      QuotientAtLeast(i, BlockMap.Span(blocks.sh), BSize(z));
    }

    ghost predicate Valid()
      reads this, blocks
    {
      && Sound() && blocks.Valid()
      && (bufBlkno.Some? ==> Lookup(bufBlkno.value).Some? && Stored(bufBlkno.value) <= BSize(z)
                             && buf == Block(bufBlkno.value)[..Stored(bufBlkno.value)])
    }

    /** How many bytes of a block are stored. */
    function Stored(fb: nat): nat
      requires SizesOk(z)
    {
      BlkSize(z, blocks.sh.direct, size, fb)
    }

    /** The buffer holding a file block. */
    method FillBuffer(fb: nat, meanwhile: nat -> BlockMap.Cache) returns (ok: bool)
      requires Valid() && blocks.Truthful(meanwhile) && BlockMap.InReach(blocks.sh, fb)
      modifies this, blocks
      ensures Valid() && (ok <==> Lookup(fb).Some?) && (ok ==> bufBlkno == Some(fb))
    {
      if bufBlkno == Some(fb) {
        return true;
      }
      var r := blocks.BlockMap(fb, meanwhile);
      if r.None? {
        return false;
      }
      BlkSizeBound(z, blocks.sh.direct, size, fb);
      buf := if r.value == 0 then seq(Stored(fb), _ => 0) else content(r.value)[..Stored(fb)];
      bufBlkno := Some(fb);
      ok := true;
    }

    /** A byte further on in the same block. */
    lemma ByteInBlock(offset: nat, k: nat)
      requires Sound() && offset + k < size && BlkOff(z, offset) + k < BSize(z) && Lookup(LblkNo(z, offset)).Some?
      ensures offset + k < Readable() && ByteAt(offset + k) == Block(LblkNo(z, offset))[BlkOff(z, offset) + k]
    {
      OffsetMacros(z, offset);
      SameBlock(offset, k, BSize(z));
      ReadableMapped(offset + k);
    }

    /** The bytes of the file in the buffer from an offset on, up to the end of the file. */
    method FromBuffer(offset: nat) returns (r: seq<byte>)
      requires Valid() && offset < size && bufBlkno == Some(LblkNo(z, offset))
      requires BlkOff(z, offset) < Stored(LblkNo(z, offset))
      ensures |r| > 0 && offset + |r| <= Readable() && forall k :: 0 <= k < |r| ==> r[k] == ByteAt(offset + k)
    {
      var off, fb := BlkOff(z, offset), LblkNo(z, offset);
      var len := Stored(fb) - off;
      if len > size - offset {
        len := size - offset;
      }
      r := buf[off..off + len];
      ByteInBlock(offset, len - 1);
      forall k | 0 <= k < |r| ensures r[k] == ByteAt(offset + k) { ByteInBlock(offset, k); }
    }

    /** buf_read_file: nothing exactly past the end of the file or of what can be mapped; otherwise a
        non-empty run of the file's bytes from the offset on. */
    method BufRead(offset: nat, meanwhile: nat -> BlockMap.Cache) returns (r: Option<seq<byte>>)
      requires Valid() && blocks.Truthful(meanwhile)
      modifies this, blocks
      ensures Valid() && (r.Some? <==> offset < Readable())
      ensures r.Some? ==> |r.value| > 0 && offset + |r.value| <= Readable()
      ensures r.Some? ==> forall k :: 0 <= k < |r.value| ==> r.value[k] == ByteAt(offset + k)
    {
      if offset >= size {
        return None;
      }
      OffsetMacros(z, offset);
      ReadableMapped(offset);
      BlockHolds(z, blocks.sh.direct, size, offset);
      Recombine(offset, BSize(z));
      BlockMap.OffsetInReach(blocks.sh, LblkNo(z, offset), offset);
      var ok := FillBuffer(LblkNo(z, offset), meanwhile);
      if !ok {
        return None;
      }
      var bytes := FromBuffer(offset);
      r := Some(bytes);
    }

    /** ffs_read_file: it succeeds exactly when nothing is asked for or all that is asked for is in the
        file, and then returns exactly those bytes; otherwise it has copied what there was. */
    method Read(start: nat, count: nat, meanwhile: nat -> BlockMap.Cache) returns (ok: bool, out: seq<byte>)
      requires Valid() && blocks.Truthful(meanwhile)
      modifies this, blocks
      ensures Valid() && (ok <==> count == 0 || start + count <= Readable())
      ensures ok ==> |out| == count
      ensures |out| <= count && (out != [] ==> start + |out| <= Readable())
      ensures forall k :: 0 <= k < |out| ==> out[k] == ByteAt(start + k)
    {
      out := [];
      var offset, left := start, count;
      while left != 0
        invariant Valid() && offset == start + |out| && left == count - |out| && left >= 0
        invariant out != [] ==> offset <= Readable()
        invariant forall k :: 0 <= k < |out| ==> out[k] == ByteAt(start + k)
        decreases left
      {
        var piece := BufRead(offset, meanwhile);
        if piece.None? {
          return false, out;
        }
        var n := if left > |piece.value| then |piece.value| else left;
        forall k | |out| <= k < |out| + n ensures (out + piece.value[..n])[k] == ByteAt(start + k) {
          assert piece.value[k - |out|] == ByteAt(offset + (k - |out|));
        }
        out := out + piece.value[..n];
        offset, left := offset + n, left - n;
      }
      ok := true;
    }
  }
}
