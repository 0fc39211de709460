/** The bitmap allocator of one paging partition (bootstrap/default_pager.c, struct part,
    pager_alloc_page and pager_dealloc_page).  The bitmap is an array of 32-bit words whose last
    word may have spare bits beyond the partition's size. */
module PartitionBitmap {

  import opened Options

  /** NB_BM and BM_MASK. */
  const WORD_BITS := 32
  const FULL_WORD: bv32 := 0xffffffff

  function HowMany(a: nat, b: nat): nat
    requires b > 0
  {
    (a + b - 1) / b
  }

  // ---------------------------------------------------------------- one word

  function Mask(i: nat): bv32
    requires i < WORD_BITS
  {
    1 << i
  }

  predicate HasBit(w: bv32, i: nat)
    requires i < WORD_BITS
  {
    w & Mask(i) != 0
  }

  lemma MasksApart(i: nat, j: nat)
    requires i < WORD_BITS && j < WORD_BITS && i != j
    ensures Mask(i) & Mask(j) == 0
  {
  }

  lemma MaskBit(i: nat)
    requires i < WORD_BITS
    ensures Mask(i) != 0
  {
  }

  lemma OrOther(w: bv32, m: bv32, n: bv32)
    requires m & n == 0
    ensures (w | m) & n == w & n
  {
  }

  lemma OrSame(w: bv32, m: bv32)
    ensures (w | m) & m == m
  {
  }

  lemma AndOther(w: bv32, m: bv32, n: bv32)
    requires m & n == 0
    ensures (w & !m) & n == w & n
  {
  }

  lemma AndSame(w: bv32, m: bv32)
    ensures (w & !m) & m == 0
  {
  }

  lemma FullAnd(m: bv32)
    ensures FULL_WORD & m == m
  {
  }

  /** The positions of the set bits of a word. */
  function Bits(w: bv32): set<nat> { set i: nat | i < WORD_BITS && HasBit(w, i) }

  lemma LowHalf(w: bv32)
    requires forall i: nat :: i < 16 ==> HasBit(w, i)
    ensures w & 0xffff == 0xffff
  {
    assert HasBit(w, 0) && HasBit(w, 1) && HasBit(w, 2) && HasBit(w, 3) && HasBit(w, 4) && HasBit(w, 5);
    assert HasBit(w, 6) && HasBit(w, 7) && HasBit(w, 8) && HasBit(w, 9) && HasBit(w, 10) && HasBit(w, 11);
    assert HasBit(w, 12) && HasBit(w, 13) && HasBit(w, 14) && HasBit(w, 15);
  }

  lemma HighHalf(w: bv32)
    requires forall i: nat :: 16 <= i < WORD_BITS ==> HasBit(w, i)
    ensures w & 0xffff0000 == 0xffff0000
  {
    assert HasBit(w, 16) && HasBit(w, 17) && HasBit(w, 18) && HasBit(w, 19) && HasBit(w, 20) && HasBit(w, 21);
    assert HasBit(w, 22) && HasBit(w, 23) && HasBit(w, 24) && HasBit(w, 25) && HasBit(w, 26) && HasBit(w, 27);
    assert HasBit(w, 28) && HasBit(w, 29) && HasBit(w, 30) && HasBit(w, 31);
  }

  lemma Halves(w: bv32)
    requires w & 0xffff == 0xffff && w & 0xffff0000 == 0xffff0000
    ensures w == FULL_WORD
  {
  }

  /** A word equals the full mask exactly when each of its bits is set. */
  lemma FullWord(w: bv32)
    ensures w == FULL_WORD <==> Bits(w) == Below(WORD_BITS)
  {
    if w == FULL_WORD {
      forall i: nat | i < WORD_BITS ensures HasBit(w, i) {
        MaskBit(i);
        FullAnd(Mask(i));
      }
    } else if Bits(w) == Below(WORD_BITS) {
      forall i: nat | i < WORD_BITS ensures HasBit(w, i) { assert i in Below(WORD_BITS); }
      LowHalf(w);
      HighHalf(w);
      Halves(w);
      assert false;
    }
  }

  lemma ZeroBits()
    ensures Bits(0) == {}
  {
  }

  lemma SetBits(w: bv32, i: nat)
    requires i < WORD_BITS
    ensures Bits(w | Mask(i)) == Bits(w) + {i}
  {
    forall j: nat | j < WORD_BITS ensures HasBit(w | Mask(i), j) <==> i == j || HasBit(w, j) {
      if i == j { SetBitSame(w, i); } else { SetBitOther(w, i, j); }
    }
  }

  lemma SetBitOther(w: bv32, i: nat, j: nat)
    requires i < WORD_BITS && j < WORD_BITS && i != j
    ensures HasBit(w | Mask(i), j) <==> HasBit(w, j)
  {
    MasksApart(i, j);
    OrOther(w, Mask(i), Mask(j));
  }

  lemma SetBitSame(w: bv32, i: nat)
    requires i < WORD_BITS
    ensures HasBit(w | Mask(i), i)
  {
    MaskBit(i);
    OrSame(w, Mask(i));
  }

  lemma ClearBits(w: bv32, i: nat)
    requires i < WORD_BITS
    ensures Bits(w & !Mask(i)) == Bits(w) - {i}
  {
    forall j: nat | j < WORD_BITS ensures HasBit(w & !Mask(i), j) <==> i != j && HasBit(w, j) {
      if i == j { ClearBitSame(w, i); } else { ClearBitOther(w, i, j); }
    }
  }

  lemma ClearBitOther(w: bv32, i: nat, j: nat)
    requires i < WORD_BITS && j < WORD_BITS && i != j
    ensures HasBit(w & !Mask(i), j) <==> HasBit(w, j)
  {
    MasksApart(i, j);
    AndOther(w, Mask(i), Mask(j));
  }

  lemma ClearBitSame(w: bv32, i: nat)
    requires i < WORD_BITS
    ensures !HasBit(w & !Mask(i), i)
  {
    AndSame(w, Mask(i));
  }

  /** The inner loop of pager_alloc_page: the lowest clear bit of a word that is not full. */
  method LowestClearBit(w: bv32) returns (bit: nat)
    requires w != FULL_WORD
    ensures bit < WORD_BITS && bit !in Bits(w) && forall j: nat :: j < bit ==> j in Bits(w)
  {
    FullWord(w);
    bit := 0;
    while bit < WORD_BITS && HasBit(w, bit)
      invariant 0 <= bit <= WORD_BITS
      invariant forall j: nat :: j < bit ==> j in Bits(w)
    {
      bit := bit + 1;
    }
    if bit == WORD_BITS { assert false; }
  }

  // ---------------------------------------------------------------- the whole bitmap

  /** The blocks marked in a bitmap, given the set bits of each word. */
  function Marked(words: seq<set<nat>>): set<nat> {
    set b: nat | b < WORD_BITS * |words| && b % WORD_BITS in words[b / WORD_BITS]
  }

  function AllBits(words: seq<bv32>): (r: seq<set<nat>>)
    ensures |r| == |words| && forall i :: 0 <= i < |words| ==> r[i] == Bits(words[i])
  {
    seq(|words|, i requires 0 <= i < |words| => Bits(words[i]))
  }

  lemma AllBitsUpdate(words: seq<bv32>, e: nat, w: bv32)
    requires e < |words|
    ensures AllBits(words[e := w]) == AllBits(words)[e := Bits(w)]
  {
  }

  /** The outer loop of pager_alloc_page: the first word that is not full. */
  method FirstOpenWord(bitmap: array<bv32>, limit: nat) returns (e: nat)
    requires limit == bitmap.Length && exists d :: 0 <= d < limit && AllBits(bitmap[..])[d] != Below(WORD_BITS)
    ensures e < limit && bitmap[e] != FULL_WORD
    ensures forall d :: 0 <= d < e ==> AllBits(bitmap[..])[d] == Below(WORD_BITS)
  {
    e := 0;
    while e < limit && bitmap[e] == FULL_WORD
      invariant 0 <= e <= limit
      invariant forall d :: 0 <= d < e ==> AllBits(bitmap[..])[d] == Below(WORD_BITS)
    {
      FullWord(bitmap[e]);
      e := e + 1;
    }
  }

  method MarkBit(bitmap: array<bv32>, e: nat, bit: nat)
    requires e < bitmap.Length && bit < WORD_BITS
    modifies bitmap
    ensures AllBits(bitmap[..]) == old(AllBits(bitmap[..])[e := AllBits(bitmap[..])[e] + {bit}])
  {
    ghost var before := bitmap[..];
    SetBits(bitmap[e], bit);
    bitmap[e] := bitmap[e] | Mask(bit);
    AllBitsUpdate(before, e, bitmap[e]);
    assert bitmap[..] == before[e := bitmap[e]];
  }

  method UnmarkBit(bitmap: array<bv32>, e: nat, bit: nat)
    requires e < bitmap.Length && bit < WORD_BITS
    modifies bitmap
    ensures AllBits(bitmap[..]) == old(AllBits(bitmap[..])[e := AllBits(bitmap[..])[e] - {bit}])
  {
    ghost var before := bitmap[..];
    ClearBits(bitmap[e], bit);
    bitmap[e] := bitmap[e] & !Mask(bit);
    AllBitsUpdate(before, e, bitmap[e]);
    assert bitmap[..] == before[e := bitmap[e]];
  }

  lemma BlockPosition(e: nat, i: nat, n: nat)
    requires i < WORD_BITS && e < n
    ensures (e * WORD_BITS + i) / WORD_BITS == e && (e * WORD_BITS + i) % WORD_BITS == i
    ensures e * WORD_BITS + i < WORD_BITS * n
  {
  }

  lemma BlockSplit(b: nat, n: nat)
    requires b < WORD_BITS * n
    ensures b / WORD_BITS < n && b == b / WORD_BITS * WORD_BITS + b % WORD_BITS
  {
  }

  lemma MarkOne(words: seq<set<nat>>, e: nat, i: nat)
    requires e < |words| && i < WORD_BITS
    ensures Marked(words[e := words[e] + {i}]) == Marked(words) + {e * WORD_BITS + i}
    ensures Marked(words[e := words[e] - {i}]) == Marked(words) - {e * WORD_BITS + i}
  {
    BlockPosition(e, i, |words|);
    forall b: nat | b < WORD_BITS * |words|
      ensures b / WORD_BITS == e && b % WORD_BITS == i <==> b == e * WORD_BITS + i
    {
      BlockSplit(b, |words|);
    }
  }

  function Below(n: nat): (r: set<nat>)
    ensures forall b: nat :: b in r <==> b < n
  {
    if n == 0 then {} else Below(n - 1) + {n - 1}
  }

  lemma {:induction false} BelowCard(n: nat)
    ensures |Below(n)| == n
  {
    if n > 0 {
      BelowCard(n - 1);
    }
  }

  lemma SubsetCard(s: set<nat>, t: set<nat>)
    requires s <= t
    ensures |s| <= |t| && (|s| == |t| ==> s == t)
  {
    var rest := t - s;
    assert t == s + rest && |t| == |s| + |rest|;
  }

  /** The words before `e` are full and so are the first `i` bits of word `e`. */
  lemma LowestClear(words: seq<set<nat>>, e: nat, i: nat)
    requires e < |words| && i < WORD_BITS && i !in words[e]
    requires forall d :: 0 <= d < e ==> words[d] == Below(WORD_BITS)
    requires forall j: nat :: j < i ==> j in words[e]
    ensures e * WORD_BITS + i !in Marked(words)
    ensures forall c: nat :: c < e * WORD_BITS + i ==> c in Marked(words)
  {
    BlockPosition(e, i, |words|);
    forall c: nat | c < e * WORD_BITS + i ensures c in Marked(words) {
      BlockSplit(c, |words|);
      assert c % WORD_BITS in Below(WORD_BITS);
    }
  }

  /** With a free block there is a word that is not full. */
  lemma SomeWordOpen(words: seq<set<nat>>, total: nat)
    requires |words| == HowMany(total, WORD_BITS) && |Marked(words)| < total
    ensures exists e :: 0 <= e < |words| && words[e] != Below(WORD_BITS)
  {
    if forall e :: 0 <= e < |words| ==> words[e] == Below(WORD_BITS) {
      forall b: nat | b < total ensures b in Marked(words) {
        BlockSplit(b, |words|);
        assert b % WORD_BITS in Below(WORD_BITS);
      }
      BelowCard(total);
      SubsetCard(Below(total), Marked(words));
    }
  }

  /** The lowest clear bit is in range as long as fewer than `total` blocks are used: the spare bits
      of the last word come after every real block. */
  lemma InRange(words: seq<set<nat>>, total: nat, b: nat)
    requires |Marked(words)| < total && forall c: nat :: c < b ==> c in Marked(words)
    ensures b < total
  {
    BelowCard(b);
    SubsetCard(Below(b), Marked(words));
  }

  /** The blocks marked in a bitmap of words. */
  function Blocks(words: seq<bv32>): set<nat> { Marked(AllBits(words)) }

  /** The search of pager_alloc_page: the lowest clear bit, which is that of a block below `total`
      as long as fewer than `total` blocks are marked; neither scan runs off its end. */
  method FindClear(bitmap: array<bv32>, total: nat) returns (e: nat, bit: nat)
    requires bitmap.Length == HowMany(total, WORD_BITS) && |Blocks(bitmap[..])| < total
    ensures e < bitmap.Length && bit < WORD_BITS && e * WORD_BITS + bit < total
    ensures e * WORD_BITS + bit !in Blocks(bitmap[..])
    ensures forall c: nat :: c < e * WORD_BITS + bit ==> c in Blocks(bitmap[..])
  {
    ghost var words := AllBits(bitmap[..]);
    SomeWordOpen(words, total);
    e := FirstOpenWord(bitmap, HowMany(total, WORD_BITS));
    bit := LowestClearBit(bitmap[e]);
    LowestClear(words, e, bit);
    InRange(words, total, e * WORD_BITS + bit);
  }

  method MarkBlock(bitmap: array<bv32>, e: nat, bit: nat)
    requires e < bitmap.Length && bit < WORD_BITS
    modifies bitmap
    ensures Blocks(bitmap[..]) == old(Blocks(bitmap[..])) + {e * WORD_BITS + bit}
  {
    MarkOne(AllBits(bitmap[..]), e, bit);
    MarkBit(bitmap, e, bit);
  }

  method UnmarkBlock(bitmap: array<bv32>, page: nat)
    requires page < WORD_BITS * bitmap.Length
    modifies bitmap
    ensures Blocks(bitmap[..]) == old(Blocks(bitmap[..])) - {page}
  {
    BlockSplit(page, bitmap.Length);
    MarkOne(AllBits(bitmap[..]), page / WORD_BITS, page % WORD_BITS);
    UnmarkBit(bitmap, page / WORD_BITS, page % WORD_BITS);
  }

  lemma RemoveCard(s: set<nat>, x: nat)
    ensures |s - {x}| == if x in s then |s| - 1 else |s|
  {
    if x !in s { assert s - {x} == s; }
  }

  /** struct part. */
  class Partition {
    var total: nat
    var free: nat
    var id: nat
    var bitmap: array<bv32>
    var goingAway: bool
    ghost var used: set<nat>

    /** `used` is the set of blocks whose bits are set; the spare bits of the last word are clear, and
        `free` counts the clear bits below `total`. */
    ghost predicate Valid()
      reads this, bitmap
    {
      && bitmap.Length == HowMany(total, WORD_BITS)
      && used == Blocks(bitmap[..])
      && (forall b :: b in used ==> b < total)
      && free + |used| == total
    }

    /** create_paging_partition: every block free. */
    constructor (size: nat, name: nat)
      ensures Valid() && fresh(bitmap)
      ensures total == size && free == size && id == name && !goingAway && used == {}
    {
      total, free, id, goingAway, used := size, size, name, false, {};
      bitmap := new bv32[HowMany(size, WORD_BITS)](_ => 0);
      new;
      forall k | 0 <= k < bitmap.Length ensures AllBits(bitmap[..])[k] == {} { ZeroBits(); }
    }

    /** pager_alloc_page: nothing if the partition is going away or full; otherwise the lowest block
        whose bit is clear, which is below the partition's size. */
    method AllocPage() returns (r: Option<nat>)
      requires Valid()
      modifies this`free, this`used, bitmap
      ensures Valid()
      ensures r.None? <==> goingAway || old(free) == 0
      ensures r.None? ==> free == old(free) && used == old(used) && bitmap[..] == old(bitmap[..])
      ensures r.Some? ==> r.value < total && r.value !in old(used) && used == old(used) + {r.value}
      ensures r.Some? ==> free == old(free) - 1 && forall c: nat :: c < r.value ==> c in old(used)
    {
      if goingAway || free == 0 {
        return None;
      }
      var e, bit := FindClear(bitmap, total);
      MarkBlock(bitmap, e, bit);
      free := free - 1;
      used := used + {e * WORD_BITS + bit};
      r := Some(e * WORD_BITS + bit);
    }

    /** pager_dealloc_page: it clears the bit and counts a free block without looking, so the counts
        stay true if and only if the bit was set. */
    method DeallocPage(page: nat)
      requires Valid() && page < total
      modifies this`free, this`used, bitmap
      ensures used == old(used) - {page} && free == old(free) + 1
      ensures Valid() <==> page in old(used)
    {
      RemoveCard(used, page);
      UnmarkBlock(bitmap, page);
      free := free + 1;
      used := used - {page};
    }
  }
}
