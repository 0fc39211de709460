/** Finding the disk block of a file block through an inode's direct and indirect blocks
    (block_map in bootstrap/ffs_file_io.c and bootstrap/ext2_file_io.c), for any numbers of direct
    blocks, indirect levels and entries of an index block. */
module BlockMap {

  import opened Arithmetic
  import opened Options
  import opened Words

  /** NDADDR, NIADDR and NINDIR. */
  datatype Shape = Shape(direct: nat, levels: nat, entries: nat)

  datatype Inode = Inode(db: seq<nat>, ib: seq<nat>)

  function Pow(n: nat, k: nat): nat { if k == 0 then 1 else n * Pow(n, k - 1) }

  lemma {:induction false} PowPositive(n: nat, k: nat)
    requires n > 0
    ensures Pow(n, k) > 0
  {
    if k > 0 {
      PowPositive(n, k - 1);
      MulAtLeast(n, Pow(n, k - 1));
    }
  }

  // ---------------------------------------------------------------- index paths

  /** The file blocks before level `l` of the indirect blocks, counted from the first indirect one. */
  function Before(n: nat, l: nat): nat { if l == 0 then 0 else Before(n, l - 1) + Pow(n, l) }

  /** The file blocks an inode can map: NDADDR + NINDIR + NINDIR^2 + ... */
  function Span(sh: Shape): nat { sh.direct + Before(sh.entries, sh.levels) }

  /** The level of indirection and the index to take in each block on the way down. */
  datatype Path = Path(level: nat, digits: seq<nat>)

  predicate AllBelow(digits: seq<nat>, n: nat) { forall i :: 0 <= i < |digits| ==> digits[i] < n }

  predicate IsPath(sh: Shape,
                   p: Path) { p.level < sh.levels && |p.digits| == p.level + 1 && AllBelow(p.digits, sh.entries) }

  function ValueOf(n: nat, digits: seq<nat>): nat {
    if digits == [] then 0 else digits[0] * Pow(n, |digits| - 1) + ValueOf(n, digits[1..])
  }

  /** The file block that a path leads to. */
  function BlockOf(sh: Shape, p: Path): nat { sh.direct + Before(sh.entries, p.level) + ValueOf(sh.entries, p.digits) }

  /** The `k` base-n digits of a number, highest first. */
  function Digits(n: nat, r: nat, k: nat): (d: seq<nat>)
    requires n > 0
    ensures |d| == k
    decreases k
  {
    PowPositive(n, if k == 0 then 0 else k - 1);
    if k == 0 then [] else [r / Pow(n, k - 1)] + Digits(n, r % Pow(n, k - 1), k - 1)
  }

  lemma ValueCons(n: nat, x: nat, rest: seq<nat>)
    ensures ValueOf(n, [x] + rest) == x * Pow(n, |rest|) + ValueOf(n, rest)
  {
    assert ([x] + rest)[1..] == rest;
  }

  lemma BelowCons(x: nat, rest: seq<nat>, n: nat)
    ensures AllBelow([x] + rest, n) <==> x < n && AllBelow(rest, n)
  {
    if AllBelow([x] + rest, n) {
      assert ([x] + rest)[0] == x;
      forall i | 0 <= i < |rest| ensures rest[i] < n { assert ([x] + rest)[i + 1] == rest[i]; }
    }
  }

  lemma ConsNumber(n: nat, x: nat, rest: seq<nat>, p: nat)
    requires p == Pow(n, |rest|) && x < n && AllBelow(rest, n)
    ensures AllBelow([x] + rest, n) && ValueOf(n, [x] + rest) == x * p + ValueOf(n, rest)
  {
    BelowCons(x, rest, n);
    ValueCons(n, x, rest);
  }

  lemma DigitsCons(n: nat, r: nat, k: nat, p: nat)
    requires n > 0 && k > 0 && p == Pow(n, k - 1) && p > 0
    ensures Digits(n, r, k) == [r / p] + Digits(n, r % p, k - 1)
  {
  }

  lemma PowNext(n: nat, k: nat, p: nat)
    requires k > 0 && p == Pow(n, k - 1)
    ensures Pow(n, k) == n * p
  {
  }

  /** The digits of a number are below the base and give the number back. */
  lemma {:induction false} DigitsOfNumber(n: nat, r: nat, k: nat)
    requires n > 0 && r < Pow(n, k)
    ensures AllBelow(Digits(n, r, k), n) && ValueOf(n, Digits(n, r, k)) == r
    decreases k
  {
    if k > 0 {
      var p := Pow(n, k - 1);
      PowPositive(n, k - 1);
      PowNext(n, k, p);
      QuotientBelow(r, n, p);
      DigitsOfNumber(n, r % p, k - 1);
      DigitsCons(n, r, k, p);
      ConsNumber(n, r / p, Digits(n, r % p, k - 1), p);
      Recombine(r, p);
    }
  }

  lemma BelowNext(n: nat, x: nat, p: nat, v: nat)
    requires x < n && v < p
    ensures x * p + v < n * p
  {
    assert (n - x) * p == n * p - x * p;
    MulAtLeast(n - x, p);
  }

  /** A number made of digits below the base has these digits. */
  lemma {:induction false} NumberOfDigits(n: nat, digits: seq<nat>)
    requires n > 0 && AllBelow(digits, n)
    ensures ValueOf(n, digits) < Pow(n, |digits|) && Digits(n, ValueOf(n, digits), |digits|) == digits
  {
    if digits != [] {
      var p, x, rest := Pow(n, |digits| - 1), digits[0], digits[1..];
      assert digits == [x] + rest;
      PowPositive(n, |digits| - 1);
      BelowCons(x, rest, n);
      NumberOfDigits(n, rest);
      var v := ValueOf(n, rest);
      ConsNumber(n, x, rest, p);
      DivUnique(x * p + v, p, x, v);
      DigitsCons(n, x * p + v, |digits|, p);
      PowNext(n, |digits|, p);
      BelowNext(n, x, p, v);
    }
  }

  /** The loop over the levels: the first level whose blocks include number `r`, counted from level `l`. */
  function FindLevel(sh: Shape, r: nat, l: nat): Option<(nat, nat)>
    requires l <= sh.levels
    decreases sh.levels - l
  {
    if l == sh.levels then None
    else if r < Pow(sh.entries, l + 1) then Some((l, r))
    else FindLevel(sh, r - Pow(sh.entries, l + 1), l + 1)
  }

  /** Whether a block beyond the direct ones is in a level, and at which number, exactly as its place
      among the levels says. */
  lemma {:induction false} LevelFound(sh: Shape, r: nat, l: nat, m: nat, q: nat)
    requires l <= sh.levels
    ensures FindLevel(sh, r, l) == Some((m, q)) <==>
              l <= m < sh.levels && q < Pow(sh.entries, m + 1) && Before(sh.entries, l) + r == Before(sh.entries, m) + q
    ensures FindLevel(sh, r, l).None? <==> Before(sh.entries, l) + r >= Before(sh.entries, sh.levels)
    decreases sh.levels - l
  {
    BeforeMonotone(sh.entries, l, sh.levels);
    if l < sh.levels {
      if r < Pow(sh.entries, l + 1) {
        BeforeMonotone(sh.entries, l + 1, sh.levels);
        if l < m < sh.levels { BeforeMonotone(sh.entries, l + 1, m); }
      } else {
        LevelFound(sh, r - Pow(sh.entries, l + 1), l + 1, m, q);
      }
    }
  }

  lemma {:induction false} BeforeMonotone(n: nat, l: nat, m: nat)
    requires l <= m
    ensures Before(n, l) <= Before(n, m)
    decreases m
  {
    if l < m { BeforeMonotone(n, l, m - 1); }
  }

  /** The path of a file block beyond the direct ones. */
  function Decompose(sh: Shape, fb: nat): Option<Path>
    requires sh.entries > 0 && fb >= sh.direct
  {
    match FindLevel(sh, fb - sh.direct, 0)
    case None => None
    case Some((l, r)) => Some(Path(l, Digits(sh.entries, r, l + 1)))
  }

  /** A file block has a path exactly when it is within the span; the path leads to it, and no other
      path does. */
  lemma UniquePath(sh: Shape, fb: nat, p: Path)
    requires sh.entries > 0 && fb >= sh.direct
    ensures Decompose(sh, fb) == Some(p) <==> IsPath(sh, p) && BlockOf(sh, p) == fb
    ensures Decompose(sh, fb).Some? <==> fb < Span(sh)
  {
    var n := sh.entries;
    var r := fb - sh.direct;
    LevelFound(sh, r, 0, p.level, ValueOf(n, p.digits));
    if IsPath(sh, p) && BlockOf(sh, p) == fb {
      NumberOfDigits(n, p.digits);
    }
    match FindLevel(sh, r, 0) {
      case None =>
      case Some((l, q)) =>
        LevelFound(sh, r, 0, l, q);
        DigitsOfNumber(n, q, l + 1);
    }
  }

  // ---------------------------------------------------------------- the walk

  /** Index blocks hold NINDIR block numbers. */
  ghost predicate IndexOk(sh: Shape,
                          index: nat -> seq<nat>) { sh.entries > 0 && forall b: nat :: |index(b)| == sh.entries }

  /** Following a path through index blocks; block 0 stands for a hole. */
  ghost function Follow(sh: Shape, index: nat -> seq<nat>, block: nat, digits: seq<nat>): nat
    requires IndexOk(sh, index) && AllBelow(digits, sh.entries)
    decreases |digits|
  {
    if block == 0 || digits == [] then block else Follow(sh, index, index(block)[digits[0]], digits[1..])
  }

  ghost predicate Mapped(sh: Shape, inode: Inode, index: nat -> seq<nat>) {
    IndexOk(sh, index) && |inode.db| == sh.direct && |inode.ib| == sh.levels
  }

  /** The disk block of a file block by the uncached walk, or nothing if it is not in the file. */
  ghost function Lookup(sh: Shape, inode: Inode, index: nat -> seq<nat>, fb: nat): Option<nat>
    requires Mapped(sh, inode, index)
  {
    if fb < sh.direct then Some(inode.db[fb])
    else if fb >= Span(sh) then None
    else
      UniquePath(sh, fb, Path(0, []));
      var p := Decompose(sh, fb).value;
      UniquePath(sh, fb, p);
      Some(Follow(sh, index, inode.ib[p.level], p.digits))
  }

  // ---------------------------------------------------------------- the program

  const INT_LIMIT := 0x8000_0000

  /** What an int holds of a number. */
  function Int32(x: int): (r: int)
    ensures -INT_LIMIT <= r < INT_LIMIT && (-INT_LIMIT <= x < INT_LIMIT <==> r == x)
  {
    (x + INT_LIMIT) % WORD - INT_LIMIT
  }

  lemma Int32Shift(x: int, k: int)
    ensures Int32(x + k * WORD) == Int32(x)
  {
    var y := x + INT_LIMIT;
    DivUnique(y + k * WORD, WORD, y / WORD + k, y % WORD);
  }

  /** Multiplying what is left of a number leaves what is left of the product. */
  lemma Int32Mul(x: int, n: int)
    ensures Int32(Int32(x) * n) == Int32(x * n)
  {
    var k := (x + INT_LIMIT) / WORD;
    assert Int32(x) == x - k * WORD;
    assert Int32(x) * n == x * n + (-(k * n)) * WORD;
    Int32Shift(x * n, -(k * n));
  }

  /** mount_fs: f_nindir[l] is what an int holds of NINDIR^(l+1). */
  method IndirectSpans(sh: Shape) returns (nindir: seq<int>)
    ensures |nindir| == sh.levels && forall l :: 0 <= l < sh.levels ==> nindir[l] == Int32(Pow(sh.entries, l + 1))
    ensures forall l :: 0 <= l < sh.levels ==>
              (nindir[l] == Pow(sh.entries, l + 1) <==> Pow(sh.entries, l + 1) < INT_LIMIT)
  {
    nindir := [];
    var mult := 1;
    for level := 0 to sh.levels
      invariant |nindir| == level && mult == Int32(Pow(sh.entries, level))
      invariant forall l :: 0 <= l < level ==> nindir[l] == Int32(Pow(sh.entries, l + 1))
    {
      Int32Mul(Pow(sh.entries, level), sh.entries);
      mult := Int32(mult * sh.entries);
      nindir := nindir + [mult];
    }
  }

  /** With the largest blocks, of 8192 bytes, nothing is left of the third span. */
  lemma ThirdSpanWraps()
    ensures Pow(2048, 3) == 0x2_0000_0000 && Int32(Pow(2048, 3)) == 0
  {
    assert Pow(2048, 0) == 1 && Pow(2048, 1) == 2048 && Pow(2048, 2) == 0x40_0000;
  }

  /** A file block of a 32-bit offset, blocks being of four bytes an entry. */
  predicate InReach(sh: Shape, fb: nat) { sh.entries < 0x4000_0000 && fb * sh.entries < 0x4000_0000 }

  lemma OffsetInReach(sh: Shape, fb: nat, offset: nat)
    requires sh.entries < 0x4000_0000 && fb * (4 * sh.entries) <= offset < WORD
    ensures InReach(sh, fb)
  {
    assert fb * (4 * sh.entries) == 4 * (fb * sh.entries);
  }

  /** A level that is reached for such a block has a span that an int holds. */
  lemma ReachedSpan(sh: Shape, fb: nat, l: nat)
    requires InReach(sh, fb) && Before(sh.entries, l) <= fb
    ensures Int32(Pow(sh.entries, l + 1)) == Pow(sh.entries, l + 1)
  {
    if l > 0 {
      MulMono(sh.entries, Pow(sh.entries, l), fb);
      assert sh.entries * fb == fb * sh.entries;
    } else {
      assert Pow(sh.entries, 0) == 1;
    }
  }

  /** f_blkno and f_blk: one cached index block per level. */
  datatype Cache = Cache(blkno: seq<Option<nat>>, blk: seq<seq<nat>>)

  ghost predicate CacheOk(sh: Shape, index: nat -> seq<nat>, c: Cache) {
    |c.blkno| == |c.blk| == sh.levels
    && forall l :: 0 <= l < sh.levels && c.blkno[l].Some? ==> c.blk[l] == index(c.blkno[l].value)
  }

  /** struct file.  While a thread reads an index block with the lock dropped, others may change the cache;
      `meanwhile` is what they make of it, at each level where that happens, and may be anything true. */
  class File {
    const sh: Shape
    const inode: Inode
    const index: nat -> seq<nat>      // what device_read returns for an index block
    const nindir: seq<int>
    var cache: Cache

    ghost predicate Valid()
      reads this
    {
      && Mapped(sh, inode, index) && CacheOk(sh, index, cache)
      && |nindir| == sh.levels && forall l :: 0 <= l < sh.levels ==> nindir[l] == Int32(Pow(sh.entries, l + 1))
    }

    /** A newly opened file: nothing cached. */
    constructor (sh: Shape, inode: Inode, index: nat -> seq<nat>)
      requires Mapped(sh, inode, index)
      ensures Valid() && this.sh == sh && this.inode == inode && this.index == index
    {
      this.sh, this.inode, this.index := sh, inode, index;
      var spans := IndirectSpans(sh);
      nindir := spans;
      cache := Cache(seq(sh.levels, _ => None), seq(sh.levels, _ => []));
    }

    ghost predicate Truthful(meanwhile: nat -> Cache) { forall l: nat :: CacheOk(sh, index, meanwhile(l)) }

    /** The index block `block` at a level: from the cache, or read with the lock dropped and then cached. */
    method IndexBlock(level: nat, block: nat, meanwhile: nat -> Cache) returns (data: seq<nat>)
      requires Valid() && level < sh.levels && Truthful(meanwhile)
      modifies this
      ensures Valid() && data == index(block)
    {
      if cache.blkno[level] == Some(block) {
        data := cache.blk[level];
      } else {
        cache := meanwhile(level);
        data := index(block);
        cache := Cache(cache.blkno[level := Some(block)], cache.blk[level := data]);
      }
    }

    /** The spans up to a level are what they should be. */
    predicate Exact(level: nat) {
      level < |nindir| && forall l :: 0 <= l <= level ==> nindir[l] == Pow(sh.entries, l + 1)
    }

    lemma ReachedExact(fb: nat, level: nat)
      requires Valid() && InReach(sh, fb) && level < sh.levels && Before(sh.entries, level) <= fb
      ensures Exact(level)
    {
      forall l | 0 <= l <= level ensures nindir[l] == Pow(sh.entries, l + 1) {
        BeforeMonotone(sh.entries, l, level);
        ReachedSpan(sh, fb, l);
      }
    }

    /** The loop over the levels. */
    method FindSpan(fb: nat) returns (level: nat, n: nat)
      requires Valid() && InReach(sh, fb) && fb >= sh.direct
      ensures level <= sh.levels && FindLevel(sh, fb - sh.direct, 0) == FindLevel(sh, n, level)
      ensures level < sh.levels ==> n < Pow(sh.entries, level + 1) && Exact(level)
    {
      level, n := 0, fb - sh.direct;
      if 0 < sh.levels { ReachedExact(fb, 0); }
      while level < sh.levels && n >= nindir[level]
        invariant level <= sh.levels && FindLevel(sh, fb - sh.direct, 0) == FindLevel(sh, n, level)
        invariant Before(sh.entries, level) + n == fb - sh.direct && (level < sh.levels ==> Exact(level))
      {
        n := n - nindir[level];
        level := level + 1;
        if level < sh.levels { ReachedExact(fb, level); }
      }
    }

    /** block_map: whatever the cache holds and whatever other threads do to it while the lock is dropped,
        the answer is that of the uncached walk. */
    method BlockMap(fb: nat, meanwhile: nat -> Cache) returns (r: Option<nat>)
      requires Valid() && Truthful(meanwhile) && InReach(sh, fb)
      modifies this
      ensures Valid() && r == Lookup(sh, inode, index, fb)
    {
      if fb < sh.direct {
        return Some(inode.db[fb]);
      }
      var level, n := FindSpan(fb);
      UniquePath(sh, fb, Path(0, []));
      if level == sh.levels {
        return None;
      }
      ghost var p := Decompose(sh, fb).value;
      UniquePath(sh, fb, p);
      var block := Descend(level, n, inode.ib[level], meanwhile);
      r := Some(block);
    }

    /** One round of the loop: the entry of `block` for number `n`, and the number within it. */
    method OneLevel(level: nat, n: nat, block: nat, meanwhile: nat -> Cache) returns (n': nat, block': nat)
      requires Valid() && Truthful(meanwhile) && 0 < level <= sh.levels && n < Pow(sh.entries, level) && block != 0
      requires Exact(level - 1)
      modifies this
      ensures Valid() && n' < Pow(sh.entries, level - 1)
              && Walk(sh, index, block, n, level) == Walk(sh, index, block', n', level - 1)
    {
      var data := IndexBlock(level - 1, block, meanwhile);
      StepDown(sh, index, block, n, level);
      if level > 1 {
        block', n' := data[n / nindir[level - 2]], n % nindir[level - 2];
      } else {
        block', n' := data[n], 0;
      }
    }

    /** The loop from a level down to level 0. */
    method Descend(top: nat, number: nat, start: nat, meanwhile: nat -> Cache) returns (block: nat)
      requires Valid() && Truthful(meanwhile) && top < sh.levels && number < Pow(sh.entries, top + 1) && Exact(top)
      modifies this
      ensures Valid() && block == Walk(sh, index, start, number, top + 1)
    {
      block := start;
      var n, level := number, top + 1;
      while level > 0 && block != 0
        invariant Valid() && 0 <= level <= top + 1 && 0 <= n < Pow(sh.entries, level)
        invariant Walk(sh, index, start, number, top + 1) == Walk(sh, index, block, n, level)
      {
        n, block := OneLevel(level, n, block, meanwhile);
        level := level - 1;
      }
    }
  }

  /** Following the digits of number `n` through `level` levels of index blocks. */
  ghost function Walk(sh: Shape, index: nat -> seq<nat>, block: nat, n: nat, level: nat): nat
    requires IndexOk(sh, index) && n < Pow(sh.entries, level)
  {
    DigitsOfNumber(sh.entries, n, level);
    Follow(sh, index, block, Digits(sh.entries, n, level))
  }

  /** One level of the walk. */
  lemma StepDown(sh: Shape, index: nat -> seq<nat>, block: nat, n: nat, level: nat)
    requires IndexOk(sh, index) && level > 0 && n < Pow(sh.entries, level) && block != 0
    ensures var p := Pow(sh.entries, level - 1);
            && p > 0 && n / p < sh.entries && n % p < p
            && Walk(sh, index, block, n, level) == Walk(sh, index, index(block)[n / p], n % p, level - 1)
            && (level == 1 ==> n / p == n && n % p == 0)
  {
    var p := Pow(sh.entries, level - 1);
    PowPositive(sh.entries, level - 1);
    PowNext(sh.entries, level, p);
    QuotientBelow(n, sh.entries, p);
    DigitsOfNumber(sh.entries, n, level);
    DigitsOfNumber(sh.entries, n % p, level - 1);
    DigitsCons(sh.entries, n, level, p);
    assert Digits(sh.entries, n, level)[1..] == Digits(sh.entries, n % p, level - 1);
  }
}
