/** The default pager's page transfers (default_read and default_write in bootstrap/default_pager.c)
    through a file's disk blocks (page_read_file_direct and page_write_file_direct in
    bootstrap/ext2_file_io.c).  Offsets and sizes are counted in sectors of DEV_BSIZE bytes, of which
    the program requires them to be multiples. */
module FileDirect {

  import opened Arithmetic
  import opened BitArithmetic
  import opened Options

  type Sector = seq<bv8>

  /** struct file_direct: `per` sectors in a block (fd_bsize), and the sector where each block of the
      partition starts; nothing for a block that the file does not have. */
  datatype Direct = Direct(per: nat, base: seq<Option<nat>>)

  /** Blocks are on the disk and do not overlap. */
  predicate Laid(fd: Direct, disk: nat) {
    && fd.per > 0
    && (forall i :: 0 <= i < |fd.base| && fd.base[i].Some? ==> fd.base[i].value + fd.per <= disk)
    && (forall i, j :: 0 <= i < |fd.base| && 0 <= j < |fd.base| && i != j && fd.base[i].Some? && fd.base[j].Some? ==>
          fd.base[i].value + fd.per <= fd.base[j].value || fd.base[j].value + fd.per <= fd.base[i].value)
  }

  /** Whether sector `x` of the partition exists, and where it is. */
  predicate Present(fd: Direct, x: nat)
    requires fd.per > 0
  {
    Div(x, fd.per) < |fd.base| && fd.base[Div(x, fd.per)].Some?
  }

  function Place(fd: Direct, x: nat): nat
    requires fd.per > 0 && Present(fd, x)
  {
    fd.base[Div(x, fd.per)].value + Mod(x, fd.per)
  }

  /** Different sectors of the partition are different sectors of the disk. */
  lemma PlacesDiffer(fd: Direct, disk: nat, x: nat, y: nat)
    requires Laid(fd, disk) && Present(fd, x) && Present(fd, y)
    ensures Place(fd, x) < disk && (Place(fd, x) == Place(fd, y) ==> x == y)
  {
    Recombine(x, fd.per);
    Recombine(y, fd.per);
  }

  // ---------------------------------------------------------------- how blocks are laid out

  /** fdir_fsbtodb for an ext2 file: block number times sectors per block, zero meaning no block. */
  function Ext2Base(blocks: seq<nat>, per: nat): (r: seq<Option<nat>>)
    ensures |r| == |blocks|
    ensures forall i :: 0 <= i < |blocks| ==> r[i] == if blocks[i] == 0 then None else Some(blocks[i] * per)
  {
    seq(|blocks|, i requires 0 <= i < |blocks| => if blocks[i] == 0 then None else Some(blocks[i] * per))
  }

  /** Distinct block numbers of a disk of `count` blocks give blocks that do not overlap. */
  lemma Ext2Laid(blocks: seq<nat>, per: nat, count: nat)
    requires per > 0 && forall i :: 0 <= i < |blocks| ==> blocks[i] < count
    requires forall i, j :: 0 <= i < j < |blocks| && blocks[i] != 0 ==> blocks[i] != blocks[j]
    ensures Laid(Direct(per, Ext2Base(blocks, per)), count * per)
  {
    forall a: nat, b: nat | a < b ensures a * per + per <= b * per {
      MulMono(per, a + 1, b);
      assert per * (a + 1) == a * per + per && per * b == b * per;
    }
  }

  /** fdir_blkoff and fdir_lblkno of a block size 2^a. */
  lemma OffsetMacros(offset: nat, a: nat)
    ensures And(offset, Pow2(a) - 1) == Mod(offset, Pow2(a)) && ShiftRight(offset, a) == Div(offset, Pow2(a))
  {
    MaskIsMod(offset, a);
    ShiftIsDiv(offset, a);
  }

  /** log2, which only works for powers of two: it finds the exponent. */
  method Log2(size: nat, ghost a: nat) returns (i: nat)
    requires size == Pow2(a)
    ensures i == a
  {
    i := 0;
    var n := size;
    while n % 2 == 0
      invariant i <= a && n == Pow2(a - i)
      decreases n
    {
      i, n := i + 1, n / 2;
    }
  }

  // ---------------------------------------------------------------- one transfer

  /** What page_*_file_direct asks of the device: at most a block. */
  function Request(fd: Direct, left: nat): nat { if left > fd.per then fd.per else left }

  /** The transfer stays in one block. */
  predicate InOneBlock(fd: Direct, x: nat, n: nat)
    requires fd.per > 0
  {
    Mod(x, fd.per) + n <= fd.per
  }

  /** A request for what is left stays in one block exactly when it starts a block or the rest of the
      page fits the rest of the block. */
  lemma StaysExactly(fd: Direct, x: nat, left: nat)
    requires fd.per > 0 && left > 0
    ensures InOneBlock(fd, x, Request(fd, left)) <==> Mod(x, fd.per) == 0 || Mod(x, fd.per) + left <= fd.per
  {
  }

  /** Pages of two blocks on a device that transfers one sector of two: the next request, for two
      sectors, would run from the middle of a block into the next one. */
  lemma ShortTransferStrays()
    ensures var fd := Direct(2, [Some(10), Some(20)]); !InOneBlock(fd, 1, Request(fd, 3))
  {
  }

  lemma AlongBlock(fd: Direct, x: nat, k: nat)
    requires fd.per > 0 && Present(fd, x) && Mod(x, fd.per) + k < fd.per
    ensures Present(fd, x + k) && Place(fd, x + k) == Place(fd, x) + k
  {
    SameBlock(x, k, fd.per);
  }

  /** How the rest of a page lies: within one block, or in whole blocks with a device that makes whole
      transfers. */
  predicate Fits(fd: Direct, x: nat, left: nat, whole: bool)
    requires fd.per > 0
  {
    Mod(x, fd.per) + left <= fd.per || (whole && Mod(x, fd.per) == 0 && left % fd.per == 0)
  }

  /** A device that takes at least one sector of a request, and all of it if `whole`. */
  ghost predicate Serves(takes: (nat, nat) -> nat, whole: bool) {
    forall x: nat, n: nat :: n > 0 ==> 0 < takes(x, n) <= n && (whole ==> takes(x, n) == n)
  }

  lemma FitsNext(fd: Direct, x: nat, left: nat, whole: bool, n: nat)
    requires fd.per > 0 && left > 0 && Fits(fd, x, left, whole) && 0 < n <= Request(fd, left)
             && (whole ==> n == Request(fd, left))
    ensures InOneBlock(fd, x, n) && (left > n ==> Fits(fd, x + n, left - n, whole))
  {
    if Mod(x, fd.per) + left <= fd.per {
      if left > n { SameBlock(x, n, fd.per); }
    } else {
      WholeBlocks(fd.per, left);
      NextBlock(x, fd.per);
    }
  }

  lemma WholeBlocks(per: nat, left: nat)
    requires per > 0 && left > 0 && left % per == 0
    ensures left >= per && (left - per) % per == 0
  {
    var q := left / per;
    assert left == q * per && (q == 0 ==> q * per == 0);
    MulAtLeast(q, per);
    assert left - per == (q - 1) * per;
    DivUnique(left - per, per, q - 1, 0);
  }

  lemma NextBlock(x: nat, per: nat)
    requires per > 0 && Mod(x, per) == 0
    ensures Mod(x + per, per) == 0
  {
    Recombine(x, per);
    assert x + per == (x / per + 1) * per;
    DivUnique(x + per, per, x / per + 1, 0);
  }

  // ---------------------------------------------------------------- where pages lie

  /** Page `p` of blocks that hold `q` pages each. */
  lemma PageInBlock(p: nat, q: nat, page: nat)
    requires q > 0 && page > 0 && q * page > 0
    ensures Mod(p * page, q * page) + page <= q * page
  {
    Recombine(p, q);
    var i, j := p / q, p % q;
    Regroup(i, q, j, page);
    MulMono(page, j + 1, q);
    DivUnique(p * page, q * page, i, j * page);
  }

  lemma Regroup(i: nat, q: nat, j: nat, page: nat)
    ensures (i * q + j) * page == i * (q * page) + j * page
    ensures page * (j + 1) == j * page + page && page * q == q * page
  {
    assert (i * q + j) * page == (i * q) * page + j * page;
    assert (i * q) * page == i * (q * page);
  }

  /** Page `p` of pages of `q` blocks each. */
  lemma PageOfBlocks(p: nat, q: nat, block: nat)
    requires block > 0
    ensures Mod(p * (q * block), block) == 0 && (q * block) % block == 0
  {
    assert p * (q * block) == (p * q) * block;
    DivUnique(p * (q * block), block, p * q, 0);
    DivUnique(q * block, block, q, 0);
  }

  /** Page `p` of 2^b sectors in blocks of 2^a: within one block, or whole blocks. */
  lemma PageFits(fd: Direct, a: nat, b: nat, p: nat, whole: bool)
    requires fd.per == Pow2(a) && (b <= a || whole)
    ensures Fits(fd, p * Pow2(b), Pow2(b), whole)
  {
    if b <= a {
      var q := PowersDivide(b, a);
      PageInBlock(p, q, Pow2(b));
    } else {
      var q := PowersDivide(a, b);
      PageOfBlocks(p, q, Pow2(a));
    }
  }

  /** Every request that the transfers of a page make of the device stays in one block. */
  predicate AllStay(fd: Direct, x: nat, left: nat, takes: (nat, nat) -> nat)
    requires fd.per > 0
    decreases left
  {
    left == 0
    || (InOneBlock(fd, x, Request(fd, left))
        && var n := takes(x, Request(fd, left)); 0 < n <= Request(fd, left) ==> AllStay(fd, x + n, left - n, takes))
  }

  lemma {:induction false} AllStayWithin(fd: Direct, x: nat, left: nat, takes: (nat, nat) -> nat)
    requires fd.per > 0 && (fd.per == 1 || Mod(x, fd.per) + left <= fd.per)
    ensures AllStay(fd, x, left, takes)
    decreases left
  {
    if left > 0 {
      var n := takes(x, Request(fd, left));
      if 0 < n <= Request(fd, left) {
        if fd.per > 1 && left > n { SameBlock(x, n, fd.per); }
        if left > n { AllStayWithin(fd, x + n, left - n, takes); }
      }
    }
  }

  lemma {:induction false} PowersGrow(a: nat, b: nat)
    requires a < b
    ensures Pow2(b) >= 2 * Pow2(a)
  {
    if a + 1 < b { PowersGrow(a, b - 1); }
  }

  /** A device that takes one sector of each request. */
  function OneSector(x: nat, n: nat): nat { 1 }

  /** A page of two blocks or more, on a device that takes a sector at a time: the second request runs out of its
      block. */
  lemma SecondStrays(fd: Direct, left: nat)
    requires fd.per >= 2 && left >= 2 * fd.per
    ensures Serves(OneSector, false) && !AllStay(fd, 0, left, OneSector)
  {
    assert Mod(0, fd.per) == 0 && Mod(1, fd.per) == 1;
    assert !InOneBlock(fd, 1, Request(fd, left - 1));
  }

  ghost predicate PagesStay(fd: Direct, b: nat)
    requires fd.per > 0
  {
    forall p: nat, takes: (nat, nat) -> nat :: Serves(takes, false) ==> AllStay(fd, p * Pow2(b), Pow2(b), takes)
  }

  /** Whatever part of each request the device serves, every request for pages of 2^b sectors stays in one block of
      2^a if and only if a page fits a block or a block is one sector. */
  lemma PagesStayExactly(fd: Direct, a: nat, b: nat)
    requires fd.per == Pow2(a)
    ensures PagesStay(fd, b) <==> b <= a || a == 0
  {
    if b <= a || a == 0 {
      forall p: nat, takes: (nat, nat) -> nat | Serves(takes, false)
        ensures AllStay(fd, p * Pow2(b), Pow2(b), takes)
      {
        if b <= a {
          var q := PowersDivide(b, a);
          PageInBlock(p, q, Pow2(b));
        }
        AllStayWithin(fd, p * Pow2(b), Pow2(b), takes);
      }
    } else {
      PowersGrow(a, b);
      SecondStrays(fd, Pow2(b));
      assert 0 * Pow2(b) == 0;
      assert !AllStay(fd, 0 * Pow2(b), Pow2(b), OneSector);
    }
  }

  // ---------------------------------------------------------------- whole pages

  /** Disk sector `y` holds one of the sectors of the partition from `x` up to `end`. */
  ghost predicate Holds(fd: Direct, x: nat, end: nat, y: nat)
    requires fd.per > 0
  {
    exists w: nat :: x <= w < end && Present(fd, w) && Place(fd, w) == y
  }

  predicate AllPresent(fd: Direct, x: nat, end: nat)
    requires fd.per > 0
  {
    forall w: nat :: x <= w < end ==> Present(fd, w)
  }

  /** device_write of some sectors. */
  method PutSectors(disk: array<Sector>, at: nat, data: seq<Sector>)
    requires at + |data| <= disk.Length
    modifies disk
    ensures forall y :: 0 <= y < disk.Length ==> disk[y] == if at <= y < at + |data| then data[y - at] else old(disk[y])
  {
    for j := 0 to |data|
      invariant forall y :: 0 <= y < disk.Length ==> disk[y] == if at <= y < at + j then data[y - at] else old(disk[y])
    {
      disk[at + j] := data[j];
    }
  }

  /** Sectors `x` up to `end` read as the data that begin at `x`. */
  ghost predicate Reads(fd: Direct, disk: seq<Sector>, x: nat, end: nat, data: seq<Sector>)
    requires fd.per > 0 && x <= end <= x + |data|
  {
    forall w: nat :: x <= w < end ==> Present(fd, w) && Place(fd, w) < |disk| && disk[Place(fd, w)] == data[w - x]
  }

  /** No disk sector has changed but those that hold sectors `x` up to `end`. */
  ghost predicate OnlyChanged(fd: Direct, before: seq<Sector>, now: seq<Sector>, x: nat, end: nat)
    requires fd.per > 0 && |now| == |before|
  {
    forall y: nat :: y < |now| && !Holds(fd, x, end, y) ==> now[y] == before[y]
  }

  /** `now` is `mid` with `n` sectors of data put at the place of sector `w`. */
  ghost predicate Put(fd: Direct, mid: seq<Sector>, now: seq<Sector>, w: nat, n: nat, data: seq<Sector>, d: nat)
    requires fd.per > 0 && Present(fd, w) && |now| == |mid| && d + n <= |data|
  {
    forall y: nat :: y < |now| ==>
      now[y] == if Place(fd, w) <= y < Place(fd, w) + n then data[d + (y - Place(fd, w))] else mid[y]
  }

  lemma ReadsNext(fd: Direct, mid: seq<Sector>, now: seq<Sector>, x: nat, data: seq<Sector>, d: nat, n: nat)
    requires Laid(fd, |mid|) && |now| == |mid| && d + n <= |data| && Reads(fd, mid, x, x + d, data)
    requires Present(fd, x + d) && InOneBlock(fd, x + d, n) && Put(fd, mid, now, x + d, n, data, d)
    ensures Reads(fd, now, x, x + d + n, data)
  {
    forall w: nat | x <= w < x + d + n
      ensures Present(fd, w) && Place(fd, w) < |now| && now[Place(fd, w)] == data[w - x] {
      if w < x + d {
        OutsideTransfer(fd, |mid|, x + d, n, w);
      } else {
        AlongBlock(fd, x + d, w - (x + d));
        PlacesDiffer(fd, |mid|, w, w);
      }
    }
  }

  lemma ChangedNext(fd: Direct, before: seq<Sector>, mid: seq<Sector>, now: seq<Sector>, x: nat, data: seq<Sector>,
                    d: nat, n: nat)
    requires Laid(fd, |mid|) && |now| == |mid| == |before| && d + n <= |data| && OnlyChanged(fd, before, mid, x, x + d)
    requires Present(fd, x + d) && InOneBlock(fd, x + d, n) && Put(fd, mid, now, x + d, n, data, d)
    ensures OnlyChanged(fd, before, now, x, x + d + n)
  {
    var at := Place(fd, x + d);
    forall y: nat | y < |now| && !Holds(fd, x, x + d + n, y) ensures now[y] == before[y] {
      if at <= y < at + n {
        AlongBlock(fd, x + d, y - at);
      }
      HoldsMore(fd, x, x + d, x + d + n, y);
    }
  }

  lemma HoldsMore(fd: Direct, x: nat, end: nat, further: nat, y: nat)
    requires fd.per > 0 && end <= further
    ensures Holds(fd, x, end, y) ==> Holds(fd, x, further, y)
  {
  }

  lemma OutsideTransfer(fd: Direct, disk: nat, x: nat, n: nat, w: nat)
    requires Laid(fd, disk) && Present(fd, x) && InOneBlock(fd, x, n) && Present(fd, w) && (w < x || x + n <= w)
    ensures Place(fd, w) < disk && !(Place(fd, x) <= Place(fd, w) < Place(fd, x) + n)
  {
    PlacesDiffer(fd, disk, w, w);
    if Place(fd, x) <= Place(fd, w) < Place(fd, x) + n {
      AlongBlock(fd, x, Place(fd, w) - Place(fd, x));
      PlacesDiffer(fd, disk, w, x + (Place(fd, w) - Place(fd, x)));
    }
  }

  lemma TransferInside(fd: Direct, disk: nat, x: nat, n: nat)
    requires Laid(fd, disk) && Present(fd, x) && InOneBlock(fd, x, n)
    ensures Place(fd, x) + n <= disk
  {
  }

  /** One transfer of WritePage: the next sectors go to their places. */
  method WriteSome(fd: Direct, disk: array<Sector>, x: nat, data: seq<Sector>, d: nat, n: nat,
                   ghost before: seq<Sector>)
    requires Laid(fd, disk.Length) && d + n <= |data| && disk.Length == |before| && Present(fd, x + d)
             && InOneBlock(fd, x + d, n)
    requires Reads(fd, disk[..], x, x + d, data) && OnlyChanged(fd, before, disk[..], x, x + d)
    modifies disk
    ensures Reads(fd, disk[..], x, x + d + n, data) && OnlyChanged(fd, before, disk[..], x, x + d + n)
  {
    ghost var mid := disk[..];
    TransferInside(fd, disk.Length, x + d, n);
    PutSectors(disk, Place(fd, x + d), data[d..d + n]);
    assert Put(fd, mid, disk[..], x + d, n, data, d);
    ReadsNext(fd, mid, disk[..], x, data, d, n);
    ChangedNext(fd, before, mid, disk[..], x, data, d, n);
  }

  /** default_write after the block is found: the page is written in as many transfers as it takes.  If all
      its sectors exist it then reads as the data; nothing outside it changes. */
  method WritePage(fd: Direct, disk: array<Sector>, x: nat, data: seq<Sector>, takes: (nat, nat) -> nat,
                   ghost whole: bool)
    returns (ok: bool)
    requires Laid(fd, disk.Length) && Serves(takes, whole) && (data != [] ==> Fits(fd, x, |data|, whole))
    modifies disk
    ensures ok <==> AllPresent(fd, x, x + |data|)
    ensures ok ==> Reads(fd, disk[..], x, x + |data|, data)
    ensures OnlyChanged(fd, old(disk[..]), disk[..], x, x + |data|)
  {
    ghost var before := disk[..];
    var d := 0;
    while d < |data|
      invariant 0 <= d <= |data| && Reads(fd, disk[..], x, x + d, data) && OnlyChanged(fd, before, disk[..], x, x + d)
      invariant d < |data| ==> Fits(fd, x + d, |data| - d, whole)
    {
      if !Present(fd, x + d) {
        ChangedLess(fd, before, disk[..], x, x + d, x + |data|);
        return false;
      }
      var n := takes(x + d, Request(fd, |data| - d));
      FitsNext(fd, x + d, |data| - d, whole, n);
      WriteSome(fd, disk, x, data, d, n, before);
      d := d + n;
    }
    ok := true;
  }

  lemma ChangedLess(fd: Direct, before: seq<Sector>, now: seq<Sector>, x: nat, end: nat, further: nat)
    requires fd.per > 0 && |now| == |before| && end <= further && OnlyChanged(fd, before, now, x, end)
    ensures OnlyChanged(fd, before, now, x, further)
  {
    forall y: nat | y < |now| && !Holds(fd, x, further, y) ensures now[y] == before[y] {
      HoldsMore(fd, x, end, further, y);
    }
  }

  /** The sectors of one transfer of ReadPage. */
  lemma ReadSome(fd: Direct, disk: seq<Sector>, x: nat, out: seq<Sector>, n: nat)
    requires Laid(fd, |disk|) && Reads(fd, disk, x, x + |out|, out) && Present(fd, x + |out|)
             && InOneBlock(fd, x + |out|, n)
    ensures Place(fd, x + |out|) + n <= |disk|
    ensures var at := Place(fd, x + |out|); Reads(fd, disk, x, x + |out| + n, out + disk[at..at + n])
  {
    TransferInside(fd, |disk|, x + |out|, n);
    var d, at := |out|, Place(fd, x + |out|);
    forall w: nat | x + d <= w < x + d + n ensures Present(fd, w) && Place(fd, w) == at + (w - x - d) {
      AlongBlock(fd, x + d, w - (x + d));
    }
  }

  /** default_read: the sectors of the page in order, in as many transfers as it takes. */
  method ReadPage(fd: Direct, disk: array<Sector>, x: nat, count: nat, takes: (nat, nat) -> nat, ghost whole: bool)
    returns (r: Option<seq<Sector>>)
    requires Laid(fd, disk.Length) && Serves(takes, whole) && (count > 0 ==> Fits(fd, x, count, whole))
    ensures r.Some? <==> AllPresent(fd, x, x + count)
    ensures r.Some? ==> |r.value| == count && Reads(fd, disk[..], x, x + count, r.value)
  {
    var out: seq<Sector> := [];
    while |out| < count
      invariant |out| <= count && (|out| < count ==> Fits(fd, x + |out|, count - |out|, whole))
      invariant Reads(fd, disk[..], x, x + |out|, out)
      decreases count - |out|
    {
      if !Present(fd, x + |out|) {
        return None;
      }
      var n := takes(x + |out|, Request(fd, count - |out|));
      FitsNext(fd, x + |out|, count - |out|, whole, n);
      ReadSome(fd, disk[..], x, out, n);
      var at := Place(fd, x + |out|);
      out := out + disk[at..at + n];
    }
    r := Some(out);
  }

  /** What a page reads as is determined: reading back a written page gives the data written. */
  lemma ReadBack(fd: Direct, disk: seq<Sector>, x: nat, a: seq<Sector>, b: seq<Sector>)
    requires fd.per > 0 && |a| == |b| && Reads(fd, disk, x, x + |a|, a) && Reads(fd, disk, x, x + |b|, b)
    ensures a == b
  {
    forall k | 0 <= k < |a| ensures a[k] == b[k] {
      var w := x + k;
      assert Present(fd, w) && disk[Place(fd, w)] == a[w - x] == b[w - x];
    }
  }

  /** Writing one page leaves what every other page of the partition reads as. */
  lemma OtherPagesSame(fd: Direct, before: seq<Sector>, now: seq<Sector>, x: nat, end: nat, y: nat, data: seq<Sector>)
    requires Laid(fd, |before|) && |now| == |before| && OnlyChanged(fd, before, now, x, end)
    requires Reads(fd, before, y, y + |data|, data) && (end <= y || y + |data| <= x)
    ensures Reads(fd, now, y, y + |data|, data)
  {
    forall w: nat | y <= w < y + |data| ensures now[Place(fd, w)] == data[w - y] {
      if Holds(fd, x, end, Place(fd, w)) {
        var v: nat :| x <= v < end && Present(fd, v) && Place(fd, v) == Place(fd, w);
        PlacesDiffer(fd, |before|, v, w);
      }
    }
  }

  /** A page that has been written reads as the data, however the transfers are cut and whatever is written to
      another page in between; a page with sectors missing can be neither written nor read. */
  method WriteThenRead(fd: Direct, disk: array<Sector>, x: nat, data: seq<Sector>, y: nat, other: seq<Sector>,
                       takes: (nat, nat) -> nat, ghost whole: bool) returns (r: Option<seq<Sector>>)
    requires Laid(fd, disk.Length) && Serves(takes, whole) && data != [] && other != []
    requires Fits(fd, x, |data|, whole) && Fits(fd, y, |other|, whole) && (x + |data| <= y || y + |other| <= x)
    modifies disk
    ensures r == if AllPresent(fd, x, x + |data|) then Some(data) else None
  {
    var ok := WritePage(fd, disk, x, data, takes, whole);
    ghost var mid := disk[..];
    var also := WritePage(fd, disk, y, other, takes, whole);
    r := ReadPage(fd, disk, x, |data|, takes, whole);
    if ok {
      OtherPagesSame(fd, mid, disk[..], y, y + |other|, x, data);
      ReadBack(fd, disk[..], x, r.value, data);
    }
  }
}
