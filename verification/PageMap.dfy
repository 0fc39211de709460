/** The page-to-block map of a paging object (bootstrap/default_pager.c, struct dpager): one array of
    entries for at most 64 pages, beyond that an array of pointers to second-level arrays of 64. */
module PageMap {

  import opened Options

  datatype Block = Block(index: nat, offset: nat)

  type Entry = Option<Block>

  /** PAGEMAP_ENTRIES, and P_INDEX_INVALID. */
  const GROUP := 64
  const NO_PARTITION := 255

  // ---------------------------------------------------------------- union dp_map

  const OFFSETS := 0x100_0000
  const NO_BLOCK := 0xffff_ffff

  /** An entry as the 32-bit word of union dp_map: offset in the low 24 bits, index in the high 8. */
  function Pack(e: Entry): nat { if e.None? then NO_BLOCK else e.value.offset + e.value.index * OFFSETS }

  function Unpack(w: nat): Entry { if w == NO_BLOCK then None else Some(Block(w / OFFSETS, w % OFFSETS)) }

  /** The word says which entry it holds exactly when the block's offset fits 24 bits and its index is
      a live partition's. */
  lemma PackRoundTrip(e: Entry)
    requires e.Some? ==> e.value.index < NO_PARTITION && e.value.offset < OFFSETS
    ensures Unpack(Pack(e)) == e && Pack(e) <= NO_BLOCK
  {
  }

  // ---------------------------------------------------------------- sizes

  predicate PowerOfTwo(n: nat) { n == 1 || (n > 1 && n % 2 == 0 && PowerOfTwo(n / 2)) }

  /** The sizes a map can have: a power of two up to 64, or a multiple of 64. */
  predicate GoodSize(n: nat) { (n <= GROUP && PowerOfTwo(n)) || (n > 0 && n % GROUP == 0) }

  /** INDIRECT_PAGEMAP_ENTRIES and ROUNDUP_TO_PAGEMAP. */
  function Groups(n: nat): nat
    requires n > 0
  {
    (n - 1) / GROUP + 1
  }

  lemma GroupOf(f: nat, n: nat)
    requires n > GROUP && GoodSize(n)
    ensures f < n <==> f / GROUP < Groups(n)
  {
  }

  function RoundUp(n: nat): nat { (n + GROUP - 1) / GROUP * GROUP }

  /** Doubling `i` until it covers `n`. */
  function Doubled(i: nat, n: nat): nat
    requires i > 0
    decreases n - i
  {
    if i < n then Doubled(2 * i, n) else i
  }

  lemma {:induction false} DoubledGood(i: nat, n: nat)
    requires GoodSize(i)
    ensures GoodSize(Doubled(i, n)) && Doubled(i, n) >= n && Doubled(i, n) >= i
    ensures i < n ==> Doubled(i, n) < 2 * n
    decreases n - i
  {
    if i < n {
      assert PowerOfTwo(2) && GoodSize(2 * i) by { if i <= GROUP && PowerOfTwo(i) { DoublePower(i); } }
      DoubledGood(2 * i, n);
    }
  }

  lemma DoublePower(i: nat)
    requires PowerOfTwo(i)
    ensures PowerOfTwo(2 * i) && (i <= GROUP < 2 * i ==> 2 * i % GROUP == 0)
  {
    assert 2 * i / 2 == i;
    if i <= GROUP < 2 * i { PowersToGroup(i); }
  }

  /** The powers of two from 33 to 64. */
  lemma PowersToGroup(i: nat)
    requires PowerOfTwo(i) && GROUP < 2 * i && i <= GROUP
    ensures i == GROUP
  {
    assert PowerOfTwo(i / 2) && PowerOfTwo(i / 4);
    assert PowerOfTwo(i / 8) && PowerOfTwo(i / 16);
    assert PowerOfTwo(i / 32);
  }

  /** The size pager_extend gives a map, with `limit` the number of pages in max_doubled_size. */
  function NewSize(old_: nat, want: nat, limit: nat): nat
    requires old_ > 0
  {
    if want <= limit then Doubled(old_, want) else RoundUp(want)
  }

  /** The guard of pager_extend's two branches: what is asked for is within the doubling limit, or rounds up to at
      least the present size. */
  predicate Grows(size: nat, want: nat, limit: nat) { want <= limit || RoundUp(want) >= size }

  /** pager_extend never makes a map smaller if and only if what is asked for is within the doubling
      limit or, rounded up, at least the present size. */
  lemma NeverShrinks(size: nat, want: nat, limit: nat)
    requires GoodSize(size)
    ensures NewSize(size, want, limit) >= size <==> Grows(size, want, limit)
    ensures NewSize(size, want, limit) >= want
    ensures want > size ==> NewSize(size, want, limit) >= want && GoodSize(NewSize(size, want, limit))
  {
    DoubledGood(size, want);
  }

  // ---------------------------------------------------------------- the map in memory

  /** `pages` followed by absent entries up to length `n`. */
  function Grown(pages: seq<Entry>, n: nat): (r: seq<Entry>)
    requires |pages| <= n
    ensures |r| == n && r[..|pages|] == pages && forall i :: |pages| <= i < n ==> r[i] == None
  {
    pages + seq(n - |pages|, i => None)
  }

  /** The copying loops of pager_extend over one array of entries: the old entries, then none. */
  method CopyGrown(a: array<Entry>, n: nat) returns (b: array<Entry>)
    requires a.Length <= n
    ensures fresh(b) && b[..] == Grown(a[..], n)
  {
    b := new Entry[n];
    for i := 0 to a.Length
      invariant b[..i] == a[..i]
    {
      b[i] := a[i];
    }
    for i := a.Length to n
      invariant b[..a.Length] == a[..]
      invariant forall j :: a.Length <= j < i ==> b[j] == None
    {
      b[i] := None;
    }
  }

  /** The loops over an array of pointers to second-level arrays: the old pointers, then null. */
  method CopyPointers(a: array<array?<Entry>>, n: nat) returns (b: array<array?<Entry>>)
    requires a.Length <= n
    ensures fresh(b) && b.Length == n
    ensures forall i :: 0 <= i < n ==> b[i] == if i < a.Length then a[i] else null
  {
    b := new array?<Entry>[n];
    for i := 0 to a.Length
      invariant forall j :: 0 <= j < i ==> b[j] == a[j]
    {
      b[i] := a[i];
    }
    for i := a.Length to n
      invariant forall j :: 0 <= j < i ==> b[j] == if j < a.Length then a[j] else null
    {
      b[i] := null;
    }
  }

  /** Growing in several steps is growing once. */
  lemma GrownTwice(pages: seq<Entry>, m: nat, n: nat)
    requires |pages| <= m <= n
    ensures Grown(Grown(pages, m), n) == Grown(pages, n)
  {
  }

  lemma GrownWithin(pages: seq<Entry>, m: nat, n: nat)
    requires |pages| <= m <= n
    ensures forall i :: 0 <= i < m ==> Grown(pages, n)[i] == Grown(pages, m)[i]
    ensures forall i :: m <= i < n ==> Grown(pages, n)[i] == None
  {
  }

  /** Where the pages of a grown map come from once its first 64 are in `second`. */
  lemma FirstGroup(pages: seq<Entry>, second: seq<Entry>, n: nat)
    requires |pages| <= GROUP <= n && second == Grown(pages, GROUP)
    ensures forall f :: 0 <= f < n ==> Grown(pages, n)[f] == if f / GROUP == 0 then second[f % GROUP] else None
  {
    GrownWithin(pages, GROUP, n);
  }

  /** A first-level array with one second-level array. */
  method FirstPointer(second: array<Entry>, n: nat) returns (a: array<array?<Entry>>)
    requires n > 0
    ensures fresh(a) && a.Length == n && a[0] == second && forall i :: 0 < i < n ==> a[i] == null
  {
    a := new array?<Entry>[n];
    a[0] := second;
    for i := 1 to n
      invariant a[0] == second && forall j :: 0 < j < i ==> a[j] == null
    {
      a[i] := null;
    }
  }

  // ---------------------------------------------------------------- writers of the same object

  /** What a writer does in one critical section: extend the map, or, if the page is covered, store its entry. */
  datatype Op = Ext(want: nat) | Put(f: nat, e: Entry)

  /** The pages after some critical sections, or none if pager_extend has overrun its array. */
  function Play(pages: seq<Entry>, ops: seq<Op>, limit: nat): Option<seq<Entry>>
    requires GoodSize(|pages|)
    decreases |ops|
  {
    if ops == [] then Some(pages)
    else
      match ops[0]
      case Ext(want) =>
        if !Grows(|pages|, want, limit) then None
        else
          Extended(pages, want, limit);
          Play(Grown(pages, NewSize(|pages|, want, limit)), ops[1..], limit)
      case Put(f, e) => Play(if f < |pages| then pages[f := e] else pages, ops[1..], limit)
  }

  lemma Extended(pages: seq<Entry>, want: nat, limit: nat)
    requires GoodSize(|pages|) && Grows(|pages|, want, limit)
    ensures var n := NewSize(|pages|, want, limit); n >= |pages| && n >= want && GoodSize(n)
  {
    NeverShrinks(|pages|, want, limit);
    DoubledGood(|pages|, want);
  }

  lemma {:induction false} PlayGrows(pages: seq<Entry>, first: seq<Op>, rest: seq<Op>, limit: nat)
    requires GoodSize(|pages|)
    ensures var mid := Play(pages, first, limit);
            && (mid.Some? ==> GoodSize(|mid.value|) && |mid.value| >= |pages|)
            && Play(pages, first + rest, limit) == (if mid.None? then None else Play(mid.value, rest, limit))
    decreases |first|
  {
    if first == [] {
      assert first + rest == rest;
    } else {
      assert (first + rest)[0] == first[0] && (first + rest)[1..] == first[1..] + rest;
      match first[0]
      case Ext(want) =>
        if Grows(|pages|, want, limit) {
          Extended(pages, want, limit);
          PlayGrows(Grown(pages, NewSize(|pages|, want, limit)), first[1..], rest, limit);
        }
      case Put(f, e) => PlayGrows(if f < |pages| then pages[f := e] else pages, first[1..], rest, limit);
    }
  }

  /** Once somebody has extended the map for a page it covers the page. */
  lemma PlayCovers(pages: seq<Entry>, before: seq<Op>, want: nat, after: seq<Op>, limit: nat)
    requires GoodSize(|pages|)
    ensures var r := Play(pages, before + [Ext(want)] + after, limit); r.Some? ==> |r.value| >= want
  {
    PlayGrows(pages, before + [Ext(want)], after, limit);
    PlayGrows(pages, before, [Ext(want)], limit);
    var mid := Play(pages, before, limit);
    var next := Play(pages, before + [Ext(want)], limit);
    if next.Some? {
      assert [Ext(want)][1..] == [];
      Extended(mid.value, want, limit);
      PlayGrows(next.value, after, [], limit);
    }
  }

  predicate Stores(ops: seq<Op>, f: nat) { exists i :: 0 <= i < |ops| && ops[i].Put? && ops[i].f == f }

  /** As long as no extension overruns, the pages nobody stores keep their entries, whatever the writers do. */
  lemma {:induction false} PlayKeeps(pages: seq<Entry>, ops: seq<Op>, limit: nat, f: nat)
    requires GoodSize(|pages|) && Play(pages, ops, limit).Some? && f < |pages| && !Stores(ops, f)
    ensures f < |Play(pages, ops, limit).value| && Play(pages, ops, limit).value[f] == pages[f]
    decreases |ops|
  {
    if ops != [] {
      assert !Stores(ops[1..], f);
      assert ops[0].Put? ==> ops[0].f != f;
      match ops[0]
      case Ext(want) =>
        Extended(pages, want, limit);
        var n := NewSize(|pages|, want, limit);
        assert Grown(pages, n)[..|pages|][f] == pages[f];
        PlayKeeps(Grown(pages, n), ops[1..], limit, f);
      case Put(g, e) => PlayKeeps(if g < |pages| then pages[g := e] else pages, ops[1..], limit, f);
    }
  }

  /** The pages that have a block. */
  function Present(pages: seq<Entry>): set<nat> { set f: nat | f < |pages| && pages[f].Some? }

  lemma PresentNext(pages: seq<Entry>, k: nat)
    requires k < |pages|
    ensures |Present(pages[..k + 1])| == |Present(pages[..k])| + if pages[k].Some? then 1 else 0
  {
    var was, now := Present(pages[..k]), Present(pages[..k + 1]);
    if pages[k].Some? { assert now == was + {k}; } else { assert now == was; }
  }

  lemma PresentNone(pages: seq<Entry>, lo: nat, hi: nat)
    requires lo <= hi <= |pages| && forall f :: lo <= f < hi ==> pages[f].None?
    ensures Present(pages[..hi]) == Present(pages[..lo])
  {
  }

  /** struct dpager. */
  class PageTable {
    var size: nat
    var cur: nat
    var direct: array?<Entry>
    var indirect: array?<array?<Entry>>
    ghost var pages: seq<Entry>
    ghost var Repr: set<object>

    /** What the two-level map holds for a page. */
    ghost function Lookup(f: nat): Entry
      requires indirect != null && f / GROUP < indirect.Length
      requires indirect[f / GROUP] != null ==> indirect[f / GROUP].Length == GROUP
      reads this, indirect, if indirect == null || f / GROUP >= indirect.Length then {} else {indirect[f / GROUP]}
    {
      if indirect[f / GROUP] == null then None else indirect[f / GROUP][f % GROUP]
    }

    ghost predicate DirectOk()
      reads this, Repr
    {
      direct != null && direct in Repr && direct.Length == size && direct[..] == pages
    }

    /** The second-level arrays exist for some groups of pages, and no two groups share one. */
    ghost predicate SecondsOk()
      reads this, Repr
    {
      && size > 0 && indirect != null && indirect in Repr && indirect.Length == Groups(size)
      && (forall g :: 0 <= g < indirect.Length && indirect[g] != null ==>
             indirect[g] in Repr && indirect[g].Length == GROUP)
      && (forall g, h :: 0 <= g < h < indirect.Length && indirect[g] != null ==> indirect[g] != indirect[h])
    }

    /** The map is the total map `pages` from page number to optional block. */
    ghost predicate Valid()
      reads this, Repr
    {
      && this !in Repr && GoodSize(size) && |pages| == size
      && (size <= GROUP ==> DirectOk())
      && (size > GROUP ==> SecondsOk() && forall f :: 0 <= f < size ==> pages[f] == Lookup(f))
    }

    /** pager_read_offset. */
    method ReadOffset(f: nat) returns (e: Entry)
      requires Valid() && f < size
      ensures e == pages[f]
    {
      if size > GROUP {
        var second := indirect[f / GROUP];
        if second == null { e := None; } else { e := second[f % GROUP]; }
      } else {
        e := direct[f];
      }
    }

    /** The size pager_alloc gives a map. */
    static method FirstSize(want: nat, limit: nat) returns (n: nat)
      ensures n == (if want <= limit then Doubled(1, want) else RoundUp(want)) && n >= want && GoodSize(n)
    {
      n := 1;
      if want <= limit {
        while n < want
          invariant n > 0 && Doubled(n, want) == Doubled(1, want)
          decreases want - n
        {
          n := 2 * n;
        }
      } else {
        n := RoundUp(want);
      }
      DoubledGood(1, want);
    }

    /** pager_alloc: `want` pages asked for; a power of two up to the doubling limit, a multiple of 64
        beyond it, and no page has a block. */
    constructor (want: nat, part: nat, limit: nat)
      ensures Valid() && fresh(Repr) && cur == part
      ensures pages == Grown([], size) && size >= want
      ensures size == if want <= limit then Doubled(1, want) else RoundUp(want)
    {
      var n := FirstSize(want, limit);
      size, cur, pages := n, part, Grown([], n);
      if n > GROUP {
        var seconds := new array?<Entry>[Groups(n)](_ => null);
        direct, indirect, Repr := null, seconds, {seconds};
      } else {
        var entries := new Entry[n](_ => None);
        direct, indirect, Repr := entries, null, {entries};
      }
    }

    /** pager_extend: the pages keep their entries and the new ones have none, whichever of the three ways the
        map grows.  If the new size is smaller than the old one, its loop runs past the end of the new array,
        and nothing is promised. */
    method Extend(want: nat, limit: nat) returns (overrun: bool)
      requires Valid()
      modifies this, Repr
      ensures overrun <==> !Grows(old(size), want, limit)
      ensures !overrun ==>
        && Valid() && fresh(Repr - old(Repr)) && cur == old(cur)
        && size == NewSize(old(size), want, limit) >= want && size >= old(size) && pages == Grown(old(pages), size)
    {
      var n := size;
      if want <= limit {
        while n < want
          invariant n >= size && Doubled(n, want) == Doubled(size, want)
          decreases want - n
        {
          n := 2 * n;
        }
      } else {
        n := RoundUp(want);
      }
      NeverShrinks(size, want, limit);
      DoubledGood(size, want);
      if n < size {
        return true;
      }
      assert n == NewSize(size, want, limit) && GoodSize(n);
      overrun := false;
      if size > GROUP {
        GrowIndirect(n);
      } else if n > GROUP {
        GoIndirect(n);
      } else {
        var grown := CopyGrown(direct, n);
        direct, size, pages, Repr := grown, n, Grown(pages, n), Repr + {grown};
      }
    }

    /** The map already has two levels. */
    method GrowIndirect(n: nat)
      requires Valid() && size > GROUP && n >= size && GoodSize(n)
      modifies this
      ensures Valid() && fresh(Repr - old(Repr)) && cur == old(cur) && size == n && pages == Grown(old(pages), n)
    {
      ghost var was, m := pages, size;
      var grown := CopyPointers(indirect, Groups(n));
      assert forall f :: 0 <= f < size ==> was[f] == Lookup(f);
      indirect, size, pages, Repr := grown, n, Grown(pages, n), Repr + {grown};
      forall f | 0 <= f < n ensures f / GROUP < Groups(n) && pages[f] == Lookup(f) {
        GroupOf(f, n);
        GroupOf(f, m);
        if f < m { assert pages[f] == was[f]; }
      }
    }

    /** From one level to two: the entries move into a full-sized second-level array. */
    method GoIndirect(n: nat)
      requires Valid() && size <= GROUP < n && GoodSize(n)
      modifies this
      ensures Valid() && fresh(Repr - old(Repr)) && cur == old(cur) && size == n && pages == Grown(old(pages), n)
    {
      var second := CopyGrown(direct, GROUP);
      FirstGroup(pages, second[..], n);
      var seconds := FirstPointer(second, Groups(n));
      direct, indirect, size, pages, Repr := null, seconds, n, Grown(pages, n), Repr + {second, seconds};
      forall f | 0 <= f < n ensures f / GROUP < Groups(n) && pages[f] == Lookup(f) {
        GroupOf(f, n);
      }
    }

    /** Whether there is an array to hold the entry of a page. */
    ghost predicate HasRoom(f: nat)
      reads this, Repr
    {
      f < size && (size > GROUP ==>
        indirect != null && indirect in Repr && f / GROUP < indirect.Length && indirect[f / GROUP] != null)
    }

    /** What other writers of the object do while its lock is free. */
    method Others(ops: seq<Op>, limit: nat) returns (overrun: bool)
      requires Valid()
      modifies this, Repr
      ensures overrun <==> Play(old(pages), ops, limit).None?
      ensures !overrun ==>
        Valid() && fresh(Repr - old(Repr)) && cur == old(cur) && Some(pages) == Play(old(pages), ops, limit)
    {
      for i := 0 to |ops|
        invariant Valid() && fresh(Repr - old(Repr)) && cur == old(cur)
        invariant Play(old(pages), ops, limit) == Play(pages, ops[i..], limit)
      {
        assert ops[i..][0] == ops[i] && ops[i..][1..] == ops[i + 1..];
        match ops[i]
        case Ext(want) =>
          overrun := Extend(want, limit);
          if overrun { return; }
        case Put(f, e) =>
          if f < size {
            AddRoom(f);
            Store(f, e);
          }
      }
      overrun := false;
    }

    method AddRoom(f: nat)
      requires Valid() && f < size
      modifies this`Repr, Repr
      ensures Valid() && fresh(Repr - old(Repr)) && HasRoom(f)
    {
      if size > GROUP && indirect[f / GROUP] == null {
        GroupOf(f, size);
        AddSecond(f / GROUP);
      }
    }

    /** pager_write_offset up to the entry: extend the object until it covers the page, and allocate the
        second-level array if there is none.  The lock is free before pager_extend takes it and after it has
        released it, and other writers then do `before` and `after`. */
    method MakeRoom(f: nat, limit: nat, before: seq<Op>, after: seq<Op>) returns (overrun: bool)
      requires Valid()
      modifies this, Repr
      ensures overrun <==> f >= old(size) && Play(old(pages), before + [Ext(f + 1)] + after, limit).None?
      ensures !overrun ==>
        && Valid() && fresh(Repr - old(Repr)) && cur == old(cur) && HasRoom(f)
        && if f < old(size) then pages == old(pages)
           else Some(pages) == Play(old(pages), before + [Ext(f + 1)] + after, limit)
    {
      overrun := false;
      ghost var was := pages;
      while f >= size
        invariant Valid() && fresh(Repr - old(Repr)) && cur == old(cur)
        invariant f >= size ==> pages == was
        invariant f < old(size) ==> pages == was
        invariant f < size && f >= old(size) ==> Some(pages) == Play(was, before + [Ext(f + 1)] + after, limit)
        decreases f + 1 - size
      {
        var ops := before + [Ext(f + 1)] + after;
        PlayGrows(was, before + [Ext(f + 1)], after, limit);
        PlayCovers(was, before, f + 1, after, limit);
        overrun := Others(ops, limit);
        if overrun { return; }
      }
      AddRoom(f);
    }

    /** A second-level array without entries for a group that had none. */
    method AddSecond(g: nat)
      requires Valid() && size > GROUP && g < Groups(size) && indirect[g] == null
      modifies this`Repr, indirect
      ensures Valid() && fresh(Repr - old(Repr)) && indirect[g] != null
    {
      ghost var seconds := indirect[..];
      assert forall f :: 0 <= f < size ==> pages[f] == Lookup(f);
      var second := new Entry[GROUP](_ => None);
      indirect[g] := second;
      Repr := Repr + {second};
      forall f | 0 <= f < size ensures f / GROUP < Groups(size) && pages[f] == Lookup(f) {
        GroupOf(f, size);
      }
    }

    /** Storing an entry changes that page and no other. */
    method Store(f: nat, e: Entry)
      requires Valid() && HasRoom(f)
      modifies this`pages, Repr
      ensures Valid() && pages == old(pages)[f := e]
    {
      pages := pages[f := e];
      if size > GROUP {
        var second := indirect[f / GROUP];
        second[f % GROUP] := e;
      } else {
        direct[f] := e;
      }
    }

    /** pager_release_offset of a page that has a block: the entry is taken out and returned. */
    method ReleaseOffset(f: nat) returns (b: Block)
      requires Valid() && f < size && pages[f].Some?
      modifies this`pages, Repr
      ensures Valid() && pages == old(pages)[f := None] && Some(b) == old(pages)[f]
    {
      pages := pages[f := None];
      if size > GROUP {
        var second := indirect[f / GROUP];
        b := second[f % GROUP].value;
        second[f % GROUP] := None;
      } else {
        b := direct[f].value;
        direct[f] := None;
      }
    }

    /** pager_allocated: the number of pages that have a block. */
    method Allocated() returns (n: nat)
      requires Valid()
      ensures n == |Present(pages)|
    {
      n := 0;
      if size > GROUP {
        for g := 0 to Groups(size)
          invariant n == |Present(pages[..g * GROUP])|
        {
          GroupOf(g * GROUP, size);
          n := CountGroup(g, n);
        }
        assert pages[..Groups(size) * GROUP] == pages;
      } else {
        for f := 0 to size
          invariant n == |Present(pages[..f])|
        {
          PresentNext(pages, f);
          if direct[f].Some? { n := n + 1; }
        }
        assert pages[..size] == pages;
      }
    }

    method CountGroup(g: nat, before: nat) returns (n: nat)
      requires Valid() && size > GROUP && g < Groups(size) && before == |Present(pages[..g * GROUP])|
      ensures n == |Present(pages[..(g + 1) * GROUP])|
    {
      n := before;
      var second := indirect[g];
      assert forall f :: 0 <= f < size ==> pages[f] == Lookup(f);
      if second == null {
        PresentNone(pages, g * GROUP, (g + 1) * GROUP);
      } else {
        for j := 0 to GROUP
          invariant n == |Present(pages[..g * GROUP + j])|
        {
          PresentNext(pages, g * GROUP + j);
          assert pages[g * GROUP + j] == Lookup(g * GROUP + j) == second[j];
          if second[j].Some? { n := n + 1; }
        }
      }
    }
  }

}
