/** The default pager's partitions, paging objects and the blocks on them (bootstrap/default_pager.c): what one
    operation, uninterrupted, does to them, and who owns which block. */
module BlockStore {

  import opened Options
  import opened PageMap
  import opened Words

  const PAGE := 4096
  /** More blocks than any partition of 2^32 bytes has. */
  const MAX_BLOCKS := 0x10_0000
  /** Pages in max_doubled_size, 4 MB. */
  const LIMIT := 1024

  type Data = seq<bv8>

  /** struct part, with the set of blocks whose bits are set. */
  datatype Part = Part(id: nat, total: nat, free: nat, used: set<nat>, goingAway: bool)

  type Parts = seq<Option<Part>>

  datatype Obj = Obj(pages: seq<Entry>, cur: nat)

  /** ptoa in 32-bit arithmetic. */
  function Ptoa(n: nat): nat { n * PAGE % WORD }

  predicate Usable(p: Option<Part>) { p.Some? && !p.value.goingAway }

  // ---------------------------------------------------------------- partitions

  predicate Fits(parts: Parts, i: nat, bytes: nat, cur: nat)
    requires i < |parts|
  {
    i != cur && Usable(parts[i]) && Ptoa(parts[i].value.free) >= bytes
  }

  /** choose_partition: the first partition from `i` on that is neither `cur` nor going away and has
      `bytes` free, or none. */
  function ChooseFrom(parts: Parts, bytes: nat, cur: nat, i: nat): (r: nat)
    requires i <= |parts|
    ensures r == NO_PARTITION || (i <= r < |parts| && Fits(parts, r, bytes, cur))
    decreases |parts| - i
  {
    if i == |parts| then NO_PARTITION
    else if Fits(parts, i, bytes, cur) then i
    else ChooseFrom(parts, bytes, cur, i + 1)
  }

  function Choose(parts: Parts, bytes: nat, cur: nat): (r: nat)
    ensures r == NO_PARTITION || (r < |parts| && Fits(parts, r, bytes, cur))
  {
    ChooseFrom(parts, bytes, cur, 0)
  }

  /** Indices of live partitions are below the one that means none. */
  predicate IndicesOk(parts: Parts) { forall i :: NO_PARTITION <= i < |parts| ==> parts[i].None? }

  lemma {:induction false} ChooseFromFirst(parts: Parts, bytes: nat, cur: nat, i: nat)
    requires IndicesOk(parts) && i <= |parts|
    ensures var r := ChooseFrom(parts, bytes, cur, i);
            forall j :: i <= j < |parts| && (r == NO_PARTITION || j < r) ==> !Fits(parts, j, bytes, cur)
    decreases |parts| - i
  {
    if i < |parts| && !Fits(parts, i, bytes, cur) {
      ChooseFromFirst(parts, bytes, cur, i + 1);
    }
  }

  /** choose_partition finds the first partition that fits, and nothing exactly when none does. */
  lemma ChooseFirst(parts: Parts, bytes: nat, cur: nat)
    requires IndicesOk(parts)
    ensures var r := Choose(parts, bytes, cur);
            && (r == NO_PARTITION <==> forall j :: 0 <= j < |parts| ==> !Fits(parts, j, bytes, cur))
            && (r != NO_PARTITION ==>
                  r < |parts| && Fits(parts, r, bytes, cur) && forall j :: 0 <= j < r ==> !Fits(parts, j, bytes, cur))
  {
    ChooseFromFirst(parts, bytes, cur, 0);
  }

  /** The least number from `n` on that is not in the set. */
  function LeastOut(s: set<nat>, n: nat): (r: nat)
    ensures r >= n && r !in s && forall c: nat :: n <= c < r ==> c in s
    decreases |s|
  {
    if n in s then
      var r := LeastOut(s - {n}, n + 1);
      LeastStep(s, n, r);
      r
    else n
  }

  lemma LeastStep(s: set<nat>, n: nat, r: nat)
    requires n in s && forall c: nat :: n + 1 <= c < r ==> c in s - {n}
    ensures forall c: nat :: n <= c < r ==> c in s
  {
    forall c: nat | n <= c < r ensures c in s { assert c != n ==> c in s - {n}; }
  }

  /** The lowest clear bit that the bitmap search finds is this number. */
  lemma LowestClearIsLeast(s: set<nat>, b: nat)
    requires b !in s && forall c: nat :: c < b ==> c in s
    ensures LeastOut(s, 0) == b
  {
    var r := LeastOut(s, 0);
    assert r < b || r == b || b < r;
  }

  function Mark(p: Part, b: nat): Part
    requires p.free > 0
  {
    p.(free := p.free - 1, used := p.used + {b})
  }

  function Unmark(p: Part, b: nat): Part { p.(free := p.free + 1, used := p.used - {b}) }

  /** The same partitions, with other contents. */
  predicate SameLive(parts: Parts, parts': Parts) {
    && |parts'| == |parts|
    && forall i :: 0 <= i < |parts| ==>
         && (parts'[i].Some? <==> parts[i].Some?)
         && (parts[i].Some? ==> parts'[i].value.goingAway == parts[i].value.goingAway
                                && parts'[i].value.total == parts[i].value.total
                                && parts'[i].value.id == parts[i].value.id)
  }

  /** pager_alloc_page. */
  function AllocPage(parts: Parts, idx: nat): (r: (Parts, Option<nat>))
    requires idx == NO_PARTITION || idx < |parts|
    ensures SameLive(parts, r.0)
  {
    if idx == NO_PARTITION || !Usable(parts[idx]) || parts[idx].value.free == 0 then (parts, None)
    else
      var b := LeastOut(parts[idx].value.used, 0);
      (parts[idx := Some(Mark(parts[idx].value, b))], Some(b))
  }

  predicate Live(parts: Parts, b: Block) { b.index < |parts| && parts[b.index].Some? }

  /** pager_dealloc_page. */
  function DeallocPage(parts: Parts, b: Block): (r: Parts)
    requires Live(parts, b)
    ensures SameLive(parts, r)
  {
    parts[b.index := Some(Unmark(parts[b.index].value, b.offset))]
  }

  // ---------------------------------------------------------------- one object

  /** The pages after pager_write_offset has extended the object to cover page `f`. */
  function Covering(pages: seq<Entry>, f: nat): (r: seq<Entry>)
    requires GoodSize(|pages|)
    ensures f < |r| && GoodSize(|r|) && |pages| <= |r| && r[..|pages|] == pages
    ensures forall i :: |pages| <= i < |r| ==> r[i].None?
  {
    NeverShrinks(|pages|, f + 1, LIMIT);
    if f < |pages| then pages else Grown(pages, NewSize(|pages|, f + 1, LIMIT))
  }

  /** The partition an object without one turns to: first one that would hold the whole object, then
      one with any room. */
  function FirstChoice(parts: Parts, size: nat): nat {
    var c := Choose(parts, Ptoa(size), NO_PARTITION);
    if c != NO_PARTITION then c else Choose(parts, Ptoa(1), NO_PARTITION)
  }

  predicate CurOk(parts: Parts, cur: nat) { cur == NO_PARTITION || cur < |parts| }

  /** Where pager_write_offset finds room for one page: in the object's partition, or else in the
      first other one that has any. */
  function Room(parts: Parts, cur: nat): (Parts, nat, Option<nat>)
    requires CurOk(parts, cur)
  {
    var (parts1, off) := AllocPage(parts, cur);
    if off.Some? then (parts1, cur, off)
    else
      var other := Choose(parts, Ptoa(1), cur);
      if other == NO_PARTITION then (parts, cur, None)
      else var (parts2, off2) := AllocPage(parts, other); (parts2, other, off2)
  }

  /** pager_write_offset: the entry of the page, allocating a block if it has none. */
  function WriteOffset(parts: Parts, ob: Obj, f: nat): (Parts, Obj)
    requires GoodSize(|ob.pages|) && CurOk(parts, ob.cur)
  {
    var cur := if ob.cur != NO_PARTITION then ob.cur else FirstChoice(parts, if f > |ob.pages| then f else |ob.pages|);
    if cur == NO_PARTITION then (parts, ob)
    else
      var pages := Covering(ob.pages, f);
      if pages[f].Some? then (parts, Obj(pages, cur))
      else
        var (parts', cur', off) := Room(parts, cur);
        (parts', Obj(if off.Some? then pages[f := Some(Block(cur', off.value))] else pages, cur'))
  }

  /** pager_move_page: a block elsewhere with the same data, or nothing if there is no room. */
  function MovePage(parts: Parts, disk: map<Block, Data>, b: Block): (r: (Parts, map<Block, Data>, Entry))
    requires Live(parts, b) && b in disk
    ensures SameLive(parts, r.0) && disk.Keys <= r.1.Keys
    ensures r.2.Some? ==> Live(r.0, r.2.value) && r.2.value in r.1 && r.2.value.index != b.index
  {
    var to := Choose(parts, Ptoa(1), b.index);
    if to == NO_PARTITION then (parts, disk, None)
    else
      var (parts', off) := AllocPage(parts, to);
      if off.None? then (parts, disk, None)   // a panic in the program
      else (DeallocPage(parts', b), disk[Block(to, off.value) := disk[b]], Some(Block(to, off.value)))
  }

  predicate AllLive(parts: Parts, disk: map<Block, Data>, pages: seq<Entry>) {
    forall f :: 0 <= f < |pages| && pages[f].Some? ==> Live(parts, pages[f].value) && pages[f].value in disk
  }

  predicate Resides(e: Entry, pindex: nat) { e.Some? && e.value.index == pindex }

  predicate ClearPages(pages: seq<Entry>, pindex: nat) { forall f :: 0 <= f < |pages| ==> !Resides(pages[f], pindex) }

  /** The loop of pager_realloc from page `f` on: every page on partition `pindex` is moved elsewhere,
      until one cannot be. */
  function ReallocFrom(parts: Parts, disk: map<Block, Data>, pages: seq<Entry>, pindex: nat, f: nat)
    : (r: (Parts, map<Block, Data>, seq<Entry>, bool))
    requires AllLive(parts, disk, pages) && f <= |pages|
    ensures SameLive(parts, r.0) && |r.2| == |pages|
    decreases |pages| - f
  {
    if f == |pages| then (parts, disk, pages, true)
    else if !Resides(pages[f], pindex) then ReallocFrom(parts, disk, pages, pindex, f + 1)
    else
      var (parts', disk', e) := MovePage(parts, disk, pages[f].value);
      if e.None? then (parts, disk, pages, false)
      else ReallocFrom(parts', disk', pages[f := e], pindex, f + 1)
  }

  /** pager_dealloc from page `f` on. */
  function DeallocFrom(parts: Parts, pages: seq<Entry>, f: nat): (r: Parts)
    requires f <= |pages| && forall g :: f <= g < |pages| && pages[g].Some? ==> Live(parts, pages[g].value)
    ensures SameLive(parts, r)
    decreases |pages| - f
  {
    if f == |pages| then parts
    else if pages[f].None? then DeallocFrom(parts, pages, f + 1)
    else
      var parts' := DeallocPage(parts, pages[f].value);
      assert forall b :: Live(parts, b) ==> Live(parts', b);
      DeallocFrom(parts', pages, f + 1)
  }

  // ---------------------------------------------------------------- the lists

  /** The first empty place in the list of partitions; the list doubles when it is full. */
  function FreeIndex(parts: Parts, i: nat): (r: nat)
    requires i <= |parts|
    ensures i <= r <= |parts| && (r < |parts| ==> parts[r].None?)
    decreases |parts| - i
  {
    if i == |parts| || parts[i].None? then i else FreeIndex(parts, i + 1)
  }

  function AddPart(parts: Parts, p: Part): Parts {
    var i := FreeIndex(parts, 0);
    if i < |parts| then parts[i := Some(p)]
    else parts + [Some(p)] + seq(if i == 0 then 1 else i - 1, _ => None)
  }

  /** The first live partition of that name, if any. */
  function FindPart(parts: Parts, id: nat, i: nat): (r: nat)
    requires i <= |parts|
    ensures i <= r <= |parts| && (r < |parts| ==> parts[r].Some? && parts[r].value.id == id)
    decreases |parts| - i
  {
    if i == |parts| || (parts[i].Some? && parts[i].value.id == id) then i else FindPart(parts, id, i + 1)
  }

  function SetGoing(parts: Parts, i: nat, going: bool): Parts
    requires i < |parts| && parts[i].Some?
  {
    parts[i := Some(parts[i].value.(goingAway := going))]
  }

  predicate HasPage(ob: Obj, f: nat) { f < |ob.pages| && ob.pages[f].Some? }

  function NewObj(parts: Parts, bytes: nat): Obj {
    var c := Choose(parts, bytes, NO_PARTITION);
    var cur := if c != NO_PARTITION then c else Choose(parts, 0, NO_PARTITION);
    var want := bytes / PAGE;
    Obj(Grown([], if want <= LIMIT then Doubled(1, want) else RoundUp(want)), cur)
  }

  // ---------------------------------------------------------------- ownership

  datatype Slot = Slot(o: nat, f: nat)

  predicate PartOk(p: Part) {
    (forall b :: b in p.used ==> b < p.total) && p.free + |p.used| == p.total && p.total < MAX_BLOCKS
  }

  predicate PartsOk(parts: Parts) {
    IndicesOk(parts) && forall i :: 0 <= i < |parts| && parts[i].Some? ==> PartOk(parts[i].value)
  }

  predicate Marked(parts: Parts, b: Block) { Live(parts, b) && b.offset in parts[b.index].value.used }

  /** Page `f` of object `o` has block `b`. */
  predicate Maps(objs: map<nat, Obj>, o: nat, f: nat,
                 b: Block) { o in objs && f < |objs[o].pages| && objs[o].pages[f] == Some(b) }

  /** The marked blocks are exactly those that have an owner, and the owner is the one slot that maps
      the block. */
  ghost predicate Owned(parts: Parts, objs: map<nat, Obj>, disk: map<Block, Data>, owner: map<Block, Slot>) {
    && (forall b :: b in owner <==> Marked(parts, b))
    && (forall b :: b in owner ==> Maps(objs, owner[b].o, owner[b].f, b) && b in disk)
    && (forall o, f, b :: Maps(objs, o, f, b) ==> b in owner && owner[b] == Slot(o, f))
  }

  lemma StoreNew(parts: Parts, objs: map<nat, Obj>, disk: map<Block, Data>, owner: map<Block, Slot>, o: nat, f: nat,
                 b: Block, d: Data, cur: nat)
    requires Owned(parts, objs, disk, owner) && o in objs && f < |objs[o].pages| && objs[o].pages[f].None?
    requires Live(parts, b) && !Marked(parts, b) && parts[b.index].value.free > 0
    ensures Owned(parts[b.index := Some(Mark(parts[b.index].value, b.offset))],
                  objs[o := Obj(objs[o].pages[f := Some(b)], cur)], disk[b := d], owner[b := Slot(o, f)])
  {
    var parts' := parts[b.index := Some(Mark(parts[b.index].value, b.offset))];
    var objs' := objs[o := Obj(objs[o].pages[f := Some(b)], cur)];
    var owner' := owner[b := Slot(o, f)];
    forall c ensures c in owner' <==> Marked(parts', c) {
      assert c in owner <==> Marked(parts, c);
    }
    forall c | c in owner' ensures Maps(objs', owner'[c].o, owner'[c].f, c) {
      if c != b { assert Maps(objs, owner[c].o, owner[c].f, c); }
    }
    forall o', f', c | Maps(objs', o', f', c) ensures c in owner' && owner'[c] == Slot(o', f') {
      if Slot(o', f') != Slot(o, f) { assert Maps(objs, o', f', c); }
    }
  }

  lemma DropOld(parts: Parts, objs: map<nat, Obj>, disk: map<Block, Data>, owner: map<Block, Slot>, o: nat, f: nat,
                b: Block)
    requires Owned(parts, objs, disk, owner) && Maps(objs, o, f, b)
    ensures Live(parts, b)
    ensures Owned(DeallocPage(parts, b), objs[o := objs[o].(pages := objs[o].pages[f := None])], disk, owner - {b})
  {
    assert b in owner && Marked(parts, b);
    var parts' := DeallocPage(parts, b);
    var objs' := objs[o := objs[o].(pages := objs[o].pages[f := None])];
    var owner' := owner - {b};
    forall c ensures c in owner' <==> Marked(parts', c) {
      assert c in owner <==> Marked(parts, c);
    }
    forall c | c in owner' ensures Maps(objs', owner'[c].o, owner'[c].f, c) {
      assert Maps(objs, owner[c].o, owner[c].f, c);
    }
    forall o', f', c | Maps(objs', o', f', c) ensures c in owner' && owner'[c] == Slot(o', f') {
      assert Maps(objs, o', f', c);
    }
  }

  /** Ownership depends on which entries are present, not on sizes or preferred partitions. */
  lemma Remapped(parts: Parts, objs: map<nat, Obj>, objs': map<nat, Obj>, disk: map<Block, Data>,
                 disk': map<Block, Data>, owner: map<Block, Slot>)
    requires Owned(parts, objs, disk, owner) && disk.Keys <= disk'.Keys
    requires forall o, f, b :: Maps(objs', o, f, b) <==> Maps(objs, o, f, b)
    ensures Owned(parts, objs', disk', owner)
  {
  }

  lemma MarkOk(p: Part)
    requires PartOk(p) && p.free > 0
    ensures LeastOut(p.used, 0) < p.total && PartOk(Mark(p, LeastOut(p.used, 0)))
  {
    LowCard(p.used, LeastOut(p.used, 0));
  }

  lemma {:induction false} LowCard(s: set<nat>, n: nat)
    requires forall c: nat :: c < n ==> c in s
    ensures |s| >= n
    decreases n
  {
    if n > 0 {
      LowCard(s - {n - 1}, n - 1);
    }
  }

  lemma UnmarkOk(p: Part, b: nat)
    requires PartOk(p) && b in p.used
    ensures PartOk(Unmark(p, b))
  {
  }

  /** What page `f` of object `o` reads as. */
  function Content(objs: map<nat, Obj>, disk: map<Block, Data>, o: nat, f: nat): Option<Data> {
    if o in objs && HasPage(objs[o], f) && objs[o].pages[f].value in disk then Some(disk[objs[o].pages[f].value])
    else None
  }

  /** Every page of every object, except page `f` of object `o`, reads the same. */
  ghost predicate SameElsewhere(objs: map<nat, Obj>, disk: map<Block, Data>, objs': map<nat, Obj>,
                                disk': map<Block, Data>, o: nat, f: nat) {
    forall x: nat, g: nat :: Slot(x, g) != Slot(o, f) ==> Content(objs', disk', x, g) == Content(objs, disk, x, g)
  }

  ghost predicate SameContents(objs: map<nat, Obj>, disk: map<Block, Data>, objs': map<nat, Obj>,
                               disk': map<Block, Data>) {
    forall x: nat, g: nat :: Content(objs', disk', x, g) == Content(objs, disk, x, g)
  }

  ghost predicate SameMaps(objs: map<nat, Obj>, objs': map<nat, Obj>, o: nat, f: nat) {
    forall x: nat, g: nat, c: Block :: Slot(x, g) != Slot(o, f) ==> (Maps(objs', x, g, c) <==> Maps(objs, x, g, c))
  }

  lemma SamePages(objs: map<nat, Obj>, o: nat, f: nat, e: Entry, cur: nat)
    requires o in objs && f < |objs[o].pages|
    ensures SameMaps(objs, objs[o := Obj(objs[o].pages[f := e], cur)], o, f)
  {
  }

  /** choose_partition for one page finds a partition whose allocation cannot fail. */
  lemma RoomForOne(parts: Parts, cur: nat)
    requires PartsOk(parts)
    ensures var to := Choose(parts, Ptoa(1), cur);
            to != NO_PARTITION ==> AllocPage(parts, to).1.Some? && to != cur && parts[to].value.free > 0
    ensures Choose(parts, Ptoa(1), cur) == NO_PARTITION <==>
              forall i :: 0 <= i < |parts| && i != cur && Usable(parts[i]) ==> parts[i].value.free == 0
  {
    ChooseFirst(parts, Ptoa(1), cur);
    forall i | 0 <= i < |parts|
      ensures Fits(parts, i, Ptoa(1), cur) <==> i != cur && Usable(parts[i]) && parts[i].value.free > 0 {
      if parts[i].Some? { assert PartOk(parts[i].value); }
    }
  }

  lemma AllocOk(parts: Parts, idx: nat)
    requires PartsOk(parts) && idx < |parts| && AllocPage(parts, idx).1.Some?
    ensures PartsOk(AllocPage(parts, idx).0)
    ensures var b := Block(idx, AllocPage(parts, idx).1.value);
            && Live(parts, b) && !Marked(parts, b) && parts[idx].value.free > 0
            && AllocPage(parts, idx).0 == parts[idx := Some(Mark(parts[idx].value, b.offset))]
  {
    MarkOk(parts[idx].value);
  }

  lemma DeallocOk(parts: Parts, b: Block)
    requires PartsOk(parts) && Marked(parts, b)
    ensures PartsOk(DeallocPage(parts, b))
  {
    UnmarkOk(parts[b.index].value, b.offset);
  }

  /** Writing a block nobody owns changes the contents of no other page. */
  lemma FreshElsewhere(parts: Parts, objs: map<nat, Obj>, disk: map<Block, Data>, owner: map<Block, Slot>,
                       objs': map<nat, Obj>, o: nat, f: nat, nb: Block, d: Data)
    requires Owned(parts, objs, disk, owner) && SameMaps(objs, objs', o, f)
    requires nb in owner ==> owner[nb] == Slot(o, f)
    ensures SameElsewhere(objs, disk, objs', disk[nb := d], o, f)
  {
    forall x: nat, g: nat | Slot(x, g) != Slot(o, f)
      ensures Content(objs', disk[nb := d], x, g) == Content(objs, disk, x, g) {
      if x in objs && HasPage(objs[x], g) {
        var c := objs[x].pages[g].value;
        assert Maps(objs, x, g, c) && Maps(objs', x, g, c) && c in owner && c != nb;
      }
      if x in objs' && HasPage(objs'[x], g) {
        var c := objs'[x].pages[g].value;
        assert Maps(objs', x, g, c) && Maps(objs, x, g, c);
      }
    }
  }

  /** Moving a block is dropping it and storing its data in the new one. */
  lemma MoveParts(parts: Parts, disk: map<Block, Data>, b: Block)
    requires PartsOk(parts) && Marked(parts, b) && b in disk
    ensures var (parts', disk', e) := MovePage(parts, disk, b);
            e.Some? ==>
              && PartsOk(parts') && Live(DeallocPage(parts, b), e.value) && !Marked(DeallocPage(parts, b), e.value)
              && !Marked(parts, e.value) && DeallocPage(parts, b)[e.value.index].value.free > 0
              && parts' == DeallocPage(parts, b)
                 [e.value.index := Some(Mark(DeallocPage(parts, b)[e.value.index].value, e.value.offset))]
              && disk' == disk[e.value := disk[b]]
  {
    var to := Choose(parts, Ptoa(1), b.index);
    if to != NO_PARTITION {
      RoomForOne(parts, b.index);
      AllocOk(parts, to);
      DeallocOk(AllocPage(parts, to).0, b);
    }
  }

  lemma Repaged(objs: map<nat, Obj>, o: nat, f: nat, e: Entry)
    requires o in objs && f < |objs[o].pages|
    ensures var objs1 := objs[o := objs[o].(pages := objs[o].pages[f := None])];
            objs1[o := Obj(objs1[o].pages[f := e], objs[o].cur)] == objs[o := objs[o].(pages := objs[o].pages[f := e])]
  {
    assert objs[o].pages[f := None][f := e] == objs[o].pages[f := e];
  }

  lemma MoveOwned(parts: Parts, objs: map<nat, Obj>, disk: map<Block, Data>, owner: map<Block, Slot>, o: nat, f: nat,
                  b: Block)
    requires PartsOk(parts) && Owned(parts, objs, disk, owner) && Maps(objs, o, f, b) && Marked(parts, b) && b in disk
    ensures var (parts', disk', e) := MovePage(parts, disk, b);
            var objs' := objs[o := objs[o].(pages := objs[o].pages[f := e])];
            e.Some? ==> PartsOk(parts') && Owned(parts', objs', disk', (owner - {b})[e.value := Slot(o, f)])
  {
    var (parts', disk', e) := MovePage(parts, disk, b);
    if e.Some? {
      MoveParts(parts, disk, b);
      DropOld(parts, objs, disk, owner, o, f, b);
      Repaged(objs, o, f, e);
      StoreNew(DeallocPage(parts, b), objs[o := objs[o].(pages := objs[o].pages[f := None])], disk, owner - {b}, o, f,
               e.value, disk[b], objs[o].cur);
    }
  }

  lemma MoveSame(parts: Parts, objs: map<nat, Obj>, disk: map<Block, Data>, owner: map<Block, Slot>, o: nat, f: nat,
                 b: Block)
    requires PartsOk(parts) && Owned(parts, objs, disk, owner) && Maps(objs, o, f, b) && Marked(parts, b) && b in disk
    ensures var (parts', disk', e) := MovePage(parts, disk, b);
            e.Some? ==> SameContents(objs, disk, objs[o := objs[o].(pages := objs[o].pages[f := e])], disk')
  {
    var (parts', disk', e) := MovePage(parts, disk, b);
    if e.Some? {
      MoveParts(parts, disk, b);
      var objs' := objs[o := objs[o].(pages := objs[o].pages[f := e])];
      SamePages(objs, o, f, e, objs[o].cur);
      FreshElsewhere(parts, objs, disk, owner, objs', o, f, e.value, disk[b]);
      assert Content(objs', disk', o, f) == Content(objs, disk, o, f);
    }
  }

  /** pager_move_page: the block keeps one owner and every page reads the same. */
  lemma MoveKeeps(parts: Parts, objs: map<nat, Obj>, disk: map<Block, Data>, owner: map<Block, Slot>, o: nat, f: nat,
                  b: Block)
      returns (owner': map<Block, Slot>)
    requires PartsOk(parts) && Owned(parts, objs, disk, owner) && Maps(objs, o, f, b)
    ensures Live(parts, b) && b in disk
    ensures var (parts', disk', e) := MovePage(parts, disk, b);
            var objs' := objs[o := objs[o].(pages := objs[o].pages[f := e])];
            e.Some? ==> PartsOk(parts') && Owned(parts', objs', disk', owner') && SameContents(objs, disk, objs', disk')
  {
    assert b in owner && Marked(parts, b);
    MoveOwned(parts, objs, disk, owner, o, f, b);
    MoveSame(parts, objs, disk, owner, o, f, b);
    var e := MovePage(parts, disk, b).2;
    owner' := if e.Some? then (owner - {b})[e.value := Slot(o, f)] else owner;
  }

  lemma OwnedLive(parts: Parts, objs: map<nat, Obj>, disk: map<Block, Data>, owner: map<Block, Slot>, o: nat)
    requires Owned(parts, objs, disk, owner) && o in objs
    ensures AllLive(parts, disk, objs[o].pages)
  {
    forall f | 0 <= f < |objs[o].pages| && objs[o].pages[f].Some?
      ensures Live(parts, objs[o].pages[f].value) && objs[o].pages[f].value in disk
    {
      assert Maps(objs, o, f, objs[o].pages[f].value);
    }
  }

  /** Every partition that may be allocated from, other than `pindex`, is full. */
  predicate FullExcept(parts: Parts, pindex: nat) {
    forall i :: 0 <= i < |parts| && i != pindex && Usable(parts[i]) ==> parts[i].value.free == 0
  }

  /** Moving a page fails exactly when every other partition not going away is full; the allocation
      that follows the choice of a partition never fails. */
  lemma MoveFailsExactly(parts: Parts, disk: map<Block, Data>, b: Block)
    requires PartsOk(parts) && Live(parts, b) && b in disk
    ensures MovePage(parts, disk, b).2.None? <==> FullExcept(parts, b.index)
  {
    RoomForOne(parts, b.index);
  }

  /** If pager_realloc gets to the end, nothing is left on the partition. */
  lemma {:induction false} ReallocClears(parts: Parts, disk: map<Block, Data>, pages: seq<Entry>, pindex: nat, f: nat)
    requires AllLive(parts, disk, pages) && f <= |pages| && forall g :: 0 <= g < f ==> !Resides(pages[g], pindex)
    ensures var (parts', disk', pages', ok) := ReallocFrom(parts, disk, pages, pindex, f);
            ok ==> ClearPages(pages', pindex)
    decreases |pages| - f
  {
    if f < |pages| {
      if !Resides(pages[f], pindex) {
        ReallocClears(parts, disk, pages, pindex, f + 1);
      } else {
        var (parts', disk', e) := MovePage(parts, disk, pages[f].value);
        if e.Some? { ReallocClears(parts', disk', pages[f := e], pindex, f + 1); }
      }
    }
  }

  /** pager_realloc moves pages one by one; however far it gets, every block keeps one owner and every
      page reads the same. */
  lemma {:induction false} ReallocKeeps(parts: Parts, objs: map<nat, Obj>, disk: map<Block, Data>,
                                        owner: map<Block, Slot>,
                                        o: nat, pindex: nat, f: nat) returns (owner': map<Block, Slot>)
    requires PartsOk(parts) && Owned(parts, objs, disk, owner) && o in objs && f <= |objs[o].pages|
    ensures AllLive(parts, disk, objs[o].pages)
    ensures var (parts', disk', pages', ok) := ReallocFrom(parts, disk, objs[o].pages, pindex, f);
            var objs' := objs[o := objs[o].(pages := pages')];
            && PartsOk(parts') && Owned(parts', objs', disk', owner') && SameContents(objs, disk, objs', disk')
            && (!ok ==> FullExcept(parts', pindex))
    decreases |objs[o].pages| - f
  {
    OwnedLive(parts, objs, disk, owner, o);
    if f == |objs[o].pages| {
      owner' := owner;
      assert objs[o := objs[o].(pages := objs[o].pages)] == objs;
    } else if !Resides(objs[o].pages[f], pindex) {
      owner' := ReallocKeeps(parts, objs, disk, owner, o, pindex, f + 1);
    } else {
      owner' := ReallocMoves(parts, objs, disk, owner, o, pindex, f);
    }
  }

  lemma {:induction false} ReallocMoves(parts: Parts, objs: map<nat, Obj>, disk: map<Block, Data>,
                                        owner: map<Block, Slot>,
                                        o: nat, pindex: nat, f: nat) returns (owner': map<Block, Slot>)
    requires PartsOk(parts) && Owned(parts, objs, disk, owner) && o in objs && f < |objs[o].pages|
    requires Resides(objs[o].pages[f], pindex) && AllLive(parts, disk, objs[o].pages)
    ensures var (parts', disk', pages', ok) := ReallocFrom(parts, disk, objs[o].pages, pindex, f);
            var objs' := objs[o := objs[o].(pages := pages')];
            && PartsOk(parts') && Owned(parts', objs', disk', owner') && SameContents(objs, disk, objs', disk')
            && (!ok ==> FullExcept(parts', pindex))
    decreases |objs[o].pages| - f, 0
  {
    var b := objs[o].pages[f].value;
    owner' := MoveKeeps(parts, objs, disk, owner, o, f, b);
    var (parts1, disk1, e) := MovePage(parts, disk, b);
    if e.Some? {
      var objs1 := objs[o := objs[o].(pages := objs[o].pages[f := e])];
      owner' := ReallocKeeps(parts1, objs1, disk1, owner', o, pindex, f + 1);
      var pages' := ReallocFrom(parts1, disk1, objs1[o].pages, pindex, f + 1).2;
      assert objs1[o := objs1[o].(pages := pages')] == objs[o := objs[o].(pages := pages')];
    } else {
      owner' := owner;
      assert objs[o := objs[o].(pages := objs[o].pages)] == objs;
      MoveFailsExactly(parts, disk, b);
    }
  }

  lemma RestLive(parts: Parts, objs: map<nat, Obj>, disk: map<Block, Data>, owner: map<Block, Slot>, o: nat,
                 pages: seq<Entry>, f: nat)
    requires Owned(parts, objs, disk, owner) && o in objs && f <= |pages| == |objs[o].pages|
    requires forall g :: f <= g < |pages| ==> objs[o].pages[g] == pages[g]
    ensures forall g :: f <= g < |pages| && pages[g].Some? ==> Live(parts, pages[g].value)
  {
    OwnedLive(parts, objs, disk, owner, o);
    forall g | f <= g < |pages| && pages[g].Some? ensures Live(parts, pages[g].value) {
      assert objs[o].pages[g] == pages[g];
    }
  }

  /** pager_dealloc gives every block of the object back. */
  lemma {:induction false} DeallocKeeps(parts: Parts, objs: map<nat, Obj>, disk: map<Block, Data>,
                                        owner: map<Block, Slot>,
                                        o: nat, pages: seq<Entry>, f: nat) returns (owner': map<Block, Slot>)
    requires PartsOk(parts) && Owned(parts, objs, disk, owner) && o in objs && f <= |pages| == |objs[o].pages|
    requires forall g :: 0 <= g < |pages| ==> objs[o].pages[g] == if g < f then None else pages[g]
    ensures forall g :: f <= g < |pages| && pages[g].Some? ==> Live(parts, pages[g].value)
    ensures PartsOk(DeallocFrom(parts, pages, f)) && Owned(DeallocFrom(parts, pages, f), objs - {o}, disk, owner')
    decreases |pages| - f
  {
    RestLive(parts, objs, disk, owner, o, pages, f);
    if f == |pages| {
      owner' := owner;
      Remapped(parts, objs, objs - {o}, disk, disk, owner);
    } else if pages[f].None? {
      owner' := DeallocKeeps(parts, objs, disk, owner, o, pages, f + 1);
    } else {
      var b := pages[f].value;
      assert Maps(objs, o, f, b) && Marked(parts, b);
      DropOld(parts, objs, disk, owner, o, f, b);
      DeallocOk(parts, b);
      var objs1 := objs[o := objs[o].(pages := objs[o].pages[f := None])];
      owner' := DeallocKeeps(DeallocPage(parts, b), objs1, disk, owner - {b}, o, pages, f + 1);
      assert objs1 - {o} == objs - {o};
    }
  }

  // ---------------------------------------------------------------- pager_write_offset

  /** No partition that may be allocated from has a free block. */
  predicate AllFull(parts: Parts) { forall i :: 0 <= i < |parts| && Usable(parts[i]) ==> parts[i].value.free == 0 }

  /** Finding room for a page fails exactly when every partition not going away is full; otherwise it
      yields a block nobody has. */
  lemma RoomSpec(parts: Parts, cur: nat)
    requires PartsOk(parts) && cur < |parts| && cur != NO_PARTITION
    ensures var (parts', cur', off) := Room(parts, cur);
            && (off.None? <==> AllFull(parts)) && CurOk(parts, cur') && cur' != NO_PARTITION
            && (off.None? ==> parts' == parts)
            && (off.Some? ==>
                  && var b := Block(cur', off.value);
                     && Live(parts, b) && Usable(parts[cur']) && !Marked(parts, b) && parts[cur'].value.free > 0
                     && parts' == parts[cur' := Some(Mark(parts[cur'].value, b.offset))] && PartsOk(parts'))
  {
    RoomForOne(parts, cur);
    var (parts', cur', off) := Room(parts, cur);
    if off.Some? { AllocOk(parts, cur'); }
  }

  predicate Empty(pages: seq<Entry>) { forall f :: 0 <= f < |pages| ==> pages[f].None? }

  /** An object that has no partition has no pages either. */
  predicate ObjOk(parts: Parts, ob: Obj) { GoodSize(|ob.pages|) && CurOk(parts,
                  ob.cur) && (ob.cur == NO_PARTITION ==> Empty(ob.pages)) }

  /** pager_write_offset leaves the page without a block if and only if it had none and every partition
      not going away is full. */
  lemma NoBlockExactly(parts: Parts, ob: Obj, f: nat)
    requires PartsOk(parts) && ObjOk(parts, ob)
    ensures !HasPage(WriteOffset(parts, ob, f).1, f) <==> !HasPage(ob, f) && AllFull(parts)
  {
    var size := if f > |ob.pages| then f else |ob.pages|;
    RoomForOne(parts, NO_PARTITION);
    var cur := if ob.cur != NO_PARTITION then ob.cur else FirstChoice(parts, size);
    if cur == NO_PARTITION {
      assert AllFull(parts);
    } else {
      RoomSpec(parts, cur);
      Covered(ob.pages, f);
    }
  }

  lemma Covered(pages: seq<Entry>, f: nat)
    requires GoodSize(|pages|)
    ensures Covering(pages, f)[f] == if f < |pages| then pages[f] else None
  {
    if f < |pages| { assert Covering(pages, f)[..|pages|][f] == pages[f]; }
  }

  lemma CoveringMaps(objs: map<nat, Obj>, o: nat, f: nat, cur: nat)
    requires o in objs && GoodSize(|objs[o].pages|)
    ensures forall x: nat, g: nat, c: Block ::
              Maps(objs[o := Obj(Covering(objs[o].pages, f), cur)], x, g, c) <==> Maps(objs, x, g, c)
  {
    var pages := objs[o].pages;
    var pages' := Covering(pages, f);
    forall g | 0 <= g < |pages'| ensures pages'[g] == if g < |pages| then pages[g] else None {
      if g < |pages| { assert pages'[..|pages|][g] == pages[g]; }
    }
  }

  /** default_write: the page reads back as what was written if it got a block; every other page of
      every object reads the same; and the bookkeeping stays true. */
  lemma WriteKeeps(parts: Parts, objs: map<nat, Obj>, disk: map<Block, Data>, owner: map<Block, Slot>, o: nat, f: nat,
                   d: Data)
      returns (owner': map<Block, Slot>)
    requires PartsOk(parts) && Owned(parts, objs, disk, owner) && o in objs && ObjOk(parts, objs[o])
    ensures var (parts', ob') := WriteOffset(parts, objs[o], f);
            var disk' := if HasPage(ob', f) then disk[ob'.pages[f].value := d] else disk;
            var objs' := objs[o := ob'];
            && PartsOk(parts') && Owned(parts', objs', disk', owner') && SameElsewhere(objs, disk, objs', disk', o, f)
            && Content(objs', disk', o, f) == (if HasPage(ob', f) then Some(d) else None)
            && ObjOk(parts', ob')
  {
    var ob := objs[o];
    var cur := if ob.cur != NO_PARTITION then ob.cur else FirstChoice(parts, if f > |ob.pages| then f else |ob.pages|);
    owner' := owner;
    if cur == NO_PARTITION {
      assert objs[o := ob] == objs;
    } else {
      var pages := Covering(ob.pages, f);
      CoveringMaps(objs, o, f, cur);
      var objs1 := objs[o := Obj(pages, cur)];
      Remapped(parts, objs, objs1, disk, disk, owner);
      Covered(ob.pages, f);
      if pages[f].Some? {
        var b := pages[f].value;
        assert Maps(objs1, o, f, b) && owner[b] == Slot(o, f);
        Remapped(parts, objs1, objs1, disk, disk[b := d], owner);
        FreshElsewhere(parts, objs, disk, owner, objs1, o, f, b, d);
      } else {
        owner' := WriteFresh(parts, objs, disk, owner, o, f, d, pages, cur);
      }
    }
  }

  lemma WriteFresh(parts: Parts, objs: map<nat, Obj>, disk: map<Block, Data>, owner: map<Block, Slot>, o: nat, f: nat,
                   d: Data,
                   pages: seq<Entry>, cur: nat) returns (owner': map<Block, Slot>)
    requires PartsOk(parts) && Owned(parts, objs, disk, owner) && o in objs && cur < |parts| && cur != NO_PARTITION
    requires f < |pages| && pages[f].None? && Owned(parts, objs[o := Obj(pages, cur)], disk, owner)
    requires forall x: nat, g: nat, c: Block :: Maps(objs[o := Obj(pages, cur)], x, g, c) <==> Maps(objs, x, g, c)
    ensures var (parts', cur', off) := Room(parts, cur);
            var ob' := Obj(if off.Some? then pages[f := Some(Block(cur', off.value))] else pages, cur');
            var disk' := if off.Some? then disk[Block(cur', off.value) := d] else disk;
            var objs' := objs[o := ob'];
            && PartsOk(parts') && Owned(parts', objs', disk', owner') && SameElsewhere(objs, disk, objs', disk', o, f)
            && |parts'| == |parts| && CurOk(parts, cur') && cur' != NO_PARTITION
  {
    RoomSpec(parts, cur);
    var (parts', cur', off) := Room(parts, cur);
    var objs1 := objs[o := Obj(pages, cur)];
    owner' := owner;
    if off.Some? {
      var b := Block(cur', off.value);
      StoreNew(parts, objs1, disk, owner, o, f, b, d, cur');
      owner' := owner[b := Slot(o, f)];
      var objs' := objs[o := Obj(pages[f := Some(b)], cur')];
      assert objs' == objs1[o := Obj(objs1[o].pages[f := Some(b)], cur')];
      SamePages(objs1, o, f, Some(b), cur');
      FreshElsewhere(parts, objs, disk, owner, objs', o, f, b, d);
    } else {
      Remapped(parts, objs, objs[o := Obj(pages, cur')], disk, disk, owner);
      Unwritten(objs, objs[o := Obj(pages, cur')], disk, o, f);
    }
  }

  lemma Unwritten(objs: map<nat, Obj>, objs': map<nat, Obj>, disk: map<Block, Data>, o: nat, f: nat)
    requires SameMaps(objs, objs', o, f)
    ensures SameElsewhere(objs, disk, objs', disk, o, f)
  {
    forall x: nat, g: nat | Slot(x, g) != Slot(o, f) ensures Content(objs', disk, x, g) == Content(objs, disk, x, g) {
      if x in objs && HasPage(objs[x], g) {
        assert Maps(objs, x, g, objs[x].pages[g].value) && Maps(objs', x, g, objs[x].pages[g].value);
      }
      if x in objs' && HasPage(objs'[x], g) {
        assert Maps(objs', x, g, objs'[x].pages[g].value) && Maps(objs, x, g, objs'[x].pages[g].value);
      }
    }
  }

  // ---------------------------------------------------------------- clear of a partition

  /** Nothing of the object is on the partition, and it will not turn to it for room. */
  predicate Clear(ob: Obj, pindex: nat) { ob.cur != pindex && ClearPages(ob.pages, pindex) }

  lemma SameLiveObjs(parts: Parts, parts': Parts, ob: Obj)
    requires ObjOk(parts, ob) && |parts'| >= |parts|
    ensures ObjOk(parts', ob)
  {
  }

  /** Writing to an object adds nothing on a partition that is going away, and does not make it turn there. */
  lemma WriteClear(parts: Parts, ob: Obj, f: nat, pindex: nat)
    requires PartsOk(parts) && ObjOk(parts, ob) && pindex < |parts| && !Usable(parts[pindex]) && pindex != NO_PARTITION
    ensures ClearPages(ob.pages, pindex) ==> ClearPages(WriteOffset(parts, ob, f).1.pages, pindex)
    ensures ob.cur != pindex ==> WriteOffset(parts, ob, f).1.cur != pindex
  {
    var cur := if ob.cur != NO_PARTITION then ob.cur else FirstChoice(parts, if f > |ob.pages| then f else |ob.pages|);
    if cur != NO_PARTITION {
      RoomSpec(parts, cur);
      CoveringClear(ob.pages, f, pindex);
    }
  }

  lemma CoveringClear(pages: seq<Entry>, f: nat, pindex: nat)
    requires GoodSize(|pages|)
    ensures ClearPages(pages, pindex) ==> ClearPages(Covering(pages, f), pindex)
  {
    var pages' := Covering(pages, f);
    if ClearPages(pages, pindex) {
      forall g | 0 <= g < |pages'| ensures !Resides(pages'[g], pindex) {
        if g < |pages| { assert pages'[..|pages|][g] == pages[g]; }
      }
    }
  }

  lemma Reparted(parts: Parts, parts': Parts, objs: map<nat, Obj>, disk: map<Block, Data>, owner: map<Block, Slot>)
    requires Owned(parts, objs, disk, owner) && forall b :: Marked(parts', b) <==> Marked(parts, b)
    ensures Owned(parts', objs, disk, owner)
  {
  }

  lemma AddPartOk(parts: Parts, p: Part)
    requires PartsOk(parts) && PartOk(p) && p.used == {} && !p.goingAway && FreeIndex(parts, 0) < NO_PARTITION
    ensures var parts' := AddPart(parts, p);
            && PartsOk(parts') && |parts'| >= |parts|
            && (forall b :: Marked(parts', b) <==> Marked(parts, b))
            && (forall i :: 0 <= i < |parts'| && parts'[i].Some? && parts'[i].value.goingAway ==>
                  i < |parts| && parts'[i] == parts[i])
            && (forall i :: 0 <= i < |parts| && parts[i].Some? ==> parts'[i] == parts[i])
  {
  }

  lemma NewObjOk(parts: Parts, bytes: nat)
    ensures ObjOk(parts, NewObj(parts, bytes)) && Empty(NewObj(parts, bytes).pages)
    ensures forall i :: 0 <= i < |parts| && i != NO_PARTITION && !Usable(parts[i]) ==> Clear(NewObj(parts, bytes), i)
  {
    DoubledGood(1, bytes / PAGE);
  }

  /** With no other partition left to turn to, an object clear of the one going away has no pages. */
  lemma NothingLeft(parts: Parts, disk: map<Block, Data>, pages: seq<Entry>, pindex: nat)
    requires IndicesOk(parts) && AllLive(parts, disk, pages) && Choose(parts, 0, NO_PARTITION) == NO_PARTITION
    requires ClearPages(pages, pindex)
    requires forall i :: 0 <= i < |parts| && parts[i].Some? && parts[i].value.goingAway ==> i == pindex
    ensures Empty(pages)
  {
    forall f | 0 <= f < |pages| ensures pages[f].Some? ==> Fits(parts, pages[f].value.index, 0, NO_PARTITION) {
      assert !Resides(pages[f], pindex);
    }
    ChooseFirst(parts, 0, NO_PARTITION);
  }

  lemma Recurrent(objs: map<nat, Obj>, objs': map<nat, Obj>, disk: map<Block, Data>)
    requires objs.Keys == objs'.Keys && forall x :: x in objs ==> objs'[x].pages == objs[x].pages
    ensures SameContents(objs, disk, objs', disk)
  {
  }

  lemma {:induction false} NothingToMove(parts: Parts, disk: map<Block, Data>, pages: seq<Entry>, pindex: nat, f: nat)
    requires Empty(pages) && f <= |pages|
    ensures ReallocFrom(parts, disk, pages, pindex, f) == (parts, disk, pages, true)
    decreases |pages| - f
  {
    if f < |pages| { NothingToMove(parts, disk, pages, pindex, f + 1); }
  }

  /** No block of a partition that every object is clear of is marked. */
  lemma NoneMarked(parts: Parts, objs: map<nat, Obj>, disk: map<Block, Data>, owner: map<Block, Slot>, pindex: nat,
                   b: Block)
    requires Owned(parts, objs, disk, owner) && Marked(parts, b)
    requires forall o :: o in objs ==> ClearPages(objs[o].pages, pindex)
    ensures b.index != pindex
  {
    assert b in owner && Maps(objs, owner[b].o, owner[b].f, b);
    assert !Resides(objs[owner[b].o].pages[owner[b].f], pindex);
  }

  lemma FinishOwned(parts: Parts, objs: map<nat, Obj>, disk: map<Block, Data>, owner: map<Block, Slot>, pindex: nat)
    requires Owned(parts, objs, disk, owner) && pindex < |parts|
    requires forall o :: o in objs ==> ClearPages(objs[o].pages, pindex)
    ensures Owned(parts[pindex := None], objs, disk, owner)
  {
    forall b | Marked(parts, b) ensures Marked(parts[pindex := None], b) {
      NoneMarked(parts, objs, disk, owner, pindex, b);
    }
    Reparted(parts, parts[pindex := None], objs, disk, owner);
  }

  lemma GoingOwned(parts: Parts, objs: map<nat, Obj>, disk: map<Block, Data>, owner: map<Block, Slot>, i: nat,
                   going: bool)
    requires PartsOk(parts) && Owned(parts, objs, disk, owner) && i < |parts| && parts[i].Some?
    ensures PartsOk(SetGoing(parts, i, going)) && Owned(SetGoing(parts, i, going), objs, disk, owner)
  {
    var parts' := SetGoing(parts, i, going);
    assert PartOk(parts[i].value);
    forall b ensures Marked(parts', b) <==> Marked(parts, b) {}
    Reparted(parts, parts', objs, disk, owner);
  }

  lemma EmptyForgotten(parts: Parts, objs: map<nat, Obj>, disk: map<Block, Data>, owner: map<Block, Slot>, h: nat)
    requires Owned(parts, objs, disk, owner) && h in objs && Empty(objs[h].pages)
    ensures Owned(parts, objs - {h}, disk, owner)
  {
    forall o, f, b ensures Maps(objs - {h}, o, f, b) <==> Maps(objs, o, f, b) {}
    Remapped(parts, objs, objs - {h}, disk, disk, owner);
  }

  // ---------------------------------------------------------------- passing a block on

  /** A block in the hands of a thread, between its page and its partition, is held like the page of an object. */
  function InHand(b: Block): Obj { Obj([Some(b)], b.index) }

  /** The entry of page `f` of object `o` is taken out and kept in hand as `h`. */
  function TakenOut(objs: map<nat, Obj>, o: nat, f: nat, h: nat): map<nat, Obj>
    requires o in objs && HasPage(objs[o], f)
  {
    objs[o := objs[o].(pages := objs[o].pages[f := None])][h := InHand(objs[o].pages[f].value)]
  }

  lemma TakeOutOwned(parts: Parts, objs: map<nat, Obj>, disk: map<Block, Data>, owner: map<Block, Slot>, o: nat, f: nat,
                     h: nat)
    requires Owned(parts, objs, disk, owner) && o in objs && HasPage(objs[o], f) && h !in objs
    ensures Owned(parts, TakenOut(objs, o, f, h), disk, owner[objs[o].pages[f].value := Slot(h, 0)])
  {
    var b := objs[o].pages[f].value;
    var objs', owner' := TakenOut(objs, o, f, h), owner[b := Slot(h, 0)];
    assert Maps(objs, o, f, b);
    forall c | c in owner' ensures Maps(objs', owner'[c].o, owner'[c].f, c) {
      if c != b { assert Maps(objs, owner[c].o, owner[c].f, c); }
    }
    forall x, g, c | Maps(objs', x, g, c) ensures c in owner' && owner'[c] == Slot(x, g) {
      if x != h { assert Maps(objs, x, g, c); }
    }
  }

  // ---------------------------------------------------------------- how many pages can be moved

  /** The free blocks of the partitions that may be allocated from, other than `pindex`, among the first `n`. */
  function FreeElsewhere(parts: Parts, pindex: nat, n: nat): nat
    requires n <= |parts|
  {
    if n == 0 then 0
    else FreeElsewhere(parts, pindex, n - 1)
         + if n - 1 != pindex && Usable(parts[n - 1]) then parts[n - 1].value.free else 0
  }

  function RoomElsewhere(parts: Parts, pindex: nat): nat { FreeElsewhere(parts, pindex, |parts|) }

  lemma {:induction false} NoRoomIsFull(parts: Parts, pindex: nat, n: nat)
    requires n <= |parts|
    ensures FreeElsewhere(parts, pindex, n) == 0 <==>
            forall i :: 0 <= i < n && i != pindex && Usable(parts[i]) ==> parts[i].value.free == 0
  {
    if n > 0 { NoRoomIsFull(parts, pindex, n - 1); }
  }

  lemma {:induction false} RoomShrinks(parts: Parts, parts': Parts, pindex: nat, to: nat, n: nat)
    requires n <= |parts| == |parts'| && to < |parts| && to != pindex && Usable(parts[to]) && Usable(parts'[to])
    requires parts'[to].value.free + 1 == parts[to].value.free
    requires forall i :: 0 <= i < |parts| && i != to && i != pindex ==> parts'[i] == parts[i]
    ensures FreeElsewhere(parts', pindex, n) == FreeElsewhere(parts, pindex, n) - if to < n then 1 else 0
  {
    if n > 0 { RoomShrinks(parts, parts', pindex, to, n - 1); }
  }

  /** Every move takes one block elsewhere. */
  lemma MoveTakesOne(parts: Parts, disk: map<Block, Data>, b: Block)
    requires PartsOk(parts) && Live(parts, b) && b in disk
    ensures var (parts', disk', e) := MovePage(parts, disk, b);
            && (e.None? <==> RoomElsewhere(parts, b.index) == 0)
            && (e.Some? ==> RoomElsewhere(parts', b.index) == RoomElsewhere(parts, b.index) - 1)
  {
    MoveFailsExactly(parts, disk, b);
    NoRoomIsFull(parts, b.index, |parts|);
    var (parts', disk', e) := MovePage(parts, disk, b);
    if e.Some? {
      RoomForOne(parts, b.index);
      RoomShrinks(parts, parts', b.index, e.value.index, |parts|);
    }
  }

  /** The pages on a partition from page `lo` to page `hi`. */
  function Residents(pages: seq<Entry>, pindex: nat, lo: nat, hi: nat): nat
    requires lo <= hi <= |pages|
    decreases hi
  {
    if lo == hi then 0 else Residents(pages, pindex, lo, hi - 1) + if Resides(pages[hi - 1], pindex) then 1 else 0
  }

  lemma {:induction false} ResidentsFrom(pages: seq<Entry>, pages': seq<Entry>, pindex: nat, lo: nat, hi: nat)
    requires lo < hi <= |pages| == |pages'| && forall g :: lo < g < |pages| ==> pages'[g] == pages[g]
    ensures Residents(pages, pindex, lo, hi)
         == Residents(pages', pindex, lo + 1, hi) + if Resides(pages[lo], pindex) then 1 else 0
    decreases hi
  {
    if hi > lo + 1 { ResidentsFrom(pages, pages', pindex, lo, hi - 1); }
  }

  /** pager_realloc from page `f` on will move page `g`: it is on the partition, and there is room left for it. */
  predicate WillMove(pages: seq<Entry>, pindex: nat, room: nat, f: nat, g: nat)
    requires f <= g < |pages|
  {
    Resides(pages[g], pindex) && Residents(pages, pindex, f, g) < room
  }

  predicate MovesAsRoomAllows(pages: seq<Entry>, pages': seq<Entry>, pindex: nat, room: nat, f: nat)
    requires f <= |pages| == |pages'|
  {
    && (forall g :: 0 <= g < f ==> pages'[g] == pages[g])
    && forall g :: f <= g < |pages| ==> (pages'[g] != pages[g] <==> WillMove(pages, pindex, room, f, g))
  }

  lemma MovesSkip(pages: seq<Entry>, pages': seq<Entry>, pindex: nat, room: nat, f: nat)
    requires f < |pages| == |pages'| && !Resides(pages[f], pindex)
    requires MovesAsRoomAllows(pages, pages', pindex, room, f + 1)
    ensures MovesAsRoomAllows(pages, pages', pindex, room, f)
  {
    forall g | f <= g < |pages| ensures pages'[g] != pages[g] <==> WillMove(pages, pindex, room, f, g) {
      if f < g {
        assert pages'[g] != pages[g] <==> WillMove(pages, pindex, room, f + 1, g);
        ResidentsFrom(pages, pages, pindex, f, g);
      }
    }
  }

  lemma MovesOne(pages: seq<Entry>, e: Entry, pages': seq<Entry>, pindex: nat, room: nat, f: nat)
    requires f < |pages| == |pages'| && Resides(pages[f], pindex) && e != pages[f] && room > 0
    requires MovesAsRoomAllows(pages[f := e], pages', pindex, room - 1, f + 1)
    ensures MovesAsRoomAllows(pages, pages', pindex, room, f)
  {
    var mid := pages[f := e];
    assert pages'[f] == mid[f];
    forall g | 0 <= g < f ensures pages'[g] == pages[g] { assert pages'[g] == mid[g]; }
    forall g | f <= g < |pages| ensures pages'[g] != pages[g] <==> WillMove(pages, pindex, room, f, g) {
      if f < g {
        assert pages'[g] != mid[g] <==> WillMove(mid, pindex, room - 1, f + 1, g);
        ResidentsFrom(pages, mid, pindex, f, g);
      }
    }
  }

  /** The pages that are moved, and whether all of them are. */
  predicate Reallocated(pages: seq<Entry>, pindex: nat, room: nat, f: nat, pages': seq<Entry>, ok: bool)
    requires f <= |pages| == |pages'|
  {
    MovesAsRoomAllows(pages, pages', pindex, room, f) && (ok <==> Residents(pages, pindex, f, |pages|) <= room)
  }

  lemma ReallocatedSkip(pages: seq<Entry>, pindex: nat, room: nat, f: nat, pages': seq<Entry>, ok: bool)
    requires f < |pages| == |pages'| && !Resides(pages[f], pindex)
    requires Reallocated(pages, pindex, room, f + 1, pages', ok)
    ensures Reallocated(pages, pindex, room, f, pages', ok)
  {
    MovesSkip(pages, pages', pindex, room, f);
    ResidentsFrom(pages, pages, pindex, f, |pages|);
  }

  lemma ReallocatedMove(pages: seq<Entry>, e: Entry, pindex: nat, room: nat, f: nat, pages': seq<Entry>, ok: bool)
    requires f < |pages| == |pages'| && Resides(pages[f], pindex) && e != pages[f] && room > 0
    requires Reallocated(pages[f := e], pindex, room - 1, f + 1, pages', ok)
    ensures Reallocated(pages, pindex, room, f, pages', ok)
  {
    MovesOne(pages, e, pages', pindex, room, f);
    ResidentsFrom(pages, pages[f := e], pindex, f, |pages|);
  }

  lemma ReallocatedNone(pages: seq<Entry>, pindex: nat, f: nat)
    requires f < |pages| && Resides(pages[f], pindex)
    ensures Reallocated(pages, pindex, 0, f, pages, false)
  {
    ResidentsFrom(pages, pages, pindex, f, |pages|);
  }

  /** One page that is on the partition. */
  lemma ReallocStep(parts: Parts, objs: map<nat, Obj>, disk: map<Block, Data>, owner: map<Block, Slot>, o: nat,
                    pindex: nat, f: nat)
      returns (parts1: Parts, objs1: map<nat, Obj>, disk1: map<Block, Data>, owner1: map<Block, Slot>, e: Entry)
    requires PartsOk(parts) && Owned(parts, objs, disk, owner) && o in objs && f < |objs[o].pages|
    requires Resides(objs[o].pages[f], pindex) && AllLive(parts, disk, objs[o].pages)
    ensures var r := ReallocFrom(parts, disk, objs[o].pages, pindex, f);
            if e.None? then RoomElsewhere(parts, pindex) == 0 && r == (parts, disk, objs[o].pages, false)
            else
              && PartsOk(parts1) && Owned(parts1, objs1, disk1, owner1) && o in objs1 && e != objs[o].pages[f]
              && objs1[o].pages == objs[o].pages[f := e] && AllLive(parts1, disk1, objs1[o].pages)
              && RoomElsewhere(parts, pindex) == RoomElsewhere(parts1, pindex) + 1
              && r == ReallocFrom(parts1, disk1, objs1[o].pages, pindex, f + 1)
  {
    var b := objs[o].pages[f].value;
    MoveTakesOne(parts, disk, b);
    owner1 := MoveKeeps(parts, objs, disk, owner, o, f, b);
    var (p, d, e1) := MovePage(parts, disk, b);
    parts1, disk1, e := p, d, e1;
    objs1 := objs[o := objs[o].(pages := objs[o].pages[f := e])];
    if e.Some? { OwnedLive(parts1, objs1, disk1, owner1, o); }
  }

  /** pager_realloc moves the pages on the partition in order as long as there is room elsewhere, and gets to the
      end if and only if there is room for all of them. */
  lemma {:induction false} ReallocExactly(parts: Parts, objs: map<nat, Obj>, disk: map<Block, Data>,
                                          owner: map<Block, Slot>, o: nat, pindex: nat, f: nat,
                                          r: (Parts, map<Block, Data>, seq<Entry>, bool))
    requires PartsOk(parts) && Owned(parts, objs, disk, owner) && o in objs && f <= |objs[o].pages|
    requires AllLive(parts, disk, objs[o].pages) && r == ReallocFrom(parts, disk, objs[o].pages, pindex, f)
    ensures |r.2| == |objs[o].pages| && Reallocated(objs[o].pages, pindex, RoomElsewhere(parts, pindex), f, r.2, r.3)
    decreases |objs[o].pages| - f
  {
    var pages, room := objs[o].pages, RoomElsewhere(parts, pindex);
    if f < |pages| {
      if !Resides(pages[f], pindex) {
        ReallocExactly(parts, objs, disk, owner, o, pindex, f + 1, r);
        ReallocatedSkip(pages, pindex, room, f, r.2, r.3);
      } else {
        var parts1, objs1, disk1, owner1, e := ReallocStep(parts, objs, disk, owner, o, pindex, f);
        if e.None? {
          ReallocatedNone(pages, pindex, f);
        } else {
          ReallocExactly(parts1, objs1, disk1, owner1, o, pindex, f + 1, r);
          ReallocatedMove(pages, e, pindex, room, f, r.2, r.3);
        }
      }
    }
  }

  /** If it gets to the end it has taken one block elsewhere for each page. */
  lemma {:induction false} ReallocRoom(parts: Parts, objs: map<nat, Obj>, disk: map<Block, Data>,
                                       owner: map<Block, Slot>, o: nat, pindex: nat, f: nat,
                                       r: (Parts, map<Block, Data>, seq<Entry>, bool))
    requires PartsOk(parts) && Owned(parts, objs, disk, owner) && o in objs && f <= |objs[o].pages|
    requires AllLive(parts, disk, objs[o].pages) && r == ReallocFrom(parts, disk, objs[o].pages, pindex, f) && r.3
    ensures RoomElsewhere(r.0, pindex) + Residents(objs[o].pages, pindex, f, |objs[o].pages|)
         == RoomElsewhere(parts, pindex)
    decreases |objs[o].pages| - f
  {
    var pages := objs[o].pages;
    if f < |pages| {
      if !Resides(pages[f], pindex) {
        ReallocRoom(parts, objs, disk, owner, o, pindex, f + 1, r);
        ResidentsFrom(pages, pages, pindex, f, |pages|);
      } else {
        var parts1, objs1, disk1, owner1, e := ReallocStep(parts, objs, disk, owner, o, pindex, f);
        ReallocRoom(parts1, objs1, disk1, owner1, o, pindex, f + 1, r);
        ResidentsFrom(pages, objs1[o].pages, pindex, f, |pages|);
      }
    }
  }
}
