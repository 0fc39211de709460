/** The default pager on its arrays (bootstrap/default_pager.c): bitmaps of partitions, one-level and two-level maps
    of objects, and a disk.  Each operation is what a thread does when no other intervenes, and is proved to do on
    the arrays what it does on the values of BlockStore, where ownership is proved. */
module DefaultPager {

  import opened BlockStore
  import opened Options
  import opened PageMap
  import PartitionBitmap

  /** The results of destroy_paging_partition. */
  datatype Outcome = Unknown | Removed | Refused

  /** No two objects share anything. */
  ghost predicate Disjoint(ts: seq<PageTable>)
    reads (set t | t in ts)`Repr
  {
    forall j, k :: 0 <= j < |ts| && 0 <= k < |ts| && j != k ==>
      ts[j] != ts[k] && ts[j] !in ts[k].Repr && ts[j].Repr !! ts[k].Repr
  }

  /** All that the maps are made of. */
  ghost predicate Covers(frame: set<object>, ts: seq<PageTable>)
    reads (set t | t in ts)`Repr
  {
    forall t :: t in ts ==> t in frame && t.Repr <= frame
  }

  ghost predicate Distinct(names: seq<nat>) { forall j, k :: 0 <= j < k < |names| ==> names[j] != names[k] }

  ghost function PartOf(p: PartitionBitmap.Partition): Part
    reads p
  {
    Part(p.id, p.total, p.free, p.used, p.goingAway)
  }

  ghost function ObjOf(t: PageTable): Obj
    reads t
  {
    Obj(t.pages, t.cur)
  }

  /** Alone, a writer extends the map as if it had never dropped the lock. */
  lemma PlayAlone(pages: seq<Entry>, f: nat)
    requires GoodSize(|pages|) && f >= |pages|
    ensures Play(pages, [] + [Ext(f + 1)] + [], LIMIT) == Some(Covering(pages, f))
  {
    var ops := [] + [Ext(f + 1)] + [];
    assert ops == [Ext(f + 1)] && ops[0] == Ext(f + 1) && ops[1..] == [];
    NeverShrinks(|pages|, f + 1, LIMIT);
    Extended(pages, f + 1, LIMIT);
  }

  /** pager_write_offset once the object has a partition. */
  ghost function Placed(parts: Parts, ob: Obj, f: nat): (Parts, Obj)
    requires GoodSize(|ob.pages|) && CurOk(parts, ob.cur)
  {
    var pages := Covering(ob.pages, f);
    if pages[f].Some? then (parts, Obj(pages, ob.cur))
    else
      var (parts', cur', off) := Room(parts, ob.cur);
      (parts', Obj(if off.Some? then pages[f := Some(Block(cur', off.value))] else pages, cur'))
  }

  lemma PlacedWrites(parts: Parts, ob: Obj, f: nat)
    requires GoodSize(|ob.pages|) && CurOk(parts, ob.cur)
    ensures var size := if f > |ob.pages| then f else |ob.pages|;
            var cur := if ob.cur != NO_PARTITION then ob.cur else BlockStore.FirstChoice(parts, size);
            WriteOffset(parts, ob, f)
            == if cur == NO_PARTITION then (parts, ob) else Placed(parts, Obj(ob.pages, cur), f)
  {
  }

  lemma NewObjFacts(parts: Parts, objs: map<nat, Obj>, disk: map<Block, Data>, owner: map<Block, Slot>, o: nat,
                    bytes: nat)
    requires Owned(parts, objs, disk, owner) && o !in objs
    ensures var ob := NewObj(parts, bytes);
            && Owned(parts, objs[o := ob], disk, owner) && ObjOk(parts, ob)
            && SameContents(objs, disk, objs[o := ob], disk)
  {
    NewObjOk(parts, bytes);
    Remapped(parts, objs, objs[o := NewObj(parts, bytes)], disk, disk, owner);
  }

  /** A block is marked once the object is gone if and only if it was another object's. */
  lemma OwnersLeft(parts: Parts, objs: map<nat, Obj>, disk: map<Block, Data>, owner: map<Block, Slot>, parts': Parts,
                   owner': map<Block, Slot>, o: nat, b: Block)
    requires Owned(parts, objs, disk, owner) && Owned(parts', objs - {o}, disk, owner')
    ensures Marked(parts', b) <==> b in owner && owner[b].o != o
  {
    if b in owner { assert Maps(objs, owner[b].o, owner[b].f, b); }
    if b in owner && owner[b].o != o { assert Maps(objs - {o}, owner[b].o, owner[b].f, b); }
    if b in owner' { assert Maps(objs, owner'[b].o, owner'[b].f, b); }
  }

  /** What taking a page out of its map and giving its block back does. */
  lemma ReleaseKeeps(parts: Parts, objs: map<nat, Obj>, disk: map<Block, Data>, owner: map<Block, Slot>, o: nat, f: nat)
    requires PartsOk(parts) && Owned(parts, objs, disk, owner) && o in objs && HasPage(objs[o], f)
    requires forall x :: x in objs ==> ObjOk(parts, objs[x])
    ensures var b := objs[o].pages[f].value; Marked(parts, b) && PartOk(parts[b.index].value)
    ensures var b := objs[o].pages[f].value;
            var parts', objs' := DeallocPage(parts, b), objs[o := Obj(objs[o].pages[f := None], objs[o].cur)];
            && PartsOk(parts') && Owned(parts', objs', disk, owner - {b}) && !Marked(parts', b)
            && SameElsewhere(objs, disk, objs', disk, o, f) && forall x :: x in objs' ==> ObjOk(parts', objs'[x])
  {
    var b := objs[o].pages[f].value;
    assert Maps(objs, o, f, b) && Marked(parts, b);
    DropOld(parts, objs, disk, owner, o, f, b);
    DeallocOk(parts, b);
    SamePages(objs, o, f, None, objs[o].cur);
    Unwritten(objs, objs[o := Obj(objs[o].pages[f := None], objs[o].cur)], disk, o, f);
  }

  /** The entries of an object after pager_move_page of page `f`. */
  ghost function Moved(ob: Obj, f: nat, e: Entry): Obj
    requires f < |ob.pages|
  {
    if e.Some? then Obj(ob.pages[f := e], ob.cur) else ob
  }

  lemma MoveFacts(parts: Parts, objs: map<nat, Obj>, disk: map<Block, Data>, owner: map<Block, Slot>, o: nat, f: nat)
      returns (owner': map<Block, Slot>)
    requires PartsOk(parts) && Owned(parts, objs, disk, owner) && o in objs && HasPage(objs[o], f)
    ensures var b := objs[o].pages[f].value; Live(parts, b) && Marked(parts, b) && b in disk
    ensures var (parts', disk', e) := MovePage(parts, disk, objs[o].pages[f].value);
            var objs' := objs[o := Moved(objs[o], f, e)];
            PartsOk(parts') && Owned(parts', objs', disk', owner') && SameContents(objs, disk, objs', disk')
  {
    var b := objs[o].pages[f].value;
    assert Maps(objs, o, f, b);
    owner' := MoveKeeps(parts, objs, disk, owner, o, f, b);
    if MovePage(parts, disk, b).2.None? {
      owner' := owner;
      assert objs[o := objs[o]] == objs;
    }
  }

  /** Partition `pindex` is going away and no other is. */
  predicate OnlyGoing(parts: Parts, pindex: nat) {
    && pindex < |parts| && parts[pindex].Some? && parts[pindex].value.goingAway
    && forall i :: 0 <= i < |parts| && parts[i].Some? && parts[i].value.goingAway ==> i == pindex
  }

  /** The pages on the partition of the objects from the `k`th on. */
  ghost function OnPartition(names: seq<nat>, objs: map<nat, Obj>, pindex: nat, k: nat): nat
    requires k <= |names|
    decreases |names| - k
  {
    if k == |names| then 0
    else
      (if names[k] in objs then Residents(objs[names[k]].pages, pindex, 0, |objs[names[k]].pages|) else 0)
      + OnPartition(names, objs, pindex, k + 1)
  }

  /** Whether the partition is going away makes no difference to the room elsewhere. */
  lemma {:induction false} RoomWithout(parts: Parts, i: nat, n: nat)
    requires n <= |parts| && i < |parts| && parts[i].Some?
    ensures FreeElsewhere(SetGoing(parts, i, true), i, n) == FreeElsewhere(parts, i, n)
  {
    if n > 0 { RoomWithout(parts, i, n - 1); }
  }

  lemma {:induction false} SameOnPartition(names: seq<nat>, objs: map<nat, Obj>, objs': map<nat, Obj>, pindex: nat,
                                           k: nat)
    requires k <= |names| && forall j :: k <= j < |names| ==>
               (names[j] in objs <==> names[j] in objs') && (names[j] in objs ==> objs[names[j]] == objs'[names[j]])
    ensures OnPartition(names, objs, pindex, k) == OnPartition(names, objs', pindex, k)
    decreases |names| - k
  {
    if k < |names| { SameOnPartition(names, objs, objs', pindex, k + 1); }
  }

  /** The objects before the `k`th are clear of the partition. */
  ghost predicate ClearTo(names: seq<nat>, objs: map<nat, Obj>, pindex: nat, k: nat)
    requires k <= |names|
  {
    forall j :: 0 <= j < k ==> names[j] in objs && Clear(objs[names[j]], pindex)
  }

  /** Passing the `k`th object changes no other. */
  lemma PassCount(names: seq<nat>, objs: map<nat, Obj>, objs': map<nat, Obj>, pindex: nat, k: nat)
    requires k < |names| && Distinct(names) && names[k] in objs && names[k] in objs'
    requires objs' == objs[names[k] := objs'[names[k]]]
    ensures ClearTo(names, objs, pindex, k) && Clear(objs'[names[k]], pindex) ==> ClearTo(names, objs', pindex, k + 1)
    ensures OnPartition(names, objs, pindex, k)
         == Residents(objs[names[k]].pages, pindex, 0, |objs[names[k]].pages|)
           + OnPartition(names, objs', pindex, k + 1)
  {
    SameOnPartition(names, objs, objs', pindex, k + 1);
  }

  /** What the loop of pager_realloc comes to. */
  lemma ReallocFacts(parts: Parts, objs: map<nat, Obj>, disk: map<Block, Data>, owner: map<Block, Slot>, o: nat,
                     pindex: nat, r: (Parts, map<Block, Data>, seq<Entry>, bool))
    requires PartsOk(parts) && Owned(parts, objs, disk, owner) && o in objs && ObjOk(parts, objs[o])
    requires OnlyGoing(parts, pindex) && AllLive(parts, disk, objs[o].pages)
    requires r == ReallocFrom(parts, disk, objs[o].pages, pindex, 0)
    ensures SameLive(parts, r.0) && OnlyGoing(r.0, pindex) && |r.2| == |objs[o].pages|
    ensures r.3 <==> Residents(objs[o].pages, pindex, 0, |objs[o].pages|) <= RoomElsewhere(parts, pindex)
    ensures r.3 ==> RoomElsewhere(r.0, pindex) + Residents(objs[o].pages, pindex, 0, |objs[o].pages|)
                    == RoomElsewhere(parts, pindex)
    ensures !r.3 ==> FullExcept(r.0, pindex) && ObjOk(r.0, Obj(r.2, objs[o].cur))
    ensures r.3 ==> Clear(Obj(r.2, Choose(r.0, 0, NO_PARTITION)), pindex)
                    && ObjOk(r.0, Obj(r.2, Choose(r.0, 0, NO_PARTITION)))
  {
    ReallocExactly(parts, objs, disk, owner, o, pindex, 0, r);
    if r.3 { ReallocRoom(parts, objs, disk, owner, o, pindex, 0, r); }
    var owner' := ReallocKeeps(parts, objs, disk, owner, o, pindex, 0);
    ReallocClears(parts, disk, objs[o].pages, pindex, 0);
    OwnedLive(r.0, objs[o := objs[o].(pages := r.2)], r.1, owner', o);
    if objs[o].cur == NO_PARTITION { NothingToMove(parts, disk, objs[o].pages, pindex, 0); }
    if r.3 && Choose(r.0, 0, NO_PARTITION) == NO_PARTITION { NothingLeft(r.0, r.1, r.2, pindex); }
  }

  class Pager {
    /** all_partitions, and what is stored on them. */
    var list: seq<PartitionBitmap.Partition?>
    var disk: map<Block, Data>

    ghost var parts: Parts
    ghost var objs: map<nat, Obj>
    ghost var owner: map<Block, Slot>
    ghost var Repr: set<object>

    ghost predicate PartHeld(i: nat)
      requires i < |list| == |parts|
      reads `list, `parts, `Repr, Repr
    {
      if list[i] == null then parts[i].None?
      else list[i] in Repr && list[i].bitmap in Repr && list[i].Valid() && parts[i] == Some(PartOf(list[i]))
    }

    /** `parts` says what the partitions and their bitmaps hold. */
    ghost predicate PartsHeld()
      reads `list, `parts, `Repr, Repr
    {
      && this !in Repr && |parts| == |list| && (forall i :: 0 <= i < |list| ==> PartHeld(i))
      && forall i, j :: 0 <= i < j < |list| && list[i] != null && list[j] != null ==>
           list[i] in Repr && list[j] in Repr && list[i] != list[j] && list[i].bitmap != list[j].bitmap
    }

    /** `t` is the map of object `o`. */
    ghost predicate Has(o: nat, t: PageTable)
      reads `objs, `Repr, t, t.Repr
    {
      && o in objs && t.Valid() && objs[o] == ObjOf(t)
      && this !in t.Repr && t !in Repr && t.Repr !! Repr
    }

    /** The arrays hold what `parts` says, and every block has one owner. */
    ghost predicate Valid()
      reads this, Repr
    {
      && PartsHeld() && PartsOk(parts) && Owned(parts, objs, disk, owner)
      && forall o :: o in objs ==> ObjOk(parts, objs[o])
    }

    // -------------------------------------------------------------- one partition

    /** choose_partition. */
    method Choose(bytes: nat, cur: nat) returns (r: nat)
      requires PartsHeld()
      ensures r == BlockStore.Choose(parts, bytes, cur)
    {
      for i := 0 to |list|
        invariant BlockStore.Choose(parts, bytes, cur) == ChooseFrom(parts, bytes, cur, i)
      {
        assert PartHeld(i);
        var p := list[i];
        if i != cur && p != null && !p.goingAway && Ptoa(p.free) >= bytes {
          return i;
        }
      }
      r := NO_PARTITION;
    }

    /** pager_alloc_page on the bitmap. */
    method AllocPage(i: nat) returns (r: Option<nat>)
      requires PartsHeld() && CurOk(parts, i)
      modifies this`parts, Repr
      ensures PartsHeld() && (parts, r) == BlockStore.AllocPage(old(parts), i)
    {
      if i == NO_PARTITION {
        return None;
      }
      assert PartHeld(i);
      if list[i] == null {
        return None;
      }
      r := AllocFrom(i);
    }

    method AllocFrom(i: nat) returns (r: Option<nat>)
      requires PartsHeld() && i < |list| && list[i] != null && i != NO_PARTITION
      modifies this`parts, Repr
      ensures PartsHeld() && (parts, r) == BlockStore.AllocPage(old(parts), i)
    {
      assert PartHeld(i);
      var p := list[i];
      r := p.AllocPage();
      parts := parts[i := Some(PartOf(p))];
      forall j | 0 <= j < |list| ensures PartHeld(j) { assert old(PartHeld(j)); }
      if r.Some? {
        LowestClearIsLeast(old(p.used), r.value);
        assert PartOf(p) == Mark(old(PartOf(p)), r.value);
      } else {
        assert PartOf(p) == old(PartOf(p)) && parts == old(parts);
      }
    }

    /** pager_dealloc_page on the bitmap, for a block that is marked. */
    method DeallocPage(b: Block)
      requires PartsHeld() && Marked(parts, b) && PartOk(parts[b.index].value)
      modifies this`parts, Repr
      ensures PartsHeld() && parts == BlockStore.DeallocPage(old(parts), b)
    {
      assert PartHeld(b.index);
      var p := list[b.index];
      assert p.Valid() && b.offset in p.used && b.offset < p.total;
      p.DeallocPage(b.offset);
      assert p.Valid();
      parts := parts[b.index := Some(PartOf(p))];
      forall j | 0 <= j < |list| ensures PartHeld(j) { assert old(PartHeld(j)); }
    }

    // -------------------------------------------------------------- pager_write_offset

    /** The map covers the page and has an array for its entry. */
    method MakeRoom(o: nat, t: PageTable, f: nat)
      requires Has(o, t)
      modifies this`objs, t, t.Repr
      ensures Has(o, t) && fresh(t.Repr - old(t.Repr)) && t.HasRoom(f) && GoodSize(|old(t.pages)|)
      ensures objs == old(objs)[o := Obj(Covering(old(t.pages), f), old(t.cur))]
    {
      if f >= t.size { PlayAlone(t.pages, f); }
      var overrun := t.MakeRoom(f, LIMIT, [], []);
      objs := objs[o := ObjOf(t)];
    }

    method Store(o: nat, t: PageTable, f: nat, e: Entry)
      requires Has(o, t) && t.HasRoom(f)
      modifies this`objs, t`pages, t.Repr
      ensures Has(o, t) && f < |old(t.pages)| && objs == old(objs)[o := Obj(old(t.pages)[f := e], t.cur)]
    {
      t.Store(f, e);
      objs := objs[o := ObjOf(t)];
    }

    method Turn(o: nat, t: PageTable, cur: nat)
      requires Has(o, t)
      modifies this`objs, t`cur
      ensures Has(o, t) && objs == old(objs)[o := Obj(old(t.pages), cur)]
    {
      t.cur := cur;
      objs := objs[o := ObjOf(t)];
    }

    /** The partition for an object that has none. */
    method FirstChoice(size: nat) returns (c: nat)
      requires PartsHeld()
      ensures c == BlockStore.FirstChoice(parts, size)
    {
      c := Choose(Ptoa(size), NO_PARTITION);
      if c == NO_PARTITION { c := Choose(Ptoa(1), NO_PARTITION); }
    }

    /** A block for the page, from the object's partition or the first other one that has any. */
    method FindRoom(o: nat, t: PageTable, f: nat) returns (off: Option<nat>)
      requires PartsHeld() && Has(o, t) && CurOk(parts, t.cur) && t.HasRoom(f)
      modifies this`parts, this`objs, Repr, t`cur
      ensures PartsHeld() && Has(o, t) && t.HasRoom(f) && t.pages == old(t.pages)
      ensures (parts, t.cur, off) == Room(old(parts), old(t.cur)) && objs == old(objs)[o := Obj(t.pages, t.cur)]
    {
      off := AllocPage(t.cur);
      if off.None? {
        assert parts == old(parts);
        var other := Choose(Ptoa(1), t.cur);
        if other != NO_PARTITION {
          Turn(o, t, other);
          off := AllocPage(other);
        }
      }
      assert objs[o] == ObjOf(t);
    }

    method Place(o: nat, t: PageTable, f: nat) returns (e: Entry)
      requires PartsHeld() && Has(o, t) && CurOk(parts, t.cur)
      modifies this`parts, this`objs, Repr, t, t.Repr
      ensures PartsHeld() && Has(o, t) && fresh(t.Repr - old(t.Repr)) && GoodSize(|old(t.pages)|)
      ensures (parts, ObjOf(t)) == Placed(old(parts), old(ObjOf(t)), f) && objs == old(objs)[o := ObjOf(t)]
      ensures f < |t.pages| && e == t.pages[f]
    {
      MakeRoom(o, t, f);
      e := t.ReadOffset(f);
      if e.None? {
        var off := FindRoom(o, t, f);
        if off.Some? {
          e := Some(Block(t.cur, off.value));
          Store(o, t, f, e);
        }
      }
    }

    /** An object without a partition turns to one, if any has room. */
    method FindPartition(o: nat, t: PageTable, f: nat)
      requires PartsHeld() && Has(o, t)
      modifies this`objs, t`cur
      ensures Has(o, t) && t.pages == old(t.pages) && objs == old(objs)[o := ObjOf(t)]
      ensures var size := if f > |t.pages| then f else |t.pages|;
              t.cur == if old(t.cur) != NO_PARTITION then old(t.cur) else BlockStore.FirstChoice(parts, size)
    {
      if t.cur == NO_PARTITION {
        var c := FirstChoice(if f > t.size then f else t.size);
        Turn(o, t, c);
      }
    }

    /** pager_write_offset. */
    method WriteOffset(o: nat, t: PageTable, f: nat) returns (e: Entry)
      requires PartsHeld() && Has(o, t) && ObjOk(parts, objs[o])
      modifies this`parts, this`objs, Repr, t, t.Repr
      ensures PartsHeld() && Has(o, t) && fresh(t.Repr - old(t.Repr))
      ensures (parts, ObjOf(t)) == BlockStore.WriteOffset(old(parts), old(ObjOf(t)), f)
      ensures objs == old(objs)[o := ObjOf(t)]
      ensures e == if HasPage(ObjOf(t), f) then t.pages[f] else None
    {
      ghost var parts0, ob0 := parts, ObjOf(t);
      FindPartition(o, t, f);
      if t.cur == NO_PARTITION {
        e := None;
      } else {
        e := Place(o, t, f);
      }
      PlacedWrites(parts0, ob0, f);
    }

    // -------------------------------------------------------------- partitions and objects

    constructor ()
      ensures Valid() && parts == [] && objs == map[] && fresh(Repr)
    {
      list, disk, parts, objs, owner, Repr := [], map[], [], map[], map[], {};
    }

    /** The first empty place in the list of partitions. */
    method EmptyPlace() returns (i: nat)
      requires PartsHeld()
      ensures i == FreeIndex(parts, 0)
    {
      i := 0;
      while i < |list| && list[i] != null
        invariant i <= |list| && FreeIndex(parts, 0) == FreeIndex(parts, i)
      {
        assert PartHeld(i);
        i := i + 1;
      }
      if i < |list| { assert PartHeld(i); }
    }

    /** The list with the partition in its place; a full list is doubled. */
    method Enlist(p: PartitionBitmap.Partition, i: nat)
      requires PartsHeld() && i == FreeIndex(parts, 0) && p.Valid()
      requires p !in Repr && p.bitmap !in Repr
      modifies this`list, this`parts, this`Repr
      ensures PartsHeld() && Repr == old(Repr) + {p, p.bitmap} && parts == AddPart(old(parts), PartOf(p))
    {
      if i < |list| {
        list := list[i := p];
      } else {
        list := list + [p] + seq(if i == 0 then 1 else i - 1, _ => null);
      }
      parts := AddPart(parts, PartOf(p));
      Repr := Repr + {p, p.bitmap};
      assert list[i] == p;
      forall j | 0 <= j < |list| ensures PartHeld(j)
        ensures j != i && list[j] != null ==> list[j] in old(Repr) && list[j].bitmap in old(Repr)
      {
        if j < |old(list)| && j != i { assert old(PartHeld(j)); }
      }
    }

    /** create_paging_partition: a partition with every block free, in the first empty place. */
    method CreatePartition(id: nat, total: nat)
      requires Valid() && total < MAX_BLOCKS && FreeIndex(parts, 0) < NO_PARTITION
      modifies this`list, this`parts, this`Repr
      ensures Valid() && fresh(Repr - old(Repr)) && parts == AddPart(old(parts), Part(id, total, total, {}, false))
    {
      var i := EmptyPlace();
      ghost var parts0 := parts;
      AddPartOk(parts, Part(id, total, total, {}, false));
      var p := new PartitionBitmap.Partition(total, id);
      Enlist(p, i);
      Reparted(parts0, parts, objs, disk, owner);
      forall x | x in objs ensures ObjOk(parts, objs[x]) { SameLiveObjs(parts0, parts, objs[x]); }
    }

    /** pager_alloc: an object of the size asked for without blocks. */
    method NewObject(o: nat, bytes: nat) returns (t: PageTable)
      requires Valid() && o !in objs
      modifies this`objs
      ensures Valid() && Has(o, t) && fresh(t) && fresh(t.Repr) && objs == old(objs)[o := NewObj(parts, bytes)]
      ensures SameContents(old(objs), disk, objs, disk)
    {
      NewObjFacts(parts, objs, disk, owner, o, bytes);
      var c := Choose(bytes, NO_PARTITION);
      if c == NO_PARTITION { c := Choose(0, NO_PARTITION); }
      t := new PageTable(bytes / PAGE, c, LIMIT);
      objs := objs[o := ObjOf(t)];
    }

    // -------------------------------------------------------------- pages

    /** default_write, uninterrupted: it fails if and only if the page has no block and no partition has room; the
        page then reads as the data, every other page of every object as before, and every block has one owner. */
    method Write(o: nat, t: PageTable, f: nat, data: Data) returns (ok: bool)
      requires Valid() && Has(o, t)
      modifies this`parts, this`objs, this`disk, this`owner, Repr, t, t.Repr
      ensures Valid() && Has(o, t) && fresh(t.Repr - old(t.Repr)) && objs == old(objs)[o := ObjOf(t)]
      ensures ok <==> old(HasPage(objs[o], f)) || !AllFull(old(parts))
      ensures Content(objs, disk, o, f) == (if ok then Some(data) else None) && (!ok ==> disk == old(disk))
      ensures SameElsewhere(old(objs), old(disk), objs, disk, o, f)
    {
      ghost var owner' := WriteKeeps(parts, objs, disk, owner, o, f, data);
      NoBlockExactly(parts, objs[o], f);
      var e := WriteOffset(o, t, f);
      ok := e.Some?;
      if ok { disk := disk[e.value := data]; }
      owner := owner';
    }

    /** default_read, uninterrupted. */
    method Read(o: nat, t: PageTable, f: nat) returns (r: Option<Data>)
      requires Valid() && Has(o, t) && f < t.size
      ensures r == Content(objs, disk, o, f)
    {
      var e := t.ReadOffset(f);
      if e.None? { return None; }
      assert Maps(objs, o, f, e.value);
      r := Some(disk[e.value]);
    }

    method TakeOut(o: nat, t: PageTable, f: nat) returns (b: Block)
      requires Has(o, t) && HasPage(objs[o], f)
      modifies this`objs, t`pages, t.Repr
      ensures Has(o, t) && Some(b) == old(objs[o].pages[f])
      ensures objs == old(objs)[o := Obj(old(objs[o].pages)[f := None], old(objs[o].cur))]
    {
      b := t.ReleaseOffset(f);
      objs := objs[o := ObjOf(t)];
    }

    /** pager_release_offset, uninterrupted, of a page that has a block: the block is free, the page has none, and
        every other page reads as before. */
    method Release(o: nat, t: PageTable, f: nat)
      requires Valid() && Has(o, t) && HasPage(objs[o], f)
      modifies this`parts, this`objs, this`owner, Repr, t`pages, t.Repr
      ensures Valid() && Has(o, t) && objs == old(objs)[o := ObjOf(t)] && Content(objs, disk, o, f) == None
      ensures SameElsewhere(old(objs), disk, objs, disk, o, f)
      ensures !Marked(parts, old(objs[o].pages[f].value)) && SameLive(old(parts), parts)
    {
      ReleaseKeeps(parts, objs, disk, owner, o, f);
      var b := TakeOut(o, t, f);
      DeallocPage(b);
      owner := owner - {b};
    }

    /** The entries of the object from page `f` on still have their blocks, those before it none. */
    ghost predicate FreedTo(gone: map<nat, Obj>, was: map<Block, Slot>, o: nat, f: nat)
      reads `parts, `objs, `disk
    {
      && o in objs && o in gone && gone - {o} == objs - {o} && f <= |gone[o].pages| == |objs[o].pages|
      && PartsOk(parts) && Owned(parts, gone, disk, was)
      && forall g :: 0 <= g < |gone[o].pages| ==> gone[o].pages[g] == if g < f then None else objs[o].pages[g]
    }

    /** One page of pager_dealloc. */
    method FreeOne(o: nat, t: PageTable, f: nat, ghost gone: map<nat, Obj>, ghost was: map<Block, Slot>)
        returns (ghost gone': map<nat, Obj>, ghost was': map<Block, Slot>)
      requires PartsHeld() && Has(o, t) && FreedTo(gone, was, o, f) && f < |objs[o].pages|
      modifies this`parts, Repr
      ensures PartsHeld() && FreedTo(gone', was', o, f + 1) && SameLive(old(parts), parts)
    {
      gone', was' := gone, was;
      var e := t.ReadOffset(f);
      if e.Some? {
        assert Maps(gone, o, f, e.value) && Marked(parts, e.value) && PartOk(parts[e.value.index].value);
        DropOld(parts, gone, disk, was, o, f, e.value);
        DeallocOk(parts, e.value);
        gone' := gone[o := gone[o].(pages := gone[o].pages[f := None])];
        was' := was - {e.value};
        DeallocPage(e.value);
      }
    }

    /** The loop of pager_dealloc. */
    method FreePages(o: nat, t: PageTable) returns (ghost was: map<Block, Slot>)
      requires Valid() && Has(o, t)
      modifies this`parts, Repr
      ensures PartsHeld() && PartsOk(parts) && Owned(parts, objs - {o}, disk, was) && SameLive(old(parts), parts)
    {
      ghost var gone := objs;
      was := owner;
      var n := t.size;
      for f := 0 to n
        invariant PartsHeld() && Has(o, t) && FreedTo(gone, was, o, f) && SameLive(old(parts), parts)
      {
        gone, was := FreeOne(o, t, f, gone, was);
      }
      EmptyForgotten(parts, gone, disk, was, o);
    }

    /** pager_dealloc: the object goes, exactly its blocks are free, and every other page reads as before. */
    method Dealloc(o: nat, t: PageTable)
      requires Valid() && Has(o, t)
      modifies this`parts, this`objs, this`owner, Repr
      ensures Valid() && objs == old(objs) - {o} && SameLive(old(parts), parts)
      ensures forall b :: Marked(parts, b) <==> b in old(owner) && old(owner)[b].o != o
      ensures forall x: nat, g: nat :: x != o ==> Content(objs, disk, x, g) == Content(old(objs), disk, x, g)
    {
      ghost var was := FreePages(o, t);
      objs, owner := objs - {o}, was;
      forall b ensures Marked(parts, b) <==> b in old(owner) && old(owner)[b].o != o {
        OwnersLeft(old(parts), old(objs), disk, old(owner), parts, was, o, b);
      }
    }

    // -------------------------------------------------------------- evacuation

    /** The arrays and their owners are in order, whatever partition an object turns to. */
    ghost predicate Tidy()
      reads this, Repr
    {
      PartsHeld() && PartsOk(parts) && Owned(parts, objs, disk, owner)
    }

    /** A page with a block has an array for its entry. */
    lemma PresentHasRoom(t: PageTable, f: nat)
      requires t.Valid() && f < t.size && t.pages[f].Some?
      ensures t.HasRoom(f)
    {
      if t.size > GROUP { GroupOf(f, t.size); }
    }

    /** The block the page is to move to, if there is room elsewhere. */
    method MoveTo(b: Block) returns (e: Entry)
      requires PartsHeld() && PartsOk(parts) && Marked(parts, b) && b in disk
      modifies this`parts, this`disk, Repr
      ensures PartsHeld() && (parts, disk, e) == MovePage(old(parts), old(disk), b)
    {
      RoomForOne(parts, b.index);
      var to := Choose(Ptoa(1), b.index);
      if to == NO_PARTITION {
        return None;
      }
      AllocOk(parts, to);
      var off := AllocPage(to);
      var data := disk[b];
      assert PartOk(parts[b.index].value);
      DeallocPage(b);
      e := Some(Block(to, off.value));
      disk := disk[e.value := data];
    }

    method MoveEntry(o: nat, t: PageTable, f: nat) returns (e: Entry)
      requires PartsHeld() && PartsOk(parts) && Has(o, t) && HasPage(objs[o], f)
      requires Marked(parts, t.pages[f].value) && t.pages[f].value in disk
      modifies this`parts, this`objs, this`disk, Repr, t`pages, t.Repr
      ensures PartsHeld() && Has(o, t)
      ensures (parts, disk, e) == MovePage(old(parts), old(disk), old(objs[o].pages[f].value))
      ensures objs == old(objs)[o := Moved(old(objs[o]), f, e)]
    {
      PresentHasRoom(t, f);
      var entry := t.ReadOffset(f);
      e := MoveTo(entry.value);
      if e.Some? { Store(o, t, f, e); }
    }

    /** pager_move_page for page `f` of the object. */
    method MoveOne(o: nat, t: PageTable, f: nat) returns (e: Entry)
      requires Tidy() && Has(o, t) && HasPage(objs[o], f)
      modifies this`parts, this`objs, this`disk, this`owner, Repr, t`pages, t.Repr
      ensures Tidy() && Has(o, t) && SameContents(old(objs), old(disk), objs, disk)
      ensures old(Live(parts, objs[o].pages[f].value) && objs[o].pages[f].value in disk)
      ensures (parts, disk, e) == MovePage(old(parts), old(disk), old(objs[o].pages[f].value))
      ensures objs == old(objs)[o := Moved(old(objs[o]), f, e)]
    {
      ghost var owner' := MoveFacts(parts, objs, disk, owner, o, f);
      e := MoveEntry(o, t, f);
      owner := owner';
    }

    /** The pages before `f` have been passed: the rest of the loop does what is left of it all. */
    ghost predicate PassedTo(parts0: Parts, disk0: map<Block, Data>, ob0: Obj, o: nat, pindex: nat, f: nat)
      reads `parts, `objs, `disk
    {
      && o in objs && objs[o].cur == ob0.cur && f <= |objs[o].pages| == |ob0.pages|
      && AllLive(parts0, disk0, ob0.pages) && AllLive(parts, disk, objs[o].pages)
      && ReallocFrom(parts0, disk0, ob0.pages, pindex, 0) == ReallocFrom(parts, disk, objs[o].pages, pindex, f)
    }

    /** One round of the loop of pager_realloc. */
    method ReallocOne(o: nat, t: PageTable, pindex: nat, f: nat, ghost parts0: Parts, ghost disk0: map<Block, Data>,
                      ghost ob0: Obj) returns (ok: bool)
      requires Tidy() && Has(o, t) && PassedTo(parts0, disk0, ob0, o, pindex, f) && f < |objs[o].pages|
      modifies this`parts, this`objs, this`disk, this`owner, Repr, t`pages, t.Repr
      ensures Tidy() && Has(o, t) && SameContents(old(objs), old(disk), objs, disk) && objs == old(objs)[o := objs[o]]
      ensures ok ==> PassedTo(parts0, disk0, ob0, o, pindex, f + 1)
      ensures !ok ==> objs[o].cur == ob0.cur && AllLive(parts0, disk0, ob0.pages)
                      && ReallocFrom(parts0, disk0, ob0.pages, pindex, 0) == (parts, disk, objs[o].pages, false)
    {
      ok := true;
      var entry := t.ReadOffset(f);
      if Resides(entry, pindex) {
        var e := MoveOne(o, t, f);
        ok := e.Some?;
        OwnedLive(parts, objs, disk, owner, o);
      } else {
        assert objs == objs[o := objs[o]];
      }
    }

    /** The loop of pager_realloc. */
    method ReallocPages(o: nat, t: PageTable, pindex: nat) returns (ok: bool)
      requires Tidy() && Has(o, t)
      modifies this`parts, this`objs, this`disk, this`owner, Repr, t`pages, t.Repr
      ensures Tidy() && Has(o, t) && SameContents(old(objs), old(disk), objs, disk) && objs == old(objs)[o := objs[o]]
      ensures objs[o].cur == old(objs[o].cur) && AllLive(old(parts), old(disk), old(objs[o].pages))
      ensures ReallocFrom(old(parts), old(disk), old(objs[o].pages), pindex, 0) == (parts, disk, objs[o].pages, ok)
    {
      ghost var parts0, disk0, ob0 := parts, disk, objs[o];
      OwnedLive(parts, objs, disk, owner, o);
      var n := t.size;
      assert objs == objs[o := objs[o]];
      for f := 0 to n
        invariant Tidy() && Has(o, t) && PassedTo(parts0, disk0, ob0, o, pindex, f)
        invariant SameContents(old(objs), old(disk), objs, disk) && objs == old(objs)[o := objs[o]]
      {
        ok := ReallocOne(o, t, pindex, f, parts0, disk0, ob0);
        if !ok { return; }
      }
      ok := true;
    }

    /** The object turns to the first partition that is not going away. */
    method TurnElsewhere(o: nat, t: PageTable)
      requires Tidy() && Has(o, t)
      modifies this`objs, t`cur
      ensures Tidy() && Has(o, t) && SameContents(old(objs), disk, objs, disk)
      ensures objs == old(objs)[o := Obj(old(objs[o].pages), BlockStore.Choose(parts, 0, NO_PARTITION))]
    {
      ghost var objs1 := objs;
      var cur := Choose(0, NO_PARTITION);
      Turn(o, t, cur);
      Remapped(parts, objs1, objs, disk, disk, owner);
      Recurrent(objs1, objs, disk);
    }

    /** pager_realloc: it moves all of the object's pages off the partition if and only if there is room for them
        elsewhere, and every page reads the same whether it does or not. */
    method Realloc(o: nat, t: PageTable, pindex: nat) returns (ok: bool)
      requires Valid() && Has(o, t) && OnlyGoing(parts, pindex)
      modifies this`parts, this`objs, this`disk, this`owner, Repr, t`pages, t`cur, t.Repr
      ensures Valid() && Has(o, t) && SameContents(old(objs), old(disk), objs, disk) && objs == old(objs)[o := objs[o]]
      ensures SameLive(old(parts), parts) && OnlyGoing(parts, pindex)
      ensures ok <==> var pages := old(objs[o].pages);
                      Residents(pages, pindex, 0, |pages|) <= RoomElsewhere(old(parts), pindex)
      ensures ok ==> Clear(objs[o], pindex)
      ensures ok ==> var pages := old(objs[o].pages);
                     RoomElsewhere(parts, pindex) + Residents(pages, pindex, 0, |pages|)
                       == RoomElsewhere(old(parts), pindex)
      ensures !ok ==> FullExcept(parts, pindex)
    {
      ghost var parts0, objs0, disk0, owner0 := parts, objs, disk, owner;
      ok := ReallocPages(o, t, pindex);
      ReallocFacts(parts0, objs0, disk0, owner0, o, pindex, (parts, disk, objs[o].pages, ok));
      if ok { TurnElsewhere(o, t); }
      forall x | x in objs ensures ObjOk(parts, objs[x]) {
        if x != o { SameLiveObjs(parts0, parts, objs[x]); }
      }
    }

    /** The list of all objects: each with its map. */
    ghost predicate Lists(names: seq<nat>, ts: seq<PageTable>)
      reads `objs, `Repr, ts, set t, x | t in ts && x in t.Repr :: x
    {
      && |names| == |ts| && Distinct(names) && (forall o :: o in objs <==> o in names)
      && forall k :: 0 <= k < |ts| ==> Has(names[k], ts[k])
    }

    /** One object of the pass. */
    method Pass(names: seq<nat>, ts: seq<PageTable>, ghost frame: set<object>, pindex: nat, k: nat) returns (ok: bool)
      requires Valid() && Covers(frame, ts) && Disjoint(ts) && Lists(names, ts) && OnlyGoing(parts, pindex)
      requires k < |names| && this !in frame
      modifies this`parts, this`objs, this`disk, this`owner, Repr, frame
      ensures Valid() && Covers(frame, ts) && Disjoint(ts) && Lists(names, ts) && OnlyGoing(parts, pindex)
      ensures SameLive(old(parts), parts) && SameContents(old(objs), old(disk), objs, disk)
      ensures ok <==> var pages := old(objs[names[k]].pages);
                      Residents(pages, pindex, 0, |pages|) <= RoomElsewhere(old(parts), pindex)
      ensures ok ==> var pages := old(objs[names[k]].pages);
                     RoomElsewhere(parts, pindex) + Residents(pages, pindex, 0, |pages|)
                       == RoomElsewhere(old(parts), pindex)
      ensures names[k] in objs && objs == old(objs)[names[k] := objs[names[k]]]
      ensures ok ==> Clear(objs[names[k]], pindex)
      ensures !ok ==> FullExcept(parts, pindex)
    {
      var o, t := names[k], ts[k];
      assert Has(o, t) && t in ts;
      ok := Realloc(o, t, pindex);
      forall j | 0 <= j < |ts| ensures Has(names[j], ts[j]) {
        if j != k { assert old(Has(names[j], ts[j])) && names[j] != o && ts[j].Repr !! t.Repr; }
      }
    }

    /** One pass over all objects. */
    method EvacuateAll(names: seq<nat>, ts: seq<PageTable>, ghost frame: set<object>, pindex: nat) returns (ok: bool)
      requires Valid() && Covers(frame, ts) && Disjoint(ts) && Lists(names, ts) && OnlyGoing(parts, pindex)
      requires this !in frame
      modifies this`parts, this`objs, this`disk, this`owner, Repr, frame
      ensures Valid() && Lists(names, ts) && OnlyGoing(parts, pindex)
      ensures SameLive(old(parts), parts) && SameContents(old(objs), old(disk), objs, disk)
      ensures ok <==> OnPartition(names, old(objs), pindex, 0) <= RoomElsewhere(old(parts), pindex)
      ensures ok ==> forall o :: o in objs ==> Clear(objs[o], pindex)
      ensures !ok ==> FullExcept(parts, pindex)
    {
      ok := true;
      for k := 0 to |names|
        invariant Valid() && Covers(frame, ts) && Disjoint(ts) && Lists(names, ts) && OnlyGoing(parts, pindex)
        invariant SameLive(old(parts), parts) && SameContents(old(objs), old(disk), objs, disk)
        invariant ok && ClearTo(names, objs, pindex, k)
        invariant OnPartition(names, old(objs), pindex, 0) <= RoomElsewhere(old(parts), pindex)
             <==> OnPartition(names, objs, pindex, k) <= RoomElsewhere(parts, pindex)
      {
        ghost var objs1 := objs;
        ok := Pass(names, ts, frame, pindex, k);
        PassCount(names, objs1, objs, pindex, k);
        if !ok { return; }
      }
    }

    /** The first partition of that name. */
    method Find(id: nat) returns (i: nat)
      requires PartsHeld()
      ensures i == FindPart(parts, id, 0)
      ensures forall j :: 0 <= j < i && parts[j].Some? ==> parts[j].value.id != id
    {
      i := 0;
      while i < |list| && (list[i] == null || list[i].id != id)
        invariant i <= |list| && FindPart(parts, id, 0) == FindPart(parts, id, i)
        invariant forall j :: 0 <= j < i && parts[j].Some? ==> parts[j].value.id != id
      {
        assert PartHeld(i);
        i := i + 1;
      }
      if i < |list| { assert PartHeld(i); }
    }

    method SetGoing(i: nat, going: bool)
      requires Valid() && i < |list| && parts[i].Some?
      modifies this`parts, Repr
      ensures Valid() && parts == BlockStore.SetGoing(old(parts), i, going)
    {
      GoingOwned(parts, objs, disk, owner, i, going);
      assert PartHeld(i);
      var p := list[i];
      p.goingAway := going;
      parts := BlockStore.SetGoing(parts, i, going);
      forall j | 0 <= j < |list| ensures PartHeld(j) { assert old(PartHeld(j)); }
    }

    method Remove(i: nat)
      requires Valid() && i < |list| && forall o :: o in objs ==> Clear(objs[o], i)
      modifies this`list, this`parts
      ensures Valid() && parts == old(parts)[i := None]
    {
      FinishOwned(parts, objs, disk, owner, i);
      list := list[i := null];
      parts := parts[i := None];
      forall j | 0 <= j < |list| ensures PartHeld(j) { assert old(PartHeld(j)); }
    }

    /** destroy_paging_partition, uninterrupted: an unknown name is refused; otherwise it succeeds if and only if
        there is room elsewhere for all pages on the partition; success leaves no reference to the removed index;
        failure puts the partition back and means that everything else is full; every page of every
        object reads the same in each case. */
    method Destroy(id: nat, names: seq<nat>, ts: seq<PageTable>, ghost frame: set<object>) returns (r: Outcome)
      requires Valid() && Covers(frame, ts) && this !in frame && Disjoint(ts) && Lists(names, ts)
      requires forall i :: 0 <= i < |parts| && parts[i].Some? ==> !parts[i].value.goingAway
      modifies this`list, this`parts, this`objs, this`disk, this`owner, Repr, frame
      ensures Valid() && Lists(names, ts) && SameContents(old(objs), old(disk), objs, disk)
      ensures r.Unknown? <==> forall i :: 0 <= i < |old(parts)| && old(parts)[i].Some? ==> old(parts)[i].value.id != id
      ensures var i := FindPart(old(parts), id, 0);
              && (r.Removed? <==> !r.Unknown? && OnPartition(names, old(objs), i, 0) <= RoomElsewhere(old(parts), i))
              && (r.Removed? ==> i < |parts| && parts[i].None? && forall o :: o in objs ==> Clear(objs[o], i))
              && (r.Refused? ==> i < |parts| && Usable(parts[i]) && FullExcept(parts, i))
    {
      var i := Find(id);
      if i == |list| {
        return Unknown;
      }
      RoomWithout(parts, i, |parts|);
      SetGoing(i, true);
      r := Evacuate(i, names, ts, frame);
    }

    method Evacuate(i: nat, names: seq<nat>, ts: seq<PageTable>, ghost frame: set<object>) returns (r: Outcome)
      requires Valid() && Covers(frame, ts) && this !in frame && Disjoint(ts) && Lists(names, ts) && OnlyGoing(parts, i)
      modifies this`list, this`parts, this`objs, this`disk, this`owner, Repr, frame
      ensures Valid() && Lists(names, ts) && SameContents(old(objs), old(disk), objs, disk) && !r.Unknown?
      ensures r.Removed? <==> OnPartition(names, old(objs), i, 0) <= RoomElsewhere(old(parts), i)
      ensures i < |parts| && (r.Removed? ==> parts[i].None? && forall o :: o in objs ==> Clear(objs[o], i))
      ensures r.Refused? ==> Usable(parts[i]) && FullExcept(parts, i)
    {
      var ok := EvacuateAll(names, ts, frame, i);
      if ok {
        Remove(i);
        r := Removed;
      } else {
        SetGoing(i, false);
        r := Refused;
      }
    }
  }
}
