/** The default pager at work (bootstrap/default_pager.c): any number of threads write, read, release and free
    pages while partitions are added, evacuated and removed.  A step is what a thread does with one lock, or between
    two: finding room for a page, moving a page and using a block are steps of their own.  Between finding a block and
    using it, and between taking a block out of a map and giving it back, a thread holds no lock. */
module PagingSystem {

  import opened BlockStore
  import opened Options
  import opened PageMap
  import opened Words

  /** A thread between two steps.  The first three are in pager_write_offset, with the lock of the object. */
  datatype Pend =
    | Placing(o: nat, f: nat, data: Data)                 // the page has no block
    | Seeking(o: nat, f: nat, data: Data)                 // nor has the object's partition any
    | Chosen(o: nat, f: nat, data: Data, to: nat)         // another partition has, and is locked
    | Writing(o: nat, f: nat, b: Block, data: Data)       // default_write, after pager_write_offset
    | Reading(o: nat, f: nat, b: Block, release: bool)    // default_read, after pager_read_offset
    | Read(o: nat, f: nat)                                // default_read, before pager_release_offset

  /** destroy_paging_partition: outside its pass over the objects; in the pass, with the list locked, between two
      objects or at page `f` of one; after it. */
  datatype Phase =
    | Between
    | Passing(todo: set<nat>)
    | Visiting(todo: set<nat>, o: nat, f: nat)
    | Passed(visited: set<nat>)

  datatype Evac = Evac(pindex: nat, phase: Phase)

  /** `listed` are the objects on the list of all objects; `doomed` those taken off it to be freed, and blocks
      taken out of a map to be given back; the rest are being made. */
  datatype State = State(parts: Parts, objs: map<nat, Obj>, disk: map<Block, Data>, listed: set<nat>, doomed: set<nat>,
                         busy: map<nat, Pend>, evac: Option<Evac>)

  datatype Action =
    | CreatePart(id: nat, total: nat)                     // create_paging_partition
    | Make(o: nat, bytes: nat)                            // pager_port_alloc
    | List(o: nat)                                        // pager_port_list_insert
    | Claim(t: nat, o: nat, f: nat, data: Data)           // default_write: pager_write_offset, up to the entry
    | Try(t: nat)                                         // pager_alloc_page in the object's partition
    | Seek(t: nat)                                        // choose_partition, which leaves its choice locked
    | Take(t: nat)                                        // pager_alloc_page there
    | Lookup(t: nat, o: nat, f: nat, release: bool)       // default_read: pager_read_offset
    | Transfer(t: nat)                                    // partition_of, then the device
    | TakeOut(t: nat, h: nat)                             // pager_release_offset: out of the map
    | Unlist(o: nat)                                      // pager_port_list_delete
    | GiveBack(h: nat, f: nat)                            // pager_dealloc_page
    | Forget(h: nat)                                      // every block given back
    | BeginDestroy(id: nat)
    | StartPass
    | Visit(o: nat)                                       // pager_realloc begins
    | MoveNext                                            // its next page
    | Leave                                               // it has got to the end
    | StartOver                                           // an object's lock was busy
    | EndPass
    | FinishDestroy

  // ---------------------------------------------------------------- locks

  predicate InPass(s: State) { s.evac.Some? && (s.evac.value.phase.Passing? || s.evac.value.phase.Visiting?) }

  /** all_pagers.lock is free. */
  predicate ListFree(s: State) { !InPass(s) }

  /** The lock of the partition is held by destroy_paging_partition. */
  predicate PartLocked(s: State, i: nat) { s.evac.Some? && s.evac.value.pindex == i && !s.evac.value.phase.Between? }

  /** No thread has left choose_partition with the lock of the partition. */
  predicate PartFree(s: State, i: nat) { forall t :: t in s.busy && s.busy[t].Chosen? ==> s.busy[t].to != i }

  predicate Visits(s: State, o: nat) { s.evac.Some? && s.evac.value.phase.Visiting? && s.evac.value.phase.o == o }

  /** The thread is in pager_write_offset. */
  predicate Placer(p: Pend) { p.Placing? || p.Seeking? || p.Chosen? }

  /** The lock of the object is free. */
  predicate PagerFree(s: State, o: nat) {
    !Visits(s, o) && forall t :: t in s.busy && Placer(s.busy[t]) ==> s.busy[t].o != o
  }

  /** No request for the page is being served: the kernel has one at a time. */
  predicate Idle(s: State, o: nat, f: nat) { forall t :: t in s.busy ==> s.busy[t].o != o || s.busy[t].f != f }

  predicate CanAlloc(parts: Parts, i: nat) { i < |parts| && Usable(parts[i]) }

  /** Where choose_partition would turn from partition `i`, if that one is not locked. */
  predicate OtherFree(s: State, i: nat) {
    var to := Choose(s.parts, Ptoa(1), i); to == NO_PARTITION || PartFree(s, to)
  }

  // ---------------------------------------------------------------- steps

  predicate Enabled(s: State, a: Action) {
    match a
    case CreatePart(id, total) => total < MAX_BLOCKS && FreeIndex(s.parts, 0) < NO_PARTITION
    case Make(o, bytes) => o !in s.objs && bytes < WORD
    case List(o) => o in s.objs && o !in s.listed && o !in s.doomed && ListFree(s)
    case Claim(t, o, f, data) =>
      t !in s.busy && o in s.listed && o in s.objs && f < MAX_BLOCKS && Idle(s, o, f) && PagerFree(s, o)
    case Try(t) =>
      && t in s.busy && s.busy[t].Placing? && s.busy[t].o in s.objs
      && (CanAlloc(s.parts, s.objs[s.busy[t].o].cur) ==> PartFree(s, s.objs[s.busy[t].o].cur))
    case Seek(t) =>
      t in s.busy && s.busy[t].Seeking? && s.busy[t].o in s.objs && OtherFree(s, s.objs[s.busy[t].o].cur)
    case Take(t) => t in s.busy && s.busy[t].Chosen? && s.busy[t].o in s.objs
    case Lookup(t, o, f, release) =>
      t !in s.busy && o in s.listed && o in s.objs && f < |s.objs[o].pages| && Idle(s, o, f) && PagerFree(s, o)
    case Transfer(t) => t in s.busy && (s.busy[t].Writing? || s.busy[t].Reading?)
    case TakeOut(t, h) =>
      t in s.busy && s.busy[t].Read? && s.busy[t].o in s.objs && h !in s.objs && PagerFree(s, s.busy[t].o)
    case Unlist(o) => o in s.listed && ListFree(s) && forall t :: t in s.busy ==> s.busy[t].o != o
    case GiveBack(h, f) =>
      && h in s.doomed && h in s.objs && HasPage(s.objs[h], f)
      && !PartLocked(s, s.objs[h].pages[f].value.index) && PartFree(s, s.objs[h].pages[f].value.index)
    case Forget(h) => h in s.doomed && h in s.objs && Empty(s.objs[h].pages)
    case BeginDestroy(id) => s.evac.None?
    case StartPass => s.evac.Some? && s.evac.value.phase.Between? && PartFree(s, s.evac.value.pindex)
    case Visit(o) =>
      && s.evac.Some? && s.evac.value.phase.Passing? && o in s.evac.value.phase.todo && o in s.objs
      && PagerFree(s, o)
    case MoveNext =>
      && s.evac.Some? && s.evac.value.phase.Visiting? && s.evac.value.phase.o in s.objs
      && s.evac.value.phase.f < |s.objs[s.evac.value.phase.o].pages|
      && (OnPart(s) ==> OtherFree(s, s.evac.value.pindex))
    case Leave =>
      && s.evac.Some? && s.evac.value.phase.Visiting? && s.evac.value.phase.o in s.objs
      && s.evac.value.phase.f == |s.objs[s.evac.value.phase.o].pages|
    case StartOver => s.evac.Some? && s.evac.value.phase.Passing?
    case EndPass => s.evac.Some? && s.evac.value.phase.Passing? && s.evac.value.phase.todo == {}
    case FinishDestroy => s.evac.Some? && s.evac.value.phase.Passed?
  }

  /** The page that pager_realloc has come to is on the partition. */
  predicate OnPart(s: State)
    requires s.evac.Some? && s.evac.value.phase.Visiting? && s.evac.value.phase.o in s.objs
    requires s.evac.value.phase.f < |s.objs[s.evac.value.phase.o].pages|
  {
    Resides(s.objs[s.evac.value.phase.o].pages[s.evac.value.phase.f], s.evac.value.pindex)
  }

  /** The object and its map are in order for pager_write_offset to store an entry. */
  predicate Storable(s: State, p: Pend) {
    p.o in s.objs && p.f < |s.objs[p.o].pages| && CurOk(s.parts, s.objs[p.o].cur)
  }

  /** The step uses a partition that is not there, or an entry that is not in the map. */
  predicate Faults(s: State, a: Action)
    requires Enabled(s, a)
  {
    match a
    case Claim(t, o, f, data) => !(GoodSize(|s.objs[o].pages|) && CurOk(s.parts, s.objs[o].cur))
    case Try(t) => !Storable(s, s.busy[t])
    case Take(t) => !Storable(s, s.busy[t])
    case Transfer(t) => !Live(s.parts, s.busy[t].b)
    case TakeOut(t, h) => !HasPage(s.objs[s.busy[t].o], s.busy[t].f)
    case GiveBack(h, f) => !Live(s.parts, s.objs[h].pages[f].value)
    case MoveNext =>
      OnPart(s) && !(var b := s.objs[s.evac.value.phase.o].pages[s.evac.value.phase.f].value;
                     Live(s.parts, b) && b in s.disk)
    case FinishDestroy => s.evac.value.pindex >= |s.parts|
    case _ => false
  }

  /** What a block reads as before it has been written. */
  function OldData(disk: map<Block, Data>, b: Block): Data { if b in disk then disk[b] else [] }

  /** The partition of the object once pager_write_offset has looked for one. */
  function Turned(parts: Parts, ob: Obj, f: nat): nat {
    if ob.cur != NO_PARTITION then ob.cur else FirstChoice(parts, if f > |ob.pages| then f else |ob.pages|)
  }

  function DoClaim(s: State, t: nat, o: nat, f: nat, data: Data): State
    requires o in s.objs && GoodSize(|s.objs[o].pages|)
  {
    var cur, pages := Turned(s.parts, s.objs[o], f), Covering(s.objs[o].pages, f);
    if cur == NO_PARTITION then s
    else
      s.(objs := s.objs[o := Obj(pages, cur)],
         busy := s.busy[t := if pages[f].Some? then Writing(o, f, pages[f].value, data) else Placing(o, f, data)])
  }

  /** pager_alloc_page in the object's partition, and the entry stored; `otherwise` if there is no room. */
  function DoPlace(s: State, t: nat, otherwise: map<nat, Pend>): State
    requires t in s.busy && Placer(s.busy[t]) && Storable(s, s.busy[t])
  {
    var p, ob := s.busy[t], s.objs[s.busy[t].o];
    var (parts', off) := AllocPage(s.parts, ob.cur);
    if off.None? then s.(busy := otherwise)
    else
      var b := Block(ob.cur, off.value);
      s.(parts := parts', disk := s.disk[b := OldData(s.disk, b)],
         objs := s.objs[p.o := ob.(pages := ob.pages[p.f := Some(b)])],
         busy := s.busy[t := Writing(p.o, p.f, b, p.data)])
  }

  /** The object turns to the partition chosen. */
  function TurnTo(s: State, t: nat, to: nat): State
    requires t in s.busy && s.busy[t].Seeking? && s.busy[t].o in s.objs
  {
    var p := s.busy[t];
    s.(objs := s.objs[p.o := s.objs[p.o].(cur := to)], busy := s.busy[t := Chosen(p.o, p.f, p.data, to)])
  }

  function DoSeek(s: State, t: nat): State
    requires t in s.busy && s.busy[t].Seeking? && s.busy[t].o in s.objs
  {
    var to := Choose(s.parts, Ptoa(1), s.objs[s.busy[t].o].cur);
    if to == NO_PARTITION then s.(busy := s.busy - {t})
    else TurnTo(s, t, to)
  }

  function DoTransfer(s: State, t: nat): State
    requires t in s.busy && (s.busy[t].Writing? || s.busy[t].Reading?)
  {
    match s.busy[t]
    case Writing(o, f, b, data) => s.(disk := s.disk[b := data], busy := s.busy - {t})
    case Reading(o, f, b, release) => s.(busy := if release then s.busy[t := Read(o, f)] else s.busy - {t})
  }

  function WithPhase(s: State, phase: Phase): State
    requires s.evac.Some?
  {
    s.(evac := Some(s.evac.value.(phase := phase)))
  }

  function Unvisited(s: State, o: nat): State {
    if s.evac.Some? && s.evac.value.phase.Passed? then WithPhase(s, Passed(s.evac.value.phase.visited - {o})) else s
  }

  /** pager_realloc at its next page: a page on the partition is moved, or the evacuation fails. */
  function DoMove(s: State): State
    requires Enabled(s, MoveNext) && !Faults(s, MoveNext)
  {
    var e := s.evac.value;
    var ph, ob := e.phase, s.objs[e.phase.o];
    var on := WithPhase(s, Visiting(ph.todo, ph.o, ph.f + 1));
    if !OnPart(s) then on
    else
      var (parts', disk', e') := MovePage(s.parts, s.disk, ob.pages[ph.f].value);
      if e'.None? then s.(parts := SetGoing(s.parts, e.pindex, false), evac := None)
      else on.(parts := parts', disk := disk', objs := s.objs[ph.o := ob.(pages := ob.pages[ph.f := e'])])
  }

  function DoLeave(s: State): State
    requires Enabled(s, Leave)
  {
    var ph := s.evac.value.phase;
    WithPhase(s, Passing(ph.todo - {ph.o})).(
      objs := s.objs[ph.o := s.objs[ph.o].(cur := Choose(s.parts, 0, NO_PARTITION))])
  }

  function Apply(s: State, a: Action): State
    requires Enabled(s, a) && !Faults(s, a)
  {
    match a
    case CreatePart(id, total) => s.(parts := AddPart(s.parts, Part(id, total, total, {}, false)))
    case Make(o, bytes) => s.(objs := s.objs[o := NewObj(s.parts, bytes)])
    case List(o) => s.(listed := s.listed + {o})
    case Claim(t, o, f, data) => DoClaim(s, t, o, f, data)
    case Try(t) => DoPlace(s, t, s.busy[t := Seeking(s.busy[t].o, s.busy[t].f, s.busy[t].data)])
    case Seek(t) => DoSeek(s, t)
    case Take(t) => DoPlace(s, t, s.busy - {t})
    case Lookup(t, o, f, release) =>
      if HasPage(s.objs[o], f) then s.(busy := s.busy[t := Reading(o, f, s.objs[o].pages[f].value, release)]) else s
    case Transfer(t) => DoTransfer(s, t)
    case TakeOut(t, h) =>
      s.(objs := TakenOut(s.objs, s.busy[t].o, s.busy[t].f, h), doomed := s.doomed + {h}, busy := s.busy - {t})
    case Unlist(o) => Unvisited(s, o).(listed := s.listed - {o}, doomed := s.doomed + {o})
    case GiveBack(h, f) =>
      var ob := s.objs[h];
      s.(parts := DeallocPage(s.parts, ob.pages[f].value), objs := s.objs[h := ob.(pages := ob.pages[f := None])])
    case Forget(h) => s.(objs := s.objs - {h}, doomed := s.doomed - {h})
    case BeginDestroy(id) =>
      var i := FindPart(s.parts, id, 0);
      if i == |s.parts| then s else s.(parts := SetGoing(s.parts, i, true), evac := Some(Evac(i, Between)))
    case StartPass => WithPhase(s, Passing(s.listed))
    case Visit(o) => WithPhase(s, Visiting(s.evac.value.phase.todo, o, 0))
    case MoveNext => DoMove(s)
    case Leave => DoLeave(s)
    case StartOver => WithPhase(s, Between)
    case EndPass => WithPhase(s, Passed(s.listed))
    case FinishDestroy => s.(parts := s.parts[s.evac.value.pindex := None], evac := None)
  }

  // ---------------------------------------------------------------- invariant

  /** Objects being made have no pages. */
  predicate SetsOk(s: State) {
    && s.listed <= s.objs.Keys && s.doomed <= s.objs.Keys && s.listed !! s.doomed
    && forall o :: o in s.objs && o !in s.listed && o !in s.doomed ==> Empty(s.objs[o].pages)
  }

  /** A thread that has a block has the block of its page; one that looks for a block has a page without. */
  predicate Aimed(s: State, p: Pend) {
    && p.o in s.listed && p.o in s.objs && p.f < |s.objs[p.o].pages|
    && if p.Read? then s.objs[p.o].pages[p.f].Some?
       else if Placer(p) then s.objs[p.o].pages[p.f].None? && s.objs[p.o].cur != NO_PARTITION
       else s.objs[p.o].pages[p.f] == Some(p.b)
  }

  /** The threads have a page each. */
  predicate Apart(busy: map<nat, Pend>) {
    forall t, u :: t in busy && u in busy && t != u ==> busy[t].o != busy[u].o || busy[t].f != busy[u].f
  }

  predicate BusyOk(s: State) { (forall t :: t in s.busy ==> Aimed(s, s.busy[t])) && Apart(s.busy) }

  /** A partition that is locked for a thread to take a block has one, and the object has turned to it. */
  predicate Held(s: State, p: Pend)
    requires p.Chosen?
  {
    && p.to < |s.parts| && p.to != NO_PARTITION && s.parts[p.to].Some? && s.parts[p.to].value.free > 0
    && p.o in s.objs && s.objs[p.o].cur == p.to && !PartLocked(s, p.to)
  }

  /** Objects and partitions are locked once. */
  predicate Single(busy: map<nat, Pend>) {
    forall t, u :: t in busy && u in busy && t != u ==>
      && (Placer(busy[t]) && Placer(busy[u]) ==> busy[t].o != busy[u].o)
      && (busy[t].Chosen? && busy[u].Chosen? ==> busy[t].to != busy[u].to)
  }

  predicate LocksOk(s: State) {
    && Single(s.busy) && (forall t :: t in s.busy && s.busy[t].Chosen? ==> Held(s, s.busy[t]))
    && forall t :: t in s.busy && Placer(s.busy[t]) ==> !Visits(s, s.busy[t].o)
  }

  /** At most the partition being evacuated is going away. */
  predicate GoingOk(s: State) {
    && (forall i :: 0 <= i < |s.parts| && s.parts[i].Some? && s.parts[i].value.goingAway ==>
          s.evac.Some? && s.evac.value.pindex == i)
    && (s.evac.Some? ==>
          s.evac.value.pindex < |s.parts| && s.parts[s.evac.value.pindex].Some?
          && s.parts[s.evac.value.pindex].value.goingAway)
  }

  /** The objects on the list that have been left are clear of the partition. */
  predicate LeftClear(s: State, todo: set<nat>, i: nat) {
    todo <= s.listed && forall o :: o in s.listed && o !in todo && o in s.objs ==> Clear(s.objs[o], i)
  }

  /** The pages of the object before `f` are clear of it. */
  predicate ClearTo(ob: Obj, i: nat, f: nat) {
    f <= |ob.pages| && forall g :: 0 <= g < f ==> !Resides(ob.pages[g], i)
  }

  /** The objects already visited are clear of it, and after the pass nothing on the list is on it. */
  predicate PassOk(s: State) {
    s.evac.Some? ==>
      var i := s.evac.value.pindex;
      match s.evac.value.phase
      case Between => true
      case Passing(todo) => LeftClear(s, todo, i)
      case Visiting(todo, o, f) => LeftClear(s, todo, i) && o in todo && o in s.objs && ClearTo(s.objs[o], i, f)
      case Passed(visited) =>
        && visited <= s.listed && (forall o :: o in s.listed && o in s.objs ==> ClearPages(s.objs[o].pages, i))
        && forall o :: o in visited && o in s.objs ==> s.objs[o].cur != i
  }

  predicate ObjsOk(s: State) { forall o :: o in s.objs ==> ObjOk(s.parts, s.objs[o]) }

  ghost predicate HasOwners(s: State) { exists owner :: Owned(s.parts, s.objs, s.disk, owner) }

  /** Everything but the ownership of blocks. */
  predicate InOrder(s: State) { ObjsOk(s) && SetsOk(s) && BusyOk(s) && LocksOk(s) && GoingOk(s) && PassOk(s) }

  ghost predicate Inv(s: State) { PartsOk(s.parts) && HasOwners(s) && InOrder(s) }

  /** The next step of pager_realloc gives the page another block. */
  predicate Moves(s: State)
    requires Enabled(s, MoveNext)
  {
    OnPart(s) && !FullExcept(s.parts, s.evac.value.pindex)
  }

  /** The thread has found the block of that page and not yet used it. */
  predicate InTransfer(p: Pend, o: nat, f: nat) { (p.Writing? || p.Reading?) && p.o == o && p.f == f }

  /** When a page is moved no transfer is outstanding on it; when the partition is removed no block of it is waiting
      to be given back. */
  predicate Quiet(s: State, a: Action)
    requires Enabled(s, a)
  {
    match a
    case MoveNext =>
      Moves(s) ==> forall t :: t in s.busy ==> !InTransfer(s.busy[t], s.evac.value.phase.o, s.evac.value.phase.f)
    case FinishDestroy => forall h :: h in s.doomed && h in s.objs ==> ClearPages(s.objs[h].pages, s.evac.value.pindex)
    case _ => true
  }

  // ---------------------------------------------------------------- no step faults

  lemma MappedLive(s: State, o: nat, f: nat)
    requires HasOwners(s) && o in s.objs && HasPage(s.objs[o], f)
    ensures Live(s.parts, s.objs[o].pages[f].value) && Marked(s.parts, s.objs[o].pages[f].value)
    ensures s.objs[o].pages[f].value in s.disk
  {
    var owner :| Owned(s.parts, s.objs, s.disk, owner);
    assert Maps(s.objs, o, f, s.objs[o].pages[f].value);
  }

  lemma ObjAllLive(s: State, o: nat)
    requires HasOwners(s) && o in s.objs
    ensures AllLive(s.parts, s.disk, s.objs[o].pages)
  {
    var owner :| Owned(s.parts, s.objs, s.disk, owner);
    OwnedLive(s.parts, s.objs, s.disk, owner, o);
  }

  /** From a state in order no step uses a partition or an entry that is not there. */
  lemma NoFault(s: State, a: Action)
    requires Inv(s) && Enabled(s, a)
    ensures !Faults(s, a)
  {
    match a {
      case Claim(t, o, f, data) => assert ObjOk(s.parts, s.objs[o]);
      case Try(t) => assert Aimed(s, s.busy[t]) && ObjOk(s.parts, s.objs[s.busy[t].o]);
      case Take(t) => assert Aimed(s, s.busy[t]) && ObjOk(s.parts, s.objs[s.busy[t].o]);
      case Transfer(t) => assert Aimed(s, s.busy[t]); MappedLive(s, s.busy[t].o, s.busy[t].f);
      case TakeOut(t, h) => assert Aimed(s, s.busy[t]);
      case GiveBack(h, f) => MappedLive(s, h, f);
      case MoveNext => if OnPart(s) { MappedLive(s, s.evac.value.phase.o, s.evac.value.phase.f); }
      case _ =>
    }
  }

  // ---------------------------------------------------------------- what does not matter to whom

  /** Steps that change neither partitions nor maps nor the disk. */
  predicate SameStore(s: State, t: State) { t.parts == s.parts && t.objs == s.objs && t.disk == s.disk }

  lemma SameStoreInv(s: State, t: State)
    requires Inv(s) && SameStore(s, t) && InOrder(t)
    ensures Inv(t)
  {
    var owner :| Owned(s.parts, s.objs, s.disk, owner);
    assert Owned(t.parts, t.objs, t.disk, owner);
  }

  /** The threads go on as before if their objects are where they were, and the partitions they hold have room. */
  predicate Undisturbed(s: State, r: State) {
    forall t :: t in r.busy ==>
      && t in s.busy && r.busy[t] == s.busy[t] && (Aimed(s, s.busy[t]) ==> Aimed(r, s.busy[t]))
      && (s.busy[t].Chosen? && Held(s, s.busy[t]) ==> Held(r, s.busy[t]))
      && (Placer(s.busy[t]) && !Visits(s, s.busy[t].o) ==> !Visits(r, s.busy[t].o))
  }

  lemma ThreadsKept(s: State, r: State)
    requires BusyOk(s) && LocksOk(s) && Undisturbed(s, r)
    ensures BusyOk(r) && LocksOk(r)
  {
  }

  /** The step of one thread, which others do not notice. */
  lemma ThreadMoves(s: State, r: State, t: nat, p: Pend)
    requires BusyOk(s) && LocksOk(s) && r.busy == s.busy[t := p] && Undisturbed(s, r.(busy := s.busy - {t}))
    requires Aimed(r, p) && (p.Chosen? ==> Held(r, p)) && (Placer(p) ==> !Visits(r, p.o))
    requires forall u :: u in s.busy && u != t ==> s.busy[u].o != p.o || s.busy[u].f != p.f
    requires Placer(p) ==> forall u :: u in s.busy && u != t && Placer(s.busy[u]) ==> s.busy[u].o != p.o
    requires p.Chosen? ==> forall u :: u in s.busy && u != t && s.busy[u].Chosen? ==> s.busy[u].to != p.to
    ensures BusyOk(r) && LocksOk(r)
  {
    var rest := r.(busy := s.busy - {t});
    ThreadsKept(s, rest);
    OneMore(s.busy, t, p);
    forall u | u in r.busy ensures Joins(r, r.busy[u]) {
      if u != t { assert Joins(rest, rest.busy[u]); }
    }
  }

  /** All that is said of one thread alone. */
  predicate Joins(s: State, p: Pend) {
    Aimed(s, p) && (Placer(p) ==> !Visits(s, p.o)) && (p.Chosen? ==> Held(s, p))
  }

  lemma OneMore(busy: map<nat, Pend>, t: nat, p: Pend)
    requires Apart(busy) && Single(busy)
    requires forall u :: u in busy && u != t ==> busy[u].o != p.o || busy[u].f != p.f
    requires Placer(p) ==> forall u :: u in busy && u != t && Placer(busy[u]) ==> busy[u].o != p.o
    requires p.Chosen? ==> forall u :: u in busy && u != t && busy[u].Chosen? ==> busy[u].to != p.to
    ensures Apart(busy[t := p]) && Single(busy[t := p])
  {
  }

  /** Steps that change no more than the list of partitions. */
  lemma PartsOrder(s: State, t: State)
    requires InOrder(s) && t.objs == s.objs && t.listed == s.listed && t.doomed == s.doomed && t.busy == s.busy
    requires |t.parts| >= |s.parts| && GoingOk(t) && PassOk(t) && LocksOk(t)
    ensures InOrder(t)
  {
    forall x | x in t.objs ensures ObjOk(t.parts, t.objs[x]) { SameLiveObjs(s.parts, t.parts, s.objs[x]); }
    forall p | p in t.busy ensures Aimed(t, t.busy[p]) { assert Aimed(s, s.busy[p]); }
  }

  // ---------------------------------------------------------------- steps that move nothing

  lemma ListOrder(s: State, o: nat)
    requires InOrder(s) && Enabled(s, List(o))
    ensures InOrder(Apply(s, List(o)))
  {
    ThreadsKept(s, Apply(s, List(o)));
  }

  lemma LookupOrder(s: State, t: nat, o: nat, f: nat, release: bool)
    requires InOrder(s) && Enabled(s, Lookup(t, o, f, release))
    ensures InOrder(Apply(s, Lookup(t, o, f, release)))
  {
    var r := Apply(s, Lookup(t, o, f, release));
    if HasPage(s.objs[o], f) { ThreadMoves(s, r, t, r.busy[t]); }
  }

  lemma UnlistOrder(s: State, o: nat)
    requires InOrder(s) && Enabled(s, Unlist(o))
    ensures InOrder(Apply(s, Unlist(o)))
  {
    var t := Apply(s, Unlist(o));
    assert ObjsOk(t) && SetsOk(t) && GoingOk(t) && PassOk(t);
    UnlistThreads(s, o);
  }

  lemma UnlistThreads(s: State, o: nat)
    requires BusyOk(s) && LocksOk(s) && Enabled(s, Unlist(o))
    ensures var t := Apply(s, Unlist(o)); BusyOk(t) && LocksOk(t)
  {
    ThreadsKept(s, Apply(s, Unlist(o)));
  }

  /** Another phase, with the locks it needs. */
  lemma PhaseKept(s: State, phase: Phase)
    requires InOrder(s) && s.evac.Some? && PassOk(WithPhase(s, phase))
    requires phase.Between? || !s.evac.value.phase.Between? || PartFree(s, s.evac.value.pindex)
    requires phase.Visiting? ==> forall t :: t in s.busy && Placer(s.busy[t]) ==> s.busy[t].o != phase.o
    ensures InOrder(WithPhase(s, phase))
  {
    ThreadsKept(s, WithPhase(s, phase));
  }

  /** Steps of the pass between two objects. */
  predicate PhaseStep(a: Action) { a.StartPass? || a.Visit? || a.StartOver? || a.EndPass? }

  lemma PhasePass(s: State, a: Action)
    requires SetsOk(s) && PassOk(s) && Enabled(s, a) && PhaseStep(a)
    ensures s.evac.Some? && Apply(s, a) == WithPhase(s, Apply(s, a).evac.value.phase) && PassOk(Apply(s, a))
    ensures var phase := Apply(s, a).evac.value.phase;
            && (phase.Between? || !s.evac.value.phase.Between? || PartFree(s, s.evac.value.pindex))
            && (phase.Visiting? ==> PagerFree(s, phase.o))
  {
  }

  lemma PhaseInv(s: State, a: Action)
    requires Inv(s) && Enabled(s, a) && PhaseStep(a)
    ensures Inv(Apply(s, a))
  {
    PhasePass(s, a);
    var phase := Apply(s, a).evac.value.phase;
    PhaseKept(s, phase);
    SameStoreInv(s, WithPhase(s, phase));
  }

  /** Other steps that change neither partitions nor maps nor the disk. */
  predicate Bookkeeping(a: Action) { a.List? || a.Lookup? || a.Unlist? }

  lemma BookkeepingInv(s: State, a: Action)
    requires Inv(s) && Enabled(s, a) && Bookkeeping(a)
    ensures Inv(Apply(s, a))
  {
    if a.List? {
      ListOrder(s, a.o);
    } else if a.Lookup? {
      LookupOrder(s, a.t, a.o, a.f, a.release);
    } else {
      UnlistOrder(s, a.o);
    }
    SameStoreInv(s, Apply(s, a));
  }

  // ---------------------------------------------------------------- making and forgetting

  lemma CreatePartInv(s: State, id: nat, total: nat)
    requires Inv(s) && Enabled(s, CreatePart(id, total))
    ensures Inv(Apply(s, CreatePart(id, total)))
  {
    var owner :| Owned(s.parts, s.objs, s.disk, owner);
    var t := Apply(s, CreatePart(id, total));
    AddPartOk(s.parts, Part(id, total, total, {}, false));
    Reparted(s.parts, t.parts, s.objs, s.disk, owner);
    ThreadsKept(s, t);
    PartsOrder(s, t);
  }

  lemma BeginDestroyOwned(s: State, id: nat)
    requires PartsOk(s.parts) && HasOwners(s) && Enabled(s, BeginDestroy(id))
    ensures PartsOk(Apply(s, BeginDestroy(id)).parts) && HasOwners(Apply(s, BeginDestroy(id)))
  {
    var owner :| Owned(s.parts, s.objs, s.disk, owner);
    var i := FindPart(s.parts, id, 0);
    if i < |s.parts| { GoingOwned(s.parts, s.objs, s.disk, owner, i, true); }
  }

  lemma BeginDestroyInv(s: State, id: nat)
    requires Inv(s) && Enabled(s, BeginDestroy(id))
    ensures Inv(Apply(s, BeginDestroy(id)))
  {
    BeginDestroyOwned(s, id);
    BeginDestroyOrder(s, id);
  }

  lemma BeginDestroyOrder(s: State, id: nat)
    requires InOrder(s) && Enabled(s, BeginDestroy(id))
    ensures InOrder(Apply(s, BeginDestroy(id)))
  {
    ThreadsKept(s, Apply(s, BeginDestroy(id)));
    PartsOrder(s, Apply(s, BeginDestroy(id)));
  }

  lemma MakeInv(s: State, o: nat, bytes: nat)
    requires Inv(s) && Enabled(s, Make(o, bytes))
    ensures Inv(Apply(s, Make(o, bytes)))
  {
    var owner :| Owned(s.parts, s.objs, s.disk, owner);
    NewObjOk(s.parts, bytes);
    Remapped(s.parts, s.objs, Apply(s, Make(o, bytes)).objs, s.disk, s.disk, owner);
    MakeOrder(s, o, bytes);
  }

  lemma MakeOrder(s: State, o: nat, bytes: nat)
    requires InOrder(s) && Enabled(s, Make(o, bytes))
    ensures InOrder(Apply(s, Make(o, bytes)))
  {
    NewObjOk(s.parts, bytes);
    ThreadsKept(s, Apply(s, Make(o, bytes)));
  }

  lemma ForgetOwned(s: State, h: nat)
    requires HasOwners(s) && Enabled(s, Forget(h))
    ensures HasOwners(Apply(s, Forget(h)))
  {
    var owner :| Owned(s.parts, s.objs, s.disk, owner);
    EmptyForgotten(s.parts, s.objs, s.disk, owner, h);
  }

  lemma ForgetInv(s: State, h: nat)
    requires Inv(s) && Enabled(s, Forget(h))
    ensures Inv(Apply(s, Forget(h)))
  {
    ForgetOwned(s, h);
    ForgetOrder(s, h);
  }

  lemma ForgetOrder(s: State, h: nat)
    requires InOrder(s) && Enabled(s, Forget(h))
    ensures InOrder(Apply(s, Forget(h)))
  {
    forall p | p in s.busy ensures s.busy[p].o != h { assert Aimed(s, s.busy[p]); }
    ThreadsKept(s, Apply(s, Forget(h)));
  }

  /** Steps that make or forget something. */
  predicate ListStep(a: Action) { a.CreatePart? || a.Make? || a.Forget? || a.BeginDestroy? }

  lemma ListStepInv(s: State, a: Action)
    requires Inv(s) && Enabled(s, a) && ListStep(a)
    ensures Inv(Apply(s, a))
  {
    match a {
      case CreatePart(id, total) => CreatePartInv(s, id, total);
      case Make(o, bytes) => MakeInv(s, o, bytes);
      case Forget(h) => ForgetInv(s, h);
      case BeginDestroy(id) => BeginDestroyInv(s, id);
    }
  }

  // ---------------------------------------------------------------- using and returning a block

  lemma TransferInv(s: State, t: nat)
    requires Inv(s) && Enabled(s, Transfer(t)) && !Faults(s, Transfer(t))
    ensures Inv(Apply(s, Transfer(t)))
  {
    var owner :| Owned(s.parts, s.objs, s.disk, owner);
    var r := Apply(s, Transfer(t));
    Remapped(s.parts, s.objs, r.objs, s.disk, r.disk, owner);
    TransferOrder(s, t);
  }

  lemma TransferOrder(s: State, t: nat)
    requires InOrder(s) && Enabled(s, Transfer(t)) && !Faults(s, Transfer(t))
    ensures InOrder(Apply(s, Transfer(t)))
  {
    var r := DoTransfer(s, t);
    TransferThreads(s, t);
    assert ObjsOk(r) && SetsOk(r) && GoingOk(r) && PassOk(r);
  }

  lemma TransferThreads(s: State, t: nat)
    requires BusyOk(s) && LocksOk(s) && t in s.busy && (s.busy[t].Writing? || s.busy[t].Reading?)
    ensures BusyOk(DoTransfer(s, t)) && LocksOk(DoTransfer(s, t))
  {
    var r := DoTransfer(s, t);
    if t in r.busy {
      assert Aimed(s, s.busy[t]);
      ThreadMoves(s, r, t, r.busy[t]);
    } else {
      ThreadsKept(s, r);
    }
  }

  lemma GiveBackInv(s: State, h: nat, f: nat)
    requires Inv(s) && Enabled(s, GiveBack(h, f)) && !Faults(s, GiveBack(h, f))
    ensures Inv(Apply(s, GiveBack(h, f)))
  {
    var owner :| Owned(s.parts, s.objs, s.disk, owner);
    var b := s.objs[h].pages[f].value;
    assert Maps(s.objs, h, f, b) && Marked(s.parts, b);
    DropOld(s.parts, s.objs, s.disk, owner, h, f, b);
    DeallocOk(s.parts, b);
    GiveBackOrder(s, h, f);
  }

  lemma GiveBackOrder(s: State, h: nat, f: nat)
    requires InOrder(s) && Enabled(s, GiveBack(h, f)) && !Faults(s, GiveBack(h, f))
    ensures InOrder(Apply(s, GiveBack(h, f)))
  {
    var t := Apply(s, GiveBack(h, f));
    forall x | x in t.objs ensures ObjOk(t.parts, t.objs[x]) { assert ObjOk(s.parts, s.objs[x]); }
    assert SetsOk(t) && GoingOk(t) && PassOk(t);
    GiveBackThreads(s, h, f);
  }

  lemma GiveBackThreads(s: State, h: nat, f: nat)
    requires BusyOk(s) && LocksOk(s) && SetsOk(s) && Enabled(s, GiveBack(h, f)) && !Faults(s, GiveBack(h, f))
    ensures var t := Apply(s, GiveBack(h, f)); BusyOk(t) && LocksOk(t)
  {
    forall p | p in s.busy ensures s.busy[p].o != h { assert Aimed(s, s.busy[p]); }
    ThreadsKept(s, Apply(s, GiveBack(h, f)));
  }

  lemma TakeOutInv(s: State, t: nat, h: nat)
    requires Inv(s) && Enabled(s, TakeOut(t, h)) && !Faults(s, TakeOut(t, h))
    ensures Inv(Apply(s, TakeOut(t, h)))
  {
    TakenOutOwned(s, t, h);
    TakeOutThreads(s, t, h);
    TakeOutObjs(s, t, h);
  }

  lemma TakenOutOwned(s: State, t: nat, h: nat)
    requires HasOwners(s) && Enabled(s, TakeOut(t, h)) && !Faults(s, TakeOut(t, h))
    ensures HasOwners(Apply(s, TakeOut(t, h))) && Live(s.parts, s.objs[s.busy[t].o].pages[s.busy[t].f].value)
  {
    var owner :| Owned(s.parts, s.objs, s.disk, owner);
    TakeOutOwned(s.parts, s.objs, s.disk, owner, s.busy[t].o, s.busy[t].f, h);
    MappedLive(s, s.busy[t].o, s.busy[t].f);
  }

  lemma TakeOutObjs(s: State, t: nat, h: nat)
    requires PartsOk(s.parts) && ObjsOk(s) && SetsOk(s) && GoingOk(s) && PassOk(s)
    requires Enabled(s, TakeOut(t, h)) && !Faults(s, TakeOut(t, h)) && s.busy[t].o in s.listed
    requires Live(s.parts, s.objs[s.busy[t].o].pages[s.busy[t].f].value)
    ensures var r := Apply(s, TakeOut(t, h)); ObjsOk(r) && SetsOk(r) && GoingOk(r) && PassOk(r)
  {
    var r := Apply(s, TakeOut(t, h));
    assert PowerOfTwo(1);
    forall x | x in r.objs ensures ObjOk(r.parts, r.objs[x]) { assert x != h ==> ObjOk(s.parts, s.objs[x]); }
  }

  lemma TakeOutThreads(s: State, t: nat, h: nat)
    requires BusyOk(s) && LocksOk(s) && Enabled(s, TakeOut(t, h)) && !Faults(s, TakeOut(t, h))
    ensures var r := Apply(s, TakeOut(t, h)); BusyOk(r) && LocksOk(r) && s.busy[t].o in s.listed
  {
    var r := Apply(s, TakeOut(t, h));
    assert Aimed(s, s.busy[t]);
    forall p | p in r.busy ensures Aimed(r, r.busy[p]) { assert Aimed(s, s.busy[p]); }
    ThreadsKept(s, r);
  }

  // ---------------------------------------------------------------- finding a block

  /** One object has changed, and is as clear of the partition as before. */
  lemma PassKept(s: State, r: State, o: nat)
    requires PassOk(s) && r.evac == s.evac && r.listed == s.listed && o in s.objs && o in r.objs && !Visits(s, o)
    requires r.objs == s.objs[o := r.objs[o]]
    requires s.evac.Some? ==>
      var i := s.evac.value.pindex;
      && (ClearPages(s.objs[o].pages, i) ==> ClearPages(r.objs[o].pages, i))
      && (s.objs[o].cur != i ==> r.objs[o].cur != i)
    ensures PassOk(r)
  {
  }

  /** One object has changed. */
  lemma ObjectsKept(s: State, r: State, o: nat)
    requires ObjsOk(s) && SetsOk(s) && o in s.listed && r.listed == s.listed && r.doomed == s.doomed
    requires o in r.objs && r.objs == s.objs[o := r.objs[o]] && |r.parts| >= |s.parts| && ObjOk(r.parts, r.objs[o])
    ensures ObjsOk(r) && SetsOk(r)
  {
    forall x | x in r.objs ensures ObjOk(r.parts, r.objs[x]) {
      if x != o { SameLiveObjs(s.parts, r.parts, s.objs[x]); }
    }
  }

  lemma TurnsToUsable(parts: Parts, ob: Obj, f: nat)
    requires CurOk(parts, ob.cur)
    ensures var cur := Turned(parts, ob, f); CurOk(parts, cur) && (cur != ob.cur ==> CanAlloc(parts, cur))
  {
  }

  /** Which pages a claim leaves alone: all. */
  lemma CoveredSame(pages: seq<Entry>, f: nat, g: nat)
    requires GoodSize(|pages|) && g < |pages|
    ensures g < |Covering(pages, f)| && Covering(pages, f)[g] == pages[g]
  {
    assert Covering(pages, f)[..|pages|][g] == pages[g];
  }

  lemma ClaimOwned(s: State, t: nat, o: nat, f: nat, data: Data)
    requires HasOwners(s) && o in s.objs && ObjOk(s.parts, s.objs[o])
    ensures var r := DoClaim(s, t, o, f, data); HasOwners(r) && SameContents(s.objs, s.disk, r.objs, r.disk)
  {
    var owner :| Owned(s.parts, s.objs, s.disk, owner);
    var r, cur := DoClaim(s, t, o, f, data), Turned(s.parts, s.objs[o], f);
    CoveringMaps(s.objs, o, f, cur);
    Remapped(s.parts, s.objs, s.objs[o := Obj(Covering(s.objs[o].pages, f), cur)], s.disk, s.disk, owner);
    if cur == NO_PARTITION {
      assert Owned(r.parts, r.objs, r.disk, owner);
    } else {
      SameMapsRead(s.objs, r.objs, s.disk);
    }
  }

  lemma SameMapsRead(objs: map<nat, Obj>, objs': map<nat, Obj>, disk: map<Block, Data>)
    requires forall x: nat, g: nat, c: Block :: Maps(objs', x, g, c) <==> Maps(objs, x, g, c)
    ensures SameContents(objs, disk, objs', disk)
  {
    forall x: nat, g: nat ensures Content(objs', disk, x, g) == Content(objs, disk, x, g) {
      if x in objs && HasPage(objs[x], g) { assert Maps(objs, x, g, objs[x].pages[g].value); }
      if x in objs' && HasPage(objs'[x], g) { assert Maps(objs', x, g, objs'[x].pages[g].value); }
    }
  }

  lemma ClaimObjs(s: State, t: nat, o: nat, f: nat, data: Data)
    requires ObjsOk(s) && SetsOk(s) && GoingOk(s) && PassOk(s) && Enabled(s, Claim(t, o, f, data))
    requires ObjOk(s.parts, s.objs[o])
    ensures var r := DoClaim(s, t, o, f, data); ObjsOk(r) && SetsOk(r) && GoingOk(r) && PassOk(r)
  {
    var r, cur := DoClaim(s, t, o, f, data), Turned(s.parts, s.objs[o], f);
    TurnsToUsable(s.parts, s.objs[o], f);
    if cur != NO_PARTITION {
      ObjectsKept(s, r, o);
      if s.evac.Some? { CoveringClear(s.objs[o].pages, f, s.evac.value.pindex); }
      PassKept(s, r, o);
    }
  }

  lemma ClaimThreads(s: State, t: nat, o: nat, f: nat, data: Data)
    requires BusyOk(s) && LocksOk(s) && Enabled(s, Claim(t, o, f, data)) && ObjOk(s.parts, s.objs[o])
    ensures var r := DoClaim(s, t, o, f, data); BusyOk(r) && LocksOk(r)
  {
    var r, cur := DoClaim(s, t, o, f, data), Turned(s.parts, s.objs[o], f);
    if cur != NO_PARTITION {
      var rest := r.(busy := s.busy - {t});
      forall u | u in rest.busy
        ensures Aimed(s, s.busy[u]) ==> Aimed(rest, s.busy[u])
        ensures s.busy[u].Chosen? && Held(s, s.busy[u]) ==> Held(rest, s.busy[u])
      {
        assert Aimed(s, s.busy[u]);
        if s.busy[u].o == o { CoveredSame(s.objs[o].pages, f, s.busy[u].f); }
      }
      ThreadMoves(s, r, t, r.busy[t]);
    }
  }

  lemma ClaimInv(s: State, t: nat, o: nat, f: nat, data: Data)
    requires Inv(s) && Enabled(s, Claim(t, o, f, data)) && !Faults(s, Claim(t, o, f, data))
    ensures Inv(Apply(s, Claim(t, o, f, data)))
  {
    assert ObjOk(s.parts, s.objs[o]);
    ClaimOwned(s, t, o, f, data);
    ClaimObjs(s, t, o, f, data);
    ClaimThreads(s, t, o, f, data);
  }

  /** Steps that allocate: in the object's partition, or in the one chosen. */
  predicate Places(s: State, t: nat) {
    && t in s.busy && (s.busy[t].Placing? || s.busy[t].Chosen?) && Aimed(s, s.busy[t]) && Storable(s, s.busy[t])
    && (forall u :: u in s.busy && u != t && s.busy[u].Chosen? && CanAlloc(s.parts, s.objs[s.busy[t].o].cur) ==>
          s.busy[u].to != s.objs[s.busy[t].o].cur)
  }

  /** There is room where the object's partition is. */
  predicate HasRoom(s: State, t: nat)
    requires t in s.busy && Storable(s, s.busy[t])
  {
    AllocPage(s.parts, s.objs[s.busy[t].o].cur).1.Some?
  }

  lemma PlaceOwned(s: State, t: nat, otherwise: map<nat, Pend>)
    requires PartsOk(s.parts) && HasOwners(s) && Places(s, t) && HasRoom(s, t)
    ensures var r := DoPlace(s, t, otherwise);
            && PartsOk(r.parts) && HasOwners(r)
            && SameElsewhere(s.objs, s.disk, r.objs, r.disk, s.busy[t].o, s.busy[t].f)
  {
    var owner :| Owned(s.parts, s.objs, s.disk, owner);
    var p, ob, r := s.busy[t], s.objs[s.busy[t].o], DoPlace(s, t, otherwise);
    AllocOk(s.parts, ob.cur);
    var b := Block(ob.cur, AllocPage(s.parts, ob.cur).1.value);
    StoreNew(s.parts, s.objs, s.disk, owner, p.o, p.f, b, OldData(s.disk, b), ob.cur);
    assert Owned(r.parts, r.objs, r.disk, owner[b := Slot(p.o, p.f)]);
    SamePages(s.objs, p.o, p.f, Some(b), ob.cur);
    FreshElsewhere(s.parts, s.objs, s.disk, owner, r.objs, p.o, p.f, b, OldData(s.disk, b));
  }

  lemma PlaceObjs(s: State, t: nat, otherwise: map<nat, Pend>)
    requires ObjsOk(s) && SetsOk(s) && GoingOk(s) && PassOk(s) && Places(s, t) && HasRoom(s, t)
    requires !Visits(s, s.busy[t].o)
    ensures var r := DoPlace(s, t, otherwise); ObjsOk(r) && SetsOk(r) && GoingOk(r) && PassOk(r)
  {
    var p, r := s.busy[t], DoPlace(s, t, otherwise);
    assert ObjOk(s.parts, s.objs[p.o]);
    ObjectsKept(s, r, p.o);
    if s.evac.Some? && ClearPages(s.objs[p.o].pages, s.evac.value.pindex) {
      assert ClearPages(r.objs[p.o].pages, s.evac.value.pindex);
    }
    PassKept(s, r, p.o);
  }

  lemma PlaceThreads(s: State, t: nat, otherwise: map<nat, Pend>)
    requires BusyOk(s) && LocksOk(s) && Places(s, t) && HasRoom(s, t)
    ensures var r := DoPlace(s, t, otherwise); BusyOk(r) && LocksOk(r)
  {
    var p, r := s.busy[t], DoPlace(s, t, otherwise);
    var rest := r.(busy := s.busy - {t});
    forall u | u in rest.busy
      ensures Aimed(s, s.busy[u]) ==> Aimed(rest, s.busy[u])
      ensures s.busy[u].Chosen? && Held(s, s.busy[u]) ==> Held(rest, s.busy[u])
    {
      assert s.busy[u].o != p.o || s.busy[u].f != p.f;
    }
    ThreadMoves(s, r, t, r.busy[t]);
  }

  lemma PlaceInv(s: State, t: nat, otherwise: map<nat, Pend>)
    requires Inv(s) && Places(s, t) && HasRoom(s, t)
    ensures Inv(DoPlace(s, t, otherwise))
  {
    PlaceOwned(s, t, otherwise);
    PlaceObjs(s, t, otherwise);
    PlaceThreads(s, t, otherwise);
  }

  lemma TryPlaces(s: State, t: nat)
    requires BusyOk(s) && LocksOk(s) && Enabled(s, Try(t)) && !Faults(s, Try(t))
    ensures Places(s, t) && !Visits(s, s.busy[t].o)
  {
    assert Aimed(s, s.busy[t]);
  }

  lemma TryInv(s: State, t: nat)
    requires Inv(s) && Enabled(s, Try(t)) && !Faults(s, Try(t))
    ensures Inv(Apply(s, Try(t)))
  {
    var p := s.busy[t];
    TryPlaces(s, t);
    if HasRoom(s, t) {
      PlaceInv(s, t, s.busy[t := Seeking(p.o, p.f, p.data)]);
    } else {
      var r := Apply(s, Try(t));
      ThreadMoves(s, r, t, r.busy[t]);
      SameStoreInv(s, r);
    }
  }

  lemma TakePlaces(s: State, t: nat)
    requires BusyOk(s) && LocksOk(s) && Enabled(s, Take(t)) && !Faults(s, Take(t))
    ensures Places(s, t) && !Visits(s, s.busy[t].o)
  {
    assert Aimed(s, s.busy[t]) && Held(s, s.busy[t]);
  }

  lemma TakeInv(s: State, t: nat)
    requires Inv(s) && Enabled(s, Take(t)) && !Faults(s, Take(t))
    ensures Inv(Apply(s, Take(t)))
  {
    TakePlaces(s, t);
    if HasRoom(s, t) {
      PlaceInv(s, t, s.busy - {t});
    } else {
      ThreadsKept(s, Apply(s, Take(t)));
      SameStoreInv(s, Apply(s, Take(t)));
    }
  }

  lemma SeekOwned(s: State, t: nat)
    requires HasOwners(s) && t in s.busy && s.busy[t].Seeking? && s.busy[t].o in s.objs
    ensures var r := DoSeek(s, t); HasOwners(r) && SameContents(s.objs, s.disk, r.objs, r.disk)
  {
    var owner :| Owned(s.parts, s.objs, s.disk, owner);
    var r := DoSeek(s, t);
    forall x: nat, g: nat, c: Block ensures Maps(r.objs, x, g, c) <==> Maps(s.objs, x, g, c) {}
    Remapped(s.parts, s.objs, r.objs, s.disk, r.disk, owner);
    SameMapsRead(s.objs, r.objs, s.disk);
  }

  lemma SeekObjs(s: State, t: nat)
    requires ObjsOk(s) && SetsOk(s) && GoingOk(s) && PassOk(s) && Enabled(s, Seek(t))
    requires !Visits(s, s.busy[t].o) && s.busy[t].o in s.listed
    ensures var r := Apply(s, Seek(t)); ObjsOk(r) && SetsOk(r) && GoingOk(r) && PassOk(r)
  {
    var o, r := s.busy[t].o, Apply(s, Seek(t));
    if Choose(s.parts, Ptoa(1), s.objs[o].cur) != NO_PARTITION {
      assert ObjOk(s.parts, s.objs[o]);
      ObjectsKept(s, r, o);
      PassKept(s, r, o);
    }
  }

  lemma SeekThreads(s: State, t: nat)
    requires PartsOk(s.parts) && BusyOk(s) && LocksOk(s) && GoingOk(s) && Enabled(s, Seek(t))
    ensures var r := Apply(s, Seek(t)); BusyOk(r) && LocksOk(r)
  {
    var to := Choose(s.parts, Ptoa(1), s.objs[s.busy[t].o].cur);
    RoomForOne(s.parts, s.objs[s.busy[t].o].cur);
    if to == NO_PARTITION {
      ThreadsKept(s, DoSeek(s, t));
    } else {
      TurnThreads(s, t, to);
    }
  }

  lemma TurnThreads(s: State, t: nat, to: nat)
    requires BusyOk(s) && LocksOk(s) && GoingOk(s) && t in s.busy && s.busy[t].Seeking? && PartFree(s, to)
    requires CanAlloc(s.parts, to) && s.parts[to].value.free > 0 && to != NO_PARTITION && s.busy[t].o in s.objs
    ensures BusyOk(TurnTo(s, t, to)) && LocksOk(TurnTo(s, t, to))
  {
    var p, r := s.busy[t], TurnTo(s, t, to);
    assert Aimed(s, p);
    var rest := r.(busy := s.busy - {t});
    forall u | u in rest.busy
      ensures Aimed(s, s.busy[u]) ==> Aimed(rest, s.busy[u])
      ensures s.busy[u].Chosen? && Held(s, s.busy[u]) ==> Held(rest, s.busy[u])
    {
      assert Placer(s.busy[u]) ==> s.busy[u].o != p.o;
    }
    ThreadMoves(s, r, t, r.busy[t]);
  }

  lemma SeekInv(s: State, t: nat)
    requires Inv(s) && Enabled(s, Seek(t))
    ensures Inv(Apply(s, Seek(t)))
  {
    assert Aimed(s, s.busy[t]);
    SeekOwned(s, t);
    SeekObjs(s, t);
    SeekThreads(s, t);
  }

  /** Steps of the threads that use a page. */
  predicate PageStep(a: Action) {
    a.Claim? || a.Try? || a.Seek? || a.Take? || a.Transfer? || a.TakeOut? || a.GiveBack?
  }

  lemma PageStepInv(s: State, a: Action)
    requires Inv(s) && Enabled(s, a) && !Faults(s, a) && PageStep(a)
    ensures Inv(Apply(s, a))
  {
    match a {
      case Claim(t, o, f, data) => ClaimInv(s, t, o, f, data);
      case Try(t) => TryInv(s, t);
      case Seek(t) => SeekInv(s, t);
      case Take(t) => TakeInv(s, t);
      case Transfer(t) => TransferInv(s, t);
      case TakeOut(t, h) => TakeOutInv(s, t, h);
      case GiveBack(h, f) => GiveBackInv(s, h, f);
    }
  }

  // ---------------------------------------------------------------- moving a page

  /** The page that is to be moved, and its block. */
  function Next(s: State): Block
    requires Enabled(s, MoveNext) && OnPart(s)
  {
    s.objs[s.evac.value.phase.o].pages[s.evac.value.phase.f].value
  }

  lemma MovesExactly(s: State)
    requires PartsOk(s.parts) && Enabled(s, MoveNext) && !Faults(s, MoveNext) && OnPart(s)
    ensures Moves(s) <==> MovePage(s.parts, s.disk, Next(s)).2.Some?
  {
    MoveFailsExactly(s.parts, s.disk, Next(s));
  }

  /** Whether the page moves or not, blocks keep their owners and pages their contents. */
  lemma MoveNextOwned(s: State)
    requires PartsOk(s.parts) && HasOwners(s) && Enabled(s, MoveNext) && !Faults(s, MoveNext)
    ensures var t := DoMove(s); PartsOk(t.parts) && HasOwners(t) && SameContents(s.objs, s.disk, t.objs, t.disk)
  {
    var owner :| Owned(s.parts, s.objs, s.disk, owner);
    var t, i, ph := DoMove(s), s.evac.value.pindex, s.evac.value.phase;
    if OnPart(s) {
      var owner' := MoveKeeps(s.parts, s.objs, s.disk, owner, ph.o, ph.f, Next(s));
      if MovePage(s.parts, s.disk, Next(s)).2.Some? {
        assert Owned(t.parts, t.objs, t.disk, owner');
      } else {
        GoingOwned(s.parts, s.objs, s.disk, owner, i, false);
        assert Owned(t.parts, t.objs, t.disk, owner);
      }
    } else {
      assert Owned(t.parts, t.objs, t.disk, owner);
    }
  }

  lemma PassesByInv(s: State)
    requires Inv(s) && Enabled(s, MoveNext) && !Faults(s, MoveNext) && !OnPart(s)
    ensures Inv(DoMove(s))
  {
    var ph := s.evac.value.phase;
    PhaseKept(s, Visiting(ph.todo, ph.o, ph.f + 1));
    SameStoreInv(s, DoMove(s));
  }

  lemma MoveFailsOrder(s: State)
    requires InOrder(s) && Enabled(s, MoveNext) && !Faults(s, MoveNext) && OnPart(s)
    requires MovePage(s.parts, s.disk, Next(s)).2.None?
    ensures InOrder(DoMove(s))
  {
    var t := DoMove(s);
    ThreadsKept(s, t);
    PartsOrder(s, t);
  }

  lemma MovedObjs(s: State)
    requires ObjsOk(s) && SetsOk(s) && GoingOk(s) && PassOk(s) && Enabled(s, MoveNext) && !Faults(s, MoveNext)
    requires OnPart(s) && MovePage(s.parts, s.disk, Next(s)).2.Some?
    ensures var t := DoMove(s); ObjsOk(t) && SetsOk(t) && GoingOk(t) && PassOk(t)
  {
    var t, ph := DoMove(s), s.evac.value.phase;
    assert SameLive(s.parts, t.parts) && ObjOk(s.parts, s.objs[ph.o]);
    ObjectsKept(s, t, ph.o);
    MovedPass(s, t);
  }

  lemma MovedPass(s: State, t: State)
    requires PassOk(s) && Enabled(s, MoveNext) && !Faults(s, MoveNext)
    requires OnPart(s) && MovePage(s.parts, s.disk, Next(s)).2.Some? && t == DoMove(s)
    ensures PassOk(t)
  {
    var ph, i := s.evac.value.phase, s.evac.value.pindex;
    forall g | 0 <= g < ph.f + 1 ensures !Resides(t.objs[ph.o].pages[g], i) {
      assert g < ph.f ==> !Resides(s.objs[ph.o].pages[g], i);
    }
  }

  /** What is left of a partition that a move has taken a block from, or given one to. */
  lemma MovedParts(parts: Parts, disk: map<Block, Data>, b: Block, i: nat)
    requires PartsOk(parts) && Live(parts, b) && b in disk && MovePage(parts, disk, b).2.Some? && i < |parts|
    requires parts[i].Some? && i != Choose(parts, Ptoa(1), b.index)
    ensures var parts' := MovePage(parts, disk, b).0;
            |parts'| == |parts| && parts'[i].Some? && parts'[i].value.free >= parts[i].value.free
  {
  }

  lemma MovedLocks(s: State)
    requires PartsOk(s.parts) && LocksOk(s) && Enabled(s, MoveNext) && !Faults(s, MoveNext)
    requires OnPart(s) && MovePage(s.parts, s.disk, Next(s)).2.Some?
    ensures LocksOk(DoMove(s))
  {
    var t := DoMove(s);
    forall u | u in t.busy && t.busy[u].Chosen? ensures Held(t, t.busy[u]) {
      assert Held(s, s.busy[u]) && !Visits(s, s.busy[u].o);
      MovedParts(s.parts, s.disk, Next(s), s.busy[u].to);
    }
  }

  /** Moving a page leaves every thread aimed at the block of its page if and only if none is about to use the old
      one. */
  lemma MovedBusy(s: State)
    requires BusyOk(s) && LocksOk(s) && Enabled(s, MoveNext) && !Faults(s, MoveNext)
    requires OnPart(s) && MovePage(s.parts, s.disk, Next(s)).2.Some?
    ensures BusyOk(DoMove(s)) <==>
            forall u :: u in s.busy ==> !InTransfer(s.busy[u], s.evac.value.phase.o, s.evac.value.phase.f)
  {
    var t, ph := DoMove(s), s.evac.value.phase;
    forall u | u in s.busy ensures Aimed(t, s.busy[u]) <==> !InTransfer(s.busy[u], ph.o, ph.f) {
      assert Aimed(s, s.busy[u]) && (Placer(s.busy[u]) ==> !Visits(s, s.busy[u].o));
    }
  }

  /** A step of pager_realloc keeps the pager in order if and only if no transfer is outstanding on a page that it
      moves. */
  lemma MoveNextExactly(s: State)
    requires Inv(s) && Enabled(s, MoveNext) && !Faults(s, MoveNext)
    ensures Inv(DoMove(s)) <==> Quiet(s, MoveNext)
  {
    if !OnPart(s) {
      PassesByInv(s);
    } else {
      MoveNextOwned(s);
      MovesExactly(s);
      if MovePage(s.parts, s.disk, Next(s)).2.None? {
        MoveFailsOrder(s);
      } else {
        MovedObjs(s);
        MovedLocks(s);
        MovedBusy(s);
      }
    }
  }

  lemma LeaveOwned(s: State)
    requires HasOwners(s) && Enabled(s, Leave)
    ensures var t := DoLeave(s); HasOwners(t) && SameContents(s.objs, s.disk, t.objs, t.disk)
  {
    var owner :| Owned(s.parts, s.objs, s.disk, owner);
    var t := DoLeave(s);
    forall x: nat, g: nat, c: Block ensures Maps(t.objs, x, g, c) <==> Maps(s.objs, x, g, c) {}
    Remapped(s.parts, s.objs, t.objs, s.disk, t.disk, owner);
    SameMapsRead(s.objs, t.objs, s.disk);
  }

  lemma LeaveObjs(s: State)
    requires PartsOk(s.parts) && ObjsOk(s) && SetsOk(s) && GoingOk(s) && PassOk(s) && Enabled(s, Leave)
    requires AllLive(s.parts, s.disk, s.objs[s.evac.value.phase.o].pages)
    ensures var t := DoLeave(s); ObjsOk(t) && SetsOk(t) && GoingOk(t) && PassOk(t)
  {
    var t, o, i := DoLeave(s), s.evac.value.phase.o, s.evac.value.pindex;
    var cur := Choose(s.parts, 0, NO_PARTITION);
    assert ObjOk(s.parts, s.objs[o]) && ClearPages(s.objs[o].pages, i);
    if cur == NO_PARTITION { NothingLeft(s.parts, s.disk, s.objs[o].pages, i); }
    ObjectsKept(s, t, o);
    assert cur != i;
  }

  lemma LeaveThreads(s: State)
    requires BusyOk(s) && LocksOk(s) && Enabled(s, Leave)
    ensures BusyOk(DoLeave(s)) && LocksOk(DoLeave(s))
  {
    var t, o := DoLeave(s), s.evac.value.phase.o;
    forall u | u in s.busy && Placer(s.busy[u]) ensures s.busy[u].o != o {
      assert !Visits(s, s.busy[u].o);
    }
    ThreadsKept(s, t);
  }

  lemma LeaveInv(s: State)
    requires Inv(s) && Enabled(s, Leave)
    ensures Inv(DoLeave(s))
  {
    ObjAllLive(s, s.evac.value.phase.o);
    LeaveOwned(s);
    LeaveObjs(s);
    LeaveThreads(s);
  }

  // ---------------------------------------------------------------- removing

  lemma FinishOrder(s: State)
    requires InOrder(s) && PartsOk(s.parts) && Enabled(s, FinishDestroy) && !Faults(s, FinishDestroy)
    ensures InOrder(Apply(s, FinishDestroy)) && PartsOk(Apply(s, FinishDestroy).parts)
  {
    var t := Apply(s, FinishDestroy);
    ThreadsKept(s, t);
    PartsOrder(s, t);
  }

  /** Removing the partition keeps the pager in order if and only if no block of it is waiting to be given back. */
  lemma FinishExactly(s: State)
    requires Inv(s) && Enabled(s, FinishDestroy) && !Faults(s, FinishDestroy)
    ensures Inv(Apply(s, FinishDestroy)) <==> Quiet(s, FinishDestroy)
  {
    FinishOrder(s);
    FinishOwners(s);
  }

  /** Removing the partition leaves every mapped block with its partition if and only if nothing doomed is on it. */
  lemma FinishOwners(s: State)
    requires HasOwners(s) && SetsOk(s) && PassOk(s) && Enabled(s, FinishDestroy) && !Faults(s, FinishDestroy)
    ensures HasOwners(Apply(s, FinishDestroy)) <==> Quiet(s, FinishDestroy)
  {
    var t, i := Apply(s, FinishDestroy), s.evac.value.pindex;
    if Quiet(s, FinishDestroy) {
      var owner :| Owned(s.parts, s.objs, s.disk, owner);
      FinishOwned(s.parts, s.objs, s.disk, owner, i);
    } else {
      var h :| h in s.doomed && h in s.objs && !ClearPages(s.objs[h].pages, i);
      var f :| 0 <= f < |s.objs[h].pages| && Resides(s.objs[h].pages[f], i);
      if HasOwners(t) { MappedLive(t, h, f); }
    }
  }

  /** From a state in order no step faults, and a step leads to a state in order if and only if it is quiet. */
  lemma StepExactly(s: State, a: Action)
    requires Inv(s) && Enabled(s, a)
    ensures !Faults(s, a) && (Inv(Apply(s, a)) <==> Quiet(s, a))
  {
    NoFault(s, a);
    if Bookkeeping(a) {
      BookkeepingInv(s, a);
    } else if PhaseStep(a) {
      PhaseInv(s, a);
    } else if PageStep(a) {
      PageStepInv(s, a);
    } else if ListStep(a) {
      ListStepInv(s, a);
    } else {
      PassStepExactly(s, a);
    }
  }

  lemma PassStepExactly(s: State, a: Action)
    requires Inv(s) && Enabled(s, a) && !Faults(s, a) && (a.MoveNext? || a.Leave? || a.FinishDestroy?)
    ensures Inv(Apply(s, a)) <==> Quiet(s, a)
  {
    match a {
      case MoveNext => MoveNextExactly(s);
      case Leave => LeaveInv(s);
      case FinishDestroy => FinishExactly(s);
    }
  }

  // ---------------------------------------------------------------- contents

  function PageOf(s: State, o: nat, f: nat): Option<Data> { Content(s.objs, s.disk, o, f) }

  /** The step changes that page: it writes it, gives it its first block, or takes it out; or it makes or frees
      the object. */
  predicate Addresses(s: State, a: Action, o: nat, f: nat)
    requires Enabled(s, a)
  {
    match a
    case Try(t) => s.busy[t].o == o && s.busy[t].f == f
    case Take(t) => s.busy[t].o == o && s.busy[t].f == f
    case Transfer(t) => s.busy[t].Writing? && s.busy[t].o == o && s.busy[t].f == f
    case TakeOut(t, h) => h == o || (s.busy[t].o == o && s.busy[t].f == f)
    case GiveBack(h, g) => h == o && g == f
    case Forget(h) => h == o
    case Make(x, bytes) => x == o
    case _ => false
  }

  lemma TransferElsewhere(s: State, t: nat)
    requires HasOwners(s) && BusyOk(s) && Enabled(s, Transfer(t)) && !Faults(s, Transfer(t)) && s.busy[t].Writing?
    ensures var r := Apply(s, Transfer(t)); SameElsewhere(s.objs, s.disk, r.objs, r.disk, s.busy[t].o, s.busy[t].f)
    ensures PageOf(Apply(s, Transfer(t)), s.busy[t].o, s.busy[t].f) == Some(s.busy[t].data)
  {
    var owner :| Owned(s.parts, s.objs, s.disk, owner);
    var p := s.busy[t];
    assert Aimed(s, p) && Maps(s.objs, p.o, p.f, p.b);
    FreshElsewhere(s.parts, s.objs, s.disk, owner, s.objs, p.o, p.f, p.b, p.data);
  }

  /** Finding a block for a page changes what no other page reads as. */
  lemma PlaceElsewhere(s: State, t: nat, otherwise: map<nat, Pend>, o: nat, f: nat)
    requires PartsOk(s.parts) && HasOwners(s) && Places(s, t) && (s.busy[t].o != o || s.busy[t].f != f)
    ensures PageOf(DoPlace(s, t, otherwise), o, f) == PageOf(s, o, f)
  {
    if HasRoom(s, t) {
      PlaceOwned(s, t, otherwise);
      assert Slot(o, f) != Slot(s.busy[t].o, s.busy[t].f);
    }
  }

  lemma PageStepElsewhere(s: State, a: Action, o: nat, f: nat)
    requires Inv(s) && Enabled(s, a) && !Faults(s, a) && !Addresses(s, a, o, f) && PageStep(a)
    ensures PageOf(Apply(s, a), o, f) == PageOf(s, o, f)
  {
    match a {
      case Claim(t, x, g, data) =>
        assert ObjOk(s.parts, s.objs[x]);
        ClaimOwned(s, t, x, g, data);
      case Try(t) =>
        TryPlaces(s, t);
        PlaceElsewhere(s, t, s.busy[t := Seeking(s.busy[t].o, s.busy[t].f, s.busy[t].data)], o, f);
      case Seek(t) => SeekOwned(s, t);
      case Take(t) =>
        TakePlaces(s, t);
        PlaceElsewhere(s, t, s.busy - {t}, o, f);
      case Transfer(t) =>
        if s.busy[t].Writing? {
          TransferElsewhere(s, t);
          assert Slot(o, f) != Slot(s.busy[t].o, s.busy[t].f);
        }
      case TakeOut(t, h) =>
      case GiveBack(h, g) =>
    }
  }

  /** Whatever happens, evacuation included, a page that is not addressed reads the same afterwards. */
  lemma OthersUnchanged(s: State, a: Action, o: nat, f: nat)
    requires Inv(s) && Enabled(s, a) && !Faults(s, a) && !Addresses(s, a, o, f)
    ensures PageOf(Apply(s, a), o, f) == PageOf(s, o, f)
  {
    if PageStep(a) {
      PageStepElsewhere(s, a, o, f);
    } else if a.MoveNext? {
      MoveNextOwned(s);
    } else if a.Leave? {
      LeaveOwned(s);
    }
  }

  /** A read that has found its block transfers what the page holds. */
  lemma ReadSeesPage(s: State, t: nat)
    requires Inv(s) && t in s.busy && s.busy[t].Reading?
    ensures s.busy[t].b in s.disk && PageOf(s, s.busy[t].o, s.busy[t].f) == Some(s.disk[s.busy[t].b])
  {
    assert Aimed(s, s.busy[t]);
    MappedLive(s, s.busy[t].o, s.busy[t].f);
  }

  // ---------------------------------------------------------------- when a write finds a block

  /** The pages a claim wants of a partition, for an object that has none. */
  function Wanted(ob: Obj, f: nat): nat { if f > |ob.pages| then f else |ob.pages| }

  /** No partition is to be had: all that are not going away are full, and none passes for large enough because the
      size wanted has wrapped to nothing. */
  predicate NoneToTurnTo(parts: Parts, want: nat) {
    AllFull(parts) && (Ptoa(want) > 0 || forall i :: 0 <= i < |parts| ==> !CanAlloc(parts, i))
  }

  lemma NoFirstChoice(parts: Parts, want: nat)
    requires PartsOk(parts)
    ensures FirstChoice(parts, want) == NO_PARTITION <==> NoneToTurnTo(parts, want)
  {
    RoomForOne(parts, NO_PARTITION);
    ChooseFirst(parts, Ptoa(want), NO_PARTITION);
    assert forall i :: 0 <= i < |parts| && CanAlloc(parts, i) ==> i != NO_PARTITION;
    if AllFull(parts) {
      forall i | 0 <= i < |parts|
        ensures Fits(parts, i, Ptoa(want), NO_PARTITION) <==> CanAlloc(parts, i) && Ptoa(want) == 0 {}
    }
  }

  /** A claim gives up at once exactly if the object has no partition and there is none to turn to; it has its block
      at once exactly if the page has one. */
  lemma ClaimFinds(s: State, t: nat, o: nat, f: nat, data: Data)
    requires Inv(s) && Enabled(s, Claim(t, o, f, data))
    ensures !Faults(s, Claim(t, o, f, data))
    ensures var r := Apply(s, Claim(t, o, f, data));
            && (t !in r.busy <==> s.objs[o].cur == NO_PARTITION && NoneToTurnTo(s.parts, Wanted(s.objs[o], f)))
            && (t in r.busy && r.busy[t].Writing? <==> HasPage(s.objs[o], f))
            && (HasPage(s.objs[o], f) ==> r.busy[t] == Writing(o, f, s.objs[o].pages[f].value, data))
  {
    NoFault(s, Claim(t, o, f, data));
    assert ObjOk(s.parts, s.objs[o]);
    NoFirstChoice(s.parts, Wanted(s.objs[o], f));
    Covered(s.objs[o].pages, f);
  }

  /** The object's partition yields a block exactly if it is there, is not going away and has one. */
  lemma TryFinds(s: State, t: nat)
    requires Inv(s) && Enabled(s, Try(t))
    ensures !Faults(s, Try(t))
    ensures var r, cur := Apply(s, Try(t)), s.objs[s.busy[t].o].cur;
            && t in r.busy && (r.busy[t].Writing? || r.busy[t].Seeking?)
            && (r.busy[t].Writing? <==> CanAlloc(s.parts, cur) && s.parts[cur].value.free > 0)
            && (r.busy[t].Writing? ==> r.busy[t].b.index == cur && !Marked(s.parts, r.busy[t].b))
  {
    NoFault(s, Try(t));
    assert Aimed(s, s.busy[t]);
    if HasRoom(s, t) { AllocOk(s.parts, s.objs[s.busy[t].o].cur); }
  }

  /** Another partition is found exactly if one that is not going away has a block at that moment; the write is given
      up otherwise. */
  lemma SeekFinds(s: State, t: nat)
    requires Inv(s) && Enabled(s, Seek(t))
    ensures var r, cur := Apply(s, Seek(t)), s.objs[s.busy[t].o].cur;
            && (t in r.busy <==> !FullExcept(s.parts, cur))
            && (t in r.busy ==> r.busy[t].Chosen? && r.busy[t].to != cur && CanAlloc(s.parts, r.busy[t].to))
  {
    RoomForOne(s.parts, s.objs[s.busy[t].o].cur);
  }

  /** The partition that was chosen yields a block exactly if it has not begun to go away since: whoever has chosen it
      keeps it locked, and the block is still there. */
  lemma TakeFinds(s: State, t: nat)
    requires Inv(s) && Enabled(s, Take(t))
    ensures !Faults(s, Take(t)) && s.busy[t].to < |s.parts| && s.parts[s.busy[t].to].Some?
    ensures var r, to := Apply(s, Take(t)), s.busy[t].to;
            && (t in r.busy <==> !s.parts[to].value.goingAway)
            && (t in r.busy ==> r.busy[t].Writing? && r.busy[t].b.index == to && !Marked(s.parts, r.busy[t].b))
  {
    NoFault(s, Take(t));
    assert Held(s, s.busy[t]);
    if HasRoom(s, t) { AllocOk(s.parts, s.busy[t].to); }
  }

  /** What a thread in pager_write_offset does next. */
  function Onward(s: State, t: nat): State {
    if t !in s.busy || !Placer(s.busy[t]) || !Storable(s, s.busy[t]) then s
    else
      match s.busy[t]
      case Placing(o, f, data) => DoPlace(s, t, s.busy[t := Seeking(o, f, data)])
      case Seeking(o, f, data) => DoSeek(s, t)
      case Chosen(o, f, data, to) => DoPlace(s, t, s.busy - {t})
  }

  /** Nobody else has left choose_partition with a partition. */
  predicate NoneHeld(s: State, t: nat) { forall u :: u in s.busy && u != t ==> !s.busy[u].Chosen? }

  lemma OnwardIsStep(s: State, t: nat) returns (a: Action)
    requires Inv(s) && t in s.busy && Placer(s.busy[t]) && NoneHeld(s, t)
    ensures Enabled(s, a) && !Faults(s, a) && Onward(s, t) == Apply(s, a)
  {
    var p := s.busy[t];
    assert Aimed(s, p) && ObjOk(s.parts, s.objs[p.o]);
    a := if p.Placing? then Try(t) else if p.Seeking? then Seek(t) else Take(t);
  }

  /** Looking for room elsewhere and taking it, as the operation on values has it. */
  lemma SeekInSteps(s: State, t: nat)
    requires PartsOk(s.parts) && t in s.busy && s.busy[t].Seeking? && Storable(s, s.busy[t])
    ensures var o, f, r := s.busy[t].o, s.busy[t].f, Onward(Onward(s, t), t);
            var to := Choose(s.parts, Ptoa(1), s.objs[o].cur);
            && (to == NO_PARTITION ==> r == s.(busy := s.busy - {t}))
            && (to != NO_PARTITION ==>
                  var (parts', off) := AllocPage(s.parts, to);
                  && off.Some? && r.parts == parts' && t in r.busy
                  && r.busy[t] == Writing(o, f, Block(to, off.value), s.busy[t].data)
                  && r.objs == s.objs[o := Obj(s.objs[o].pages[f := Some(Block(to, off.value))], to)])
  {
    RoomForOne(s.parts, s.objs[s.busy[t].o].cur);
  }

  /** So with the object's own partition first. */
  lemma RoomInSteps(s: State, t: nat)
    requires PartsOk(s.parts) && t in s.busy && s.busy[t].Placing? && Storable(s, s.busy[t])
    ensures var o, f, r := s.busy[t].o, s.busy[t].f, Onward(Onward(Onward(s, t), t), t);
            var (parts', cur', off) := Room(s.parts, s.objs[o].cur);
            && r.parts == parts' && o in r.objs && r.objs == s.objs[o := r.objs[o]] && r.objs[o].cur == cur'
            && (r.objs[o].pages
                == if off.Some? then s.objs[o].pages[f := Some(Block(cur', off.value))] else s.objs[o].pages)
            && (t in r.busy <==> off.Some?)
            && (off.Some? ==> r.busy[t] == Writing(o, f, Block(cur', off.value), s.busy[t].data))
  {
    var p, s1 := s.busy[t], Onward(s, t);
    if HasRoom(s, t) {
      assert Onward(s1, t) == s1;
    } else {
      assert s1 == s.(busy := s.busy[t := Seeking(p.o, p.f, p.data)]);
      SeekInSteps(s1, t);
      if Choose(s.parts, Ptoa(1), s.objs[p.o].cur) == NO_PARTITION {
        assert s.objs == s.objs[p.o := s.objs[p.o]];
      }
    }
  }

  /** Uninterrupted, the steps of a write come to pager_write_offset as one operation: the thread has the page's block
      if there is one. */
  lemma ClaimAlone(s: State, t: nat, o: nat, f: nat, data: Data)
    requires PartsOk(s.parts) && o in s.objs && ObjOk(s.parts, s.objs[o]) && t !in s.busy
    ensures var r := Onward(Onward(Onward(DoClaim(s, t, o, f, data), t), t), t);
            && o in r.objs && (r.parts, r.objs[o]) == WriteOffset(s.parts, s.objs[o], f)
            && r.objs == s.objs[o := r.objs[o]] && (t in r.busy <==> HasPage(r.objs[o], f))
            && (t in r.busy ==> r.busy[t] == Writing(o, f, r.objs[o].pages[f].value, data))
  {
    var s1, cur, pages := DoClaim(s, t, o, f, data), Turned(s.parts, s.objs[o], f), Covering(s.objs[o].pages, f);
    Covered(s.objs[o].pages, f);
    if cur == NO_PARTITION {
      assert s.objs == s.objs[o := s.objs[o]];
    } else if pages[f].Some? {
      assert Onward(s1, t) == s1;
    } else {
      assert s1.objs[o] == Obj(pages, cur) && Storable(s1, s1.busy[t]);
      RoomInSteps(s1, t);
      assert s1.objs[o := Onward(Onward(Onward(s1, t), t), t).objs[o]]
          == s.objs[o := Onward(Onward(Onward(s1, t), t), t).objs[o]];
    }
  }

  // ---------------------------------------------------------------- when evacuation does harm

  /** What moving a page does while a transfer to it is outstanding: the page keeps its contents, its old block stays
      on the disk, and its partition in the list. */
  lemma MoveUnderWrite(s: State, t: nat)
    requires Inv(s) && Enabled(s, MoveNext) && !Faults(s, MoveNext) && t in s.busy && s.busy[t].Writing?
    requires InTransfer(s.busy[t], s.evac.value.phase.o, s.evac.value.phase.f)
    ensures var o, f, u := s.busy[t].o, s.busy[t].f, DoMove(s);
            && u.busy == s.busy && Live(u.parts, s.busy[t].b) && o in u.objs && HasPage(u.objs[o], f)
            && u.objs[o].pages[f].value in u.disk && PageOf(u, o, f) == PageOf(s, o, f)
            && (u.objs[o].pages[f] != Some(s.busy[t].b) <==> Moves(s))
  {
    var o, f, u := s.busy[t].o, s.busy[t].f, DoMove(s);
    assert Aimed(s, s.busy[t]);
    MappedLive(s, o, f);
    MoveNextOwned(s);
    MovedEntry(s, o, f);
    MappedLive(u, o, f);
  }

  lemma MovedEntry(s: State, o: nat, f: nat)
    requires PartsOk(s.parts) && Enabled(s, MoveNext) && !Faults(s, MoveNext)
    requires o == s.evac.value.phase.o && f == s.evac.value.phase.f && HasPage(s.objs[o], f)
    ensures var u := DoMove(s);
            && u.busy == s.busy && o in u.objs && HasPage(u.objs[o], f)
            && (u.objs[o].pages[f] != s.objs[o].pages[f] <==> Moves(s))
            && forall b :: Live(s.parts, b) ==> Live(u.parts, b)
  {
    if OnPart(s) { MovesExactly(s); }
  }

  /** What a write to block `b` does to a page. */
  lemma LateTransfer(u: State, t: nat)
    requires t in u.busy && u.busy[t].Writing? && u.busy[t].o in u.objs && HasPage(u.objs[u.busy[t].o], u.busy[t].f)
    requires u.objs[u.busy[t].o].pages[u.busy[t].f].value in u.disk
    ensures var o, f, e := u.busy[t].o, u.busy[t].f, u.objs[u.busy[t].o].pages[u.busy[t].f];
            PageOf(DoTransfer(u, t), o, f) == if e == Some(u.busy[t].b) then Some(u.busy[t].data) else PageOf(u, o, f)
  {
  }

  /** A write that has found its block when the pass comes to its page is kept if and only if the page does not move,
      or already holds the same data: otherwise it goes to the old block, and the page reads as before. */
  lemma WriteLostExactly(s: State, t: nat)
    requires Inv(s) && Enabled(s, MoveNext) && t in s.busy && s.busy[t].Writing?
    requires InTransfer(s.busy[t], s.evac.value.phase.o, s.evac.value.phase.f)
    ensures !Faults(s, MoveNext) && Enabled(DoMove(s), Transfer(t)) && !Faults(DoMove(s), Transfer(t))
    ensures var r, o, f := DoTransfer(DoMove(s), t), s.busy[t].o, s.busy[t].f;
            && (Moves(s) ==> PageOf(r, o, f) == PageOf(s, o, f))
            && (PageOf(r, o, f) == Some(s.busy[t].data) <==> !Moves(s) || PageOf(s, o, f) == Some(s.busy[t].data))
  {
    NoFault(s, MoveNext);
    MoveUnderWrite(s, t);
    LateTransfer(DoMove(s), t);
  }

  /** Giving a block back after a partition has been removed uses a missing partition if and only if the block was
      on it. */
  lemma RemovalFaultsExactly(s: State, h: nat, f: nat)
    requires Inv(s) && Enabled(s, FinishDestroy) && h in s.doomed && h in s.objs && HasPage(s.objs[h], f)
    ensures !Faults(s, FinishDestroy)
    ensures var t := Apply(s, FinishDestroy);
            && (Resides(s.objs[h].pages[f], s.evac.value.pindex) ==> Enabled(t, GiveBack(h, f)))
            && (Enabled(t, GiveBack(h, f)) ==>
                  (Faults(t, GiveBack(h, f)) <==> Resides(s.objs[h].pages[f], s.evac.value.pindex)))
  {
    NoFault(s, FinishDestroy);
    MappedLive(s, h, f);
  }

  // ---------------------------------------------------------------- whole runs

  predicate Start(s: State) { s == State([], map[], map[], {}, {}, map[], None) }

  predicate Follows(s: State, a: Action, t: State) { Enabled(s, a) && !Faults(s, a) && t == Apply(s, a) }

  predicate IsRun(run: seq<State>, acts: seq<Action>) {
    && |run| == |acts| + 1 && Start(run[0])
    && forall i :: 0 <= i < |acts| ==> Follows(run[i], acts[i], run[i + 1])
  }

  predicate QuietAt(s: State, a: Action) { Enabled(s, a) && Quiet(s, a) }

  predicate QuietUpTo(run: seq<State>, acts: seq<Action>, n: nat) {
    n <= |acts| && |run| == |acts| + 1 && forall i :: 0 <= i < n ==> QuietAt(run[i], acts[i])
  }

  lemma StartInv(s: State)
    requires Start(s)
    ensures Inv(s)
  {
    assert Owned(s.parts, s.objs, s.disk, map[]);
  }

  lemma {:induction false} RunInv(run: seq<State>, acts: seq<Action>, i: nat)
    requires IsRun(run, acts) && i < |run| && QuietUpTo(run, acts, i)
    ensures Inv(run[i])
  {
    if i == 0 {
      StartInv(run[0]);
    } else {
      RunInv(run, acts, i - 1);
      assert Follows(run[i - 1], acts[i - 1], run[i]) && QuietAt(run[i - 1], acts[i - 1]);
      StepExactly(run[i - 1], acts[i - 1]);
    }
  }

  /** A run stays in order throughout if and only if every step of it is quiet. */
  lemma RunExactly(run: seq<State>, acts: seq<Action>)
    requires IsRun(run, acts)
    ensures (forall i :: 0 <= i < |run| ==> Inv(run[i])) <==> QuietUpTo(run, acts, |acts|)
  {
    if QuietUpTo(run, acts, |acts|) {
      forall i | 0 <= i < |run| ensures Inv(run[i]) { RunInv(run, acts, i); }
    }
    if forall i :: 0 <= i < |run| ==> Inv(run[i]) {
      forall i | 0 <= i < |acts| ensures QuietAt(run[i], acts[i]) {
        assert Follows(run[i], acts[i], run[i + 1]) && Inv(run[i]) && Inv(run[i + 1]);
        StepExactly(run[i], acts[i]);
      }
    }
  }

  /** In every state of every quiet run no step that can be taken uses a missing partition or a missing entry. */
  lemma NeverFaults(run: seq<State>, acts: seq<Action>, i: nat, a: Action)
    requires IsRun(run, acts) && i < |run| && QuietUpTo(run, acts, i) && Enabled(run[i], a)
    ensures !Faults(run[i], a)
  {
    RunInv(run, acts, i);
    NoFault(run[i], a);
  }

  /** In every state of every quiet run: a block in a map or in hand is inside its partition, marked, and nowhere
      else. */
  lemma BlockOwnership(run: seq<State>, acts: seq<Action>, i: nat, o: nat, f: nat, b: Block)
    requires IsRun(run, acts) && i < |run| && QuietUpTo(run, acts, i) && Maps(run[i].objs, o, f, b)
    ensures var s := run[i];
            && Marked(s.parts, b) && b.offset < s.parts[b.index].value.total && b.index < NO_PARTITION
            && forall o', f' :: Maps(s.objs, o', f', b) ==> o' == o && f' == f
  {
    RunInv(run, acts, i);
    var s := run[i];
    var owner :| Owned(s.parts, s.objs, s.disk, owner);
    assert b in owner && Marked(s.parts, b) && PartOk(s.parts[b.index].value);
  }

  /** In every state of every quiet run: a marked block is on a page of a listed object or waits to be given back,
      and the free count of a partition is its size less the marked blocks. */
  lemma NoBlockLeaks(run: seq<State>, acts: seq<Action>, i: nat, b: Block) returns (o: nat, f: nat)
    requires IsRun(run, acts) && i < |run| && QuietUpTo(run, acts, i) && Marked(run[i].parts, b)
    ensures Maps(run[i].objs, o, f, b) && (o in run[i].listed || o in run[i].doomed)
    ensures var p := run[i].parts[b.index].value; p.free + |p.used| == p.total
  {
    RunInv(run, acts, i);
    var s := run[i];
    var owner: map<Block, Slot> :| Owned(s.parts, s.objs, s.disk, owner);
    assert b in owner && PartOk(s.parts[b.index].value);
    o, f := owner[b].o, owner[b].f;
    assert Maps(s.objs, o, f, b);
  }

  predicate Untouched(run: seq<State>, acts: seq<Action>, k: nat, o: nat, f: nat)
    requires k < |acts| && k < |run|
  {
    Enabled(run[k], acts[k]) && !Addresses(run[k], acts[k], o, f)
  }

  lemma StaysRead(run: seq<State>, acts: seq<Action>, k: nat, o: nat, f: nat)
    requires IsRun(run, acts) && k < |acts| && QuietUpTo(run, acts, k) && Untouched(run, acts, k, o, f)
    ensures PageOf(run[k + 1], o, f) == PageOf(run[k], o, f)
  {
    RunInv(run, acts, k);
    assert Follows(run[k], acts[k], run[k + 1]);
    OthersUnchanged(run[k], acts[k], o, f);
  }

  /** In every quiet run a page that is not addressed reads the same. */
  lemma {:induction false} ReadsAsBefore(run: seq<State>, acts: seq<Action>, i: nat, j: nat, o: nat, f: nat)
    requires IsRun(run, acts) && i <= j < |run| && QuietUpTo(run, acts, j)
    requires forall k :: i <= k < j ==> Untouched(run, acts, k, o, f)
    ensures PageOf(run[j], o, f) == PageOf(run[i], o, f)
    decreases j
  {
    if i < j {
      ReadsAsBefore(run, acts, i, j - 1, o, f);
      StaysRead(run, acts, j - 1, o, f);
    }
  }

  lemma FirstRead(run: seq<State>, acts: seq<Action>, i: nat, t: nat)
    requires IsRun(run, acts) && i < |acts| && QuietUpTo(run, acts, i) && acts[i] == Transfer(t)
    requires t in run[i].busy && run[i].busy[t].Writing?
    ensures PageOf(run[i + 1], run[i].busy[t].o, run[i].busy[t].f) == Some(run[i].busy[t].data)
  {
    RunInv(run, acts, i);
    assert Follows(run[i], acts[i], run[i + 1]);
    TransferElsewhere(run[i], t);
  }

  /** In every quiet run, once a write has been transferred its page reads as the data, whatever else is written,
      read, released, made, freed or evacuated in between, until the page is addressed again. */
  lemma ReadsLastWrite(run: seq<State>, acts: seq<Action>, i: nat, j: nat, t: nat)
    requires IsRun(run, acts) && i < j < |run| && QuietUpTo(run, acts, j) && acts[i] == Transfer(t)
    requires t in run[i].busy && run[i].busy[t].Writing?
    requires forall k :: i < k < j ==> Untouched(run, acts, k, run[i].busy[t].o, run[i].busy[t].f)
    ensures PageOf(run[j], run[i].busy[t].o, run[i].busy[t].f) == Some(run[i].busy[t].data)
  {
    FirstRead(run, acts, i, t);
    ReadsAsBefore(run, acts, i + 1, j, run[i].busy[t].o, run[i].busy[t].f);
  }

  /** When destroy_paging_partition succeeds in a quiet run, no map and nothing in hand refers to the partition
      that is removed, and no object that its pass has visited turns to it. */
  lemma RemovedIsUnreferenced(run: seq<State>, acts: seq<Action>, i: nat, o: nat)
    requires IsRun(run, acts) && i < |acts| && QuietUpTo(run, acts, i + 1) && acts[i] == FinishDestroy
    requires o in run[i + 1].objs
    ensures run[i].evac.Some? && run[i].evac.value.phase.Passed?
    ensures var pindex := run[i].evac.value.pindex;
            && pindex < |run[i + 1].parts| && run[i + 1].parts[pindex].None?
            && ClearPages(run[i + 1].objs[o].pages, pindex)
            && (o in run[i].evac.value.phase.visited ==> run[i + 1].objs[o].cur != pindex)
  {
    RunInv(run, acts, i);
    assert Follows(run[i], acts[i], run[i + 1]) && QuietAt(run[i], acts[i]);
  }
}
