/** The small-block allocator of the bootstrap task (bootstrap/kalloc.c): free lists by size class in
    front of a bump allocator, kget_space, which drops its lock while it maps more memory.  Threads
    interleave at the lock; what a thread has mapped but not yet added to the space is its own. */
module Kalloc {

  import opened Options

  /** MINSIZE and KLIST_MAX. */
  const MINSIZE := 4
  const CLASSES := 13

  // ---------------------------------------------------------------- size classes

  /** The size of the blocks on list `c`. */
  function Size(c: nat): (r: nat)
    ensures r >= MINSIZE
  {
    if c == 0 then MINSIZE else 2 * Size(c - 1)
  }

  /** The loop of kalloc and kfree: the first class whose blocks are large enough. */
  method SizeClass(size: nat) returns (c: nat, allocsize: nat)
    ensures allocsize == Size(c) && size <= allocsize
    ensures c > 0 ==> Size(c - 1) < size
  {
    c, allocsize := 0, MINSIZE;
    while allocsize < size
      invariant allocsize == Size(c) && (c > 0 ==> Size(c - 1) < size)
      decreases size - allocsize
    {
      c, allocsize := c + 1, 2 * allocsize;
    }
  }

  lemma {:induction false} SizeGrows(c: nat, d: nat)
    requires c <= d
    ensures Size(c) <= Size(d) && (c < d ==> Size(c) < Size(d))
    decreases d
  {
    if c < d { SizeGrows(c, d - 1); }
  }

  /** kfree given the size that kalloc was given finds the list the block came from: there is only one
      class that the loop can stop at. */
  lemma SameClass(size: nat, c: nat, d: nat)
    requires size <= Size(c) && size <= Size(d) && (c > 0 ==> Size(c - 1) < size) && (d > 0 ==> Size(d - 1) < size)
    ensures c == d
  {
    if c < d { SizeGrows(c, d - 1); }
    if d < c { SizeGrows(d, c - 1); }
  }

  // ---------------------------------------------------------------- the allocator's state

  const PAGE := 4096

  function RoundPage(n: nat): nat { (n + PAGE - 1) / PAGE * PAGE }

  datatype Range = Range(base: nat, len: nat)

  predicate Apart(r: Range,
                  q: Range) { r.len == 0 || q.len == 0 || r.base + r.len <= q.base || q.base + q.len <= r.base }

  /** A block of list `cls`. */
  datatype Blk = Blk(addr: nat, cls: nat)

  /** In kget_space: before taking its lock, mapping memory without it, or about to unmap memory that
      turned out not to be needed. */
  datatype Pc = Idle | Wants | Mapping | Trashing

  datatype Thread = Thread(pc: Pc, cls: nat, mine: Option<Range>)

  /** `live` are the blocks handed out and not freed, `gone` the remainders thrown away, `mapped` the bytes
      mapped for small blocks. */
  datatype State = State(next: nat, end: nat, wasted: nat, free: seq<seq<nat>>, live: seq<Blk>, gone: seq<Range>,
                         threads: seq<Thread>, mapped: int)

  /** Who may hold a piece of the mapped memory: a caller, a free list, nobody any more, a thread that has
      mapped it, or the space that kget_space cuts blocks from. */
  datatype Holder = InUse(i: nat) | OnList(c: nat, j: nat) | Thrown(i: nat) | InHand(k: nat) | Space

  predicate Holds(s: State, h: Holder) {
    match h
    case InUse(i) => i < |s.live|
    case OnList(c, j) => c < |s.free| && j < |s.free[c]|
    case Thrown(i) => i < |s.gone|
    case InHand(k) => k < |s.threads| && s.threads[k].mine.Some?
    case Space => true
  }

  function Left(s: State): Range { Range(s.next, if s.next <= s.end then s.end - s.next else 0) }

  function Area(s: State, h: Holder): Range
    requires Holds(s, h)
  {
    match h
    case InUse(i) => Range(s.live[i].addr, Size(s.live[i].cls))
    case OnList(c, j) => Range(s.free[c][j], Size(c))
    case Thrown(i) => s.gone[i]
    case InHand(k) => s.threads[k].mine.value
    case Space => Left(s)
  }

  /** No two holders' pieces overlap. */
  ghost predicate AllApart(s: State) {
    forall h, g :: Holds(s, h) && Holds(s, g) && h != g ==> Apart(Area(s, h), Area(s, g))
  }

  function LiveSum(live: seq<Blk>): nat {
    if live == [] then 0 else LiveSum(live[..|live| - 1]) + Size(live[|live| - 1].cls)
  }

  function ListSum(list: seq<nat>, c: nat): nat { if list == [] then 0 else Size(c) + ListSum(list[1..], c) }

  function FreeSum(free: seq<seq<nat>>, n: nat): nat
    requires n <= |free|
  {
    if n == 0 then 0 else FreeSum(free, n - 1) + ListSum(free[n - 1], n - 1)
  }

  function GoneSum(gone: seq<Range>): nat {
    if gone == [] then 0 else GoneSum(gone[..|gone| - 1]) + gone[|gone| - 1].len
  }

  function MineLen(o: Option<Range>): nat { if o.None? then 0 else o.value.len }

  function MineSum(threads: seq<Thread>, n: nat): nat
    requires n <= |threads|
  {
    if n == 0 then 0 else MineSum(threads, n - 1) + MineLen(threads[n - 1].mine)
  }

  predicate ThreadOk(t: Thread) {
    && (t.pc.Idle? || t.pc.Mapping? ==> t.mine.None?) && (t.pc.Trashing? ==> t.mine.Some?)
    && (!t.pc.Idle? ==> t.cls < CLASSES)
  }

  /** Lists, space and threads are in order. */
  predicate Tidy(s: State) {
    && |s.free| == CLASSES && s.next <= s.end
    && (forall k :: 0 <= k < |s.threads| ==> ThreadOk(s.threads[k]))
    && (forall i :: 0 <= i < |s.live| ==> s.live[i].cls < CLASSES)
  }

  /** Mapped bytes are those in use, on lists, wasted, in the hands of threads, and left in the space. */
  predicate Counted(s: State) {
    && s.wasted == GoneSum(s.gone)
    && s.mapped == LiveSum(s.live) + FreeSum(s.free, |s.free|) + s.wasted + MineSum(s.threads, |s.threads|)
       + (s.end - s.next)
  }

  ghost predicate Inv(s: State) { Tidy(s) && Counted(s) && AllApart(s) }

  // ---------------------------------------------------------------- steps

  datatype Action =
    | FromList(c: nat)             // kalloc with a block on the list
    | Ask(k: nat, c: nat)          // kalloc without one: kget_space
    | Enter(k: nat)                // the lock of kget_space, once round its loop
    | Map(k: nat, base: nat)       // vm_map returns a region
    | MapFails(k: nat)
    | Unmap(k: nat)                // vm_deallocate of a region not needed
    | Free(i: nat)                 // kfree of a block in use

  /** vm_map returns memory that is not mapped. */
  ghost predicate Fresh(s: State, r: Range) { forall h :: Holds(s, h) ==> Apart(r, Area(s, h)) }

  predicate ThreadAt(s: State, k: nat, pc: Pc) { k < |s.threads| && s.threads[k].pc == pc }

  ghost predicate Enabled(s: State, a: Action) {
    match a
    case FromList(c) => c < |s.free| && s.free[c] != []
    case Ask(k, c) => ThreadAt(s, k, Idle) && c < CLASSES && c < |s.free| && s.free[c] == []
    case Enter(k) => ThreadAt(s, k, Wants)
    case Map(k, base) => ThreadAt(s, k, Mapping) && Fresh(s, Range(base, RoundPage(Size(s.threads[k].cls))))
    case MapFails(k) => ThreadAt(s, k, Mapping)
    case Unmap(k) => ThreadAt(s, k, Trashing) && s.threads[k].mine.Some?
    case Free(i) => i < |s.live| && s.live[i].cls < |s.free|
  }

  function Without<T>(q: seq<T>, i: nat): (r: seq<T>)
    requires i < |q|
    ensures |r| == |q| - 1 && forall j :: 0 <= j < |r| ==> r[j] == if j < i then q[j] else q[j + 1]
  {
    q[..i] + q[i + 1..]
  }

  /** Once round the loop of kget_space. */
  function DoEnter(s: State, k: nat): State
    requires ThreadAt(s, k, Wants)
  {
    var t := s.threads[k];
    var size := Size(t.cls);
    if s.next + size <= s.end then
      s.(next := s.next + size, live := s.live + [Blk(s.next, t.cls)],
         threads := s.threads[k := t.(pc := if t.mine.Some? then Trashing else Idle)])
    else if t.mine.None? then s.(threads := s.threads[k := t.(pc := Mapping)])
    else
      var r := t.mine.value;
      var taken := s.threads[k := t.(mine := None)];
      if r.base != s.end then
        s.(wasted := s.wasted + Left(s).len, gone := s.gone + [Left(s)], next := r.base, end := r.base + r.len,
          threads := taken)
      else s.(end := r.base + r.len, threads := taken)
  }

  ghost function Apply(s: State, a: Action): State
    requires Enabled(s, a)
  {
    match a
    case FromList(c) => s.(free := s.free[c := s.free[c][1..]], live := s.live + [Blk(s.free[c][0], c)])
    case Ask(k, c) => s.(threads := s.threads[k := Thread(Wants, c, None)])
    case Enter(k) => DoEnter(s, k)
    case Map(k, base) =>
      var r := Range(base, RoundPage(Size(s.threads[k].cls)));
      s.(mapped := s.mapped + r.len, threads := s.threads[k := s.threads[k].(pc := Wants, mine := Some(r))])
    case MapFails(k) => s.(threads := s.threads[k := s.threads[k].(pc := Idle)])
    case Unmap(k) =>
      s.(mapped := s.mapped - s.threads[k].mine.value.len,
        threads := s.threads[k := s.threads[k].(pc := Idle, mine := None)])
    case Free(i) =>
      var b := s.live[i];
      s.(live := Without(s.live, i), free := s.free[b.cls := [b.addr] + s.free[b.cls]])
  }

  // ---------------------------------------------------------------- bytes are conserved

  lemma LiveAdds(live: seq<Blk>, b: Blk)
    ensures LiveSum(live + [b]) == LiveSum(live) + Size(b.cls)
  {
    assert (live + [b])[..|live|] == live;
  }

  lemma {:induction false} LiveDrops(live: seq<Blk>, i: nat)
    requires i < |live|
    ensures LiveSum(live) == LiveSum(Without(live, i)) + Size(live[i].cls)
    decreases |live|
  {
    var n := |live| - 1;
    var rest := live[..n];
    if i < n {
      LiveDrops(rest, i);
      assert Without(live, i) == Without(rest, i) + [live[n]];
      LiveAdds(Without(rest, i), live[n]);
    } else {
      assert Without(live, i) == rest;
    }
  }

  predicate Pushed(free: seq<seq<nat>>, free': seq<seq<nat>>, c: nat, addr: nat) {
    c < |free| == |free'| && free'[c] == [addr] + free[c]
    && forall i :: 0 <= i < |free| && i != c ==> free'[i] == free[i]
  }

  lemma {:induction false} FreePush(free: seq<seq<nat>>, free': seq<seq<nat>>, c: nat, addr: nat, n: nat)
    requires Pushed(free, free', c, addr) && n <= |free|
    ensures FreeSum(free', n) == FreeSum(free, n) + if c < n then Size(c) else 0
  {
    if n > 0 {
      FreePush(free, free', c, addr, n - 1);
      assert ([addr] + free[c])[1..] == free[c];
    }
  }

  lemma {:induction false} MineChange(threads: seq<Thread>, k: nat, t: Thread, n: nat)
    requires k < |threads| && n <= |threads|
    ensures MineSum(threads[k := t], n) + (if k < n then MineLen(threads[k].mine) else 0)
         == MineSum(threads, n) + (if k < n then MineLen(t.mine) else 0)
  {
    if n > 0 { MineChange(threads, k, t, n - 1); }
  }

  lemma GoneAdds(gone: seq<Range>, r: Range)
    ensures GoneSum(gone + [r]) == GoneSum(gone) + r.len
  {
    assert (gone + [r])[..|gone|] == gone;
  }

  lemma EnterCounted(s: State, k: nat)
    requires ThreadAt(s, k, Wants) && s.next <= s.end && Counted(s)
    ensures Counted(DoEnter(s, k)) && DoEnter(s, k).next <= DoEnter(s, k).end
  {
    var t, r := s.threads[k], DoEnter(s, k);
    MineChange(s.threads, k, r.threads[k], |s.threads|);
    if s.next + Size(t.cls) <= s.end {
      LiveAdds(s.live, Blk(s.next, t.cls));
      assert MineSum(r.threads, |r.threads|) == MineSum(s.threads, |s.threads|);
    } else if t.mine.Some? && t.mine.value.base != s.end {
      GoneAdds(s.gone, Left(s));
    }
  }

  lemma BlocksCounted(s: State, a: Action)
    requires Enabled(s, a) && Counted(s) && (a.FromList? || a.Free?)
    ensures Counted(Apply(s, a))
  {
    var t := Apply(s, a);
    match a {
      case FromList(c) =>
        LiveAdds(s.live, Blk(s.free[c][0], c));
        assert s.free[c] == [s.free[c][0]] + t.free[c];
        FreePush(t.free, s.free, c, s.free[c][0], |s.free|);
      case Free(i) =>
        LiveDrops(s.live, i);
        FreePush(s.free, t.free, s.live[i].cls, s.live[i].addr, |s.free|);
    }
  }

  lemma StepCounted(s: State, a: Action)
    requires Enabled(s, a) && Tidy(s) && Counted(s)
    ensures Counted(Apply(s, a))
  {
    var t := Apply(s, a);
    match a {
      case FromList(c) => BlocksCounted(s, a);
      case Free(i) => BlocksCounted(s, a);
      case Enter(k) => EnterCounted(s, k);
      case Ask(k, c) => assert ThreadOk(s.threads[k]); MineChange(s.threads, k, t.threads[k], |s.threads|);
      case Map(k, base) => assert ThreadOk(s.threads[k]); MineChange(s.threads, k, t.threads[k], |s.threads|);
      case MapFails(k) => MineChange(s.threads, k, t.threads[k], |s.threads|);
      case Unmap(k) => MineChange(s.threads, k, t.threads[k], |s.threads|);
    }
  }

  lemma StepTidy(s: State, a: Action)
    requires Enabled(s, a) && Tidy(s)
    ensures Tidy(Apply(s, a))
  {
    match a {
      case FromList(c) => case Free(i) =>
      case Enter(k) => assert ThreadOk(s.threads[k]);
      case Ask(k, c) =>
      case Map(k, base) => assert ThreadOk(s.threads[k]);
      case MapFails(k) => assert ThreadOk(s.threads[k]);
      case Unmap(k) => assert ThreadOk(s.threads[k]);
    }
  }

  // ---------------------------------------------------------------- pieces stay apart

  predicate Inside(r: Range, q: Range) { r.len == 0 || (q.base <= r.base && r.base + r.len <= q.base + q.len) }

  /** Each piece of `t` lies inside a piece of `s`, different ones in different ones. */
  ghost predicate Comes(s: State, t: State, from: Holder -> Holder) {
    && (forall h :: Holds(t, h) ==> Holds(s, from(h)) && Inside(Area(t, h), Area(s, from(h))))
    && (forall h, g :: Holds(t, h) && Holds(t, g) && h != g ==> from(h) != from(g) || Apart(Area(t, h), Area(t, g)))
  }

  lemma ComesApart(s: State, t: State, from: Holder -> Holder)
    requires AllApart(s) && Comes(s, t, from)
    ensures AllApart(t)
  {
    forall h, g | Holds(t, h) && Holds(t, g) && h != g ensures Apart(Area(t, h), Area(t, g)) {
      if from(h) != from(g) {
        assert Apart(Area(s, from(h)), Area(s, from(g)));
      }
    }
  }

  lemma FromListApart(s: State, c: nat)
    requires AllApart(s) && Enabled(s, FromList(c))
    ensures AllApart(Apply(s, FromList(c)))
  {
    var t := Apply(s, FromList(c));
    var n := |s.live|;
    ComesApart(s, t, (h: Holder) =>
      if h == InUse(n) then OnList(c, 0)
      else if h.OnList? && h.c == c then OnList(c, h.j + 1)
      else h);
  }

  /** Whose piece a holder has after block `i` was put on list `c`. */
  function FreedFrom(i: nat, c: nat, h: Holder): Holder {
    match h
    case InUse(j) => if j < i then h else InUse(j + 1)
    case OnList(d, j) => if d != c then h else if j == 0 then InUse(i) else OnList(c, j - 1)
    case _ => h
  }

  lemma FreedPiece(s: State, i: nat, h: Holder)
    requires Enabled(s, Free(i)) && Holds(Apply(s, Free(i)), h)
    ensures var g := FreedFrom(i, s.live[i].cls, h); Holds(s, g) && Area(s, g) == Area(Apply(s, Free(i)), h)
  {
    match h { case InUse(j) => case OnList(d, j) => case Thrown(j) => case InHand(k) => case Space => }
  }

  lemma FreedApart(i: nat, c: nat, h: Holder, g: Holder)
    requires h != g
    ensures FreedFrom(i, c, h) != FreedFrom(i, c, g)
  {
  }

  lemma FreeApart(s: State, i: nat)
    requires AllApart(s) && Enabled(s, Free(i))
    ensures AllApart(Apply(s, Free(i)))
  {
    var t := Apply(s, Free(i));
    var c := s.live[i].cls;
    forall h, g | Holds(t, h) && Holds(t, g) && h != g ensures Apart(Area(t, h), Area(t, g)) {
      FreedPiece(s, i, h);
      FreedPiece(s, i, g);
      FreedApart(i, c, h, g);
      assert Apart(Area(s, FreedFrom(i, c, h)), Area(s, FreedFrom(i, c, g)));
    }
  }

  /** kget_space finds room: the block is cut off the space. */
  lemma TakeApart(s: State, k: nat)
    requires AllApart(s) && ThreadAt(s, k, Wants) && s.next + Size(s.threads[k].cls) <= s.end
    ensures AllApart(DoEnter(s, k))
  {
    var n := |s.live|;
    ComesApart(s, DoEnter(s, k), h => if h == InUse(n) then Space else h);
  }

  predicate MustUse(s: State, k: nat) {
    ThreadAt(s, k, Wants) && s.next + Size(s.threads[k].cls) > s.end && s.threads[k].mine.Some?
  }

  /** The region does not follow the space: the rest of the space is thrown away. */
  lemma ReplaceApart(s: State, k: nat)
    requires AllApart(s) && MustUse(s, k) && s.threads[k].mine.value.base != s.end
    ensures AllApart(DoEnter(s, k))
  {
    var n := |s.gone|;
    ComesApart(s, DoEnter(s, k), h => if h == Thrown(n) then Space else if h == Space then InHand(k) else h);
  }

  /** The region follows the space: they are joined. */
  lemma ExtendApart(s: State, k: nat)
    requires AllApart(s) && s.next <= s.end && MustUse(s, k) && s.threads[k].mine.value.base == s.end
    ensures AllApart(DoEnter(s, k))
  {
    var t := DoEnter(s, k);
    forall h, g | Holds(t, h) && Holds(t, g) && h != g ensures Apart(Area(t, h), Area(t, g)) {
      assert Holds(s, h) && Holds(s, g) && Holds(s, InHand(k)) && h != InHand(k) && g != InHand(k);
      assert Apart(Area(s, h), Area(s, g)) && Apart(Area(s, h), Area(s, InHand(k)))
             && Apart(Area(s, InHand(k)), Area(s, g));
    }
  }

  lemma EnterApart(s: State, k: nat)
    requires AllApart(s) && s.next <= s.end && ThreadAt(s, k, Wants)
    ensures AllApart(DoEnter(s, k))
  {
    var t := s.threads[k];
    if s.next + Size(t.cls) <= s.end { TakeApart(s, k); }
    else if t.mine.None? { ComesApart(s, DoEnter(s, k), h => h); }
    else if t.mine.value.base == s.end { ExtendApart(s, k); }
    else { ReplaceApart(s, k); }
  }

  lemma MapApart(s: State, k: nat, base: nat)
    requires AllApart(s) && Enabled(s, Map(k, base)) && s.threads[k].mine.None?
    ensures AllApart(Apply(s, Map(k, base)))
  {
    var t := Apply(s, Map(k, base));
    forall h, g | Holds(t, h) && Holds(t, g) && h != g ensures Apart(Area(t, h), Area(t, g)) {
      assert h != InHand(k) ==> Holds(s, h) && Area(s, h) == Area(t, h);
      assert g != InHand(k) ==> Holds(s, g) && Area(s, g) == Area(t, g);
    }
  }

  lemma StepApart(s: State, a: Action)
    requires Inv(s) && Enabled(s, a)
    ensures AllApart(Apply(s, a))
  {
    match a {
      case FromList(c) => FromListApart(s, c);
      case Ask(k, c) => assert ThreadOk(s.threads[k]); ComesApart(s, Apply(s, a), h => h);
      case Enter(k) => EnterApart(s, k);
      case Map(k, base) => assert ThreadOk(s.threads[k]); MapApart(s, k, base);
      case MapFails(k) => ComesApart(s, Apply(s, a), h => h);
      case Unmap(k) => ComesApart(s, Apply(s, a), h => h);
      case Free(i) => FreeApart(s, i);
    }
  }

  lemma StepKeepsInv(s: State, a: Action)
    requires Inv(s) && Enabled(s, a)
    ensures Inv(Apply(s, a))
  {
    StepTidy(s, a);
    StepCounted(s, a);
    StepApart(s, a);
  }

  // ---------------------------------------------------------------- whole runs

  /** kalloc_init: an empty space that does not begin at 0, empty lists, any number of threads. */
  predicate Start(s: State) {
    && s.next == s.end == PAGE && s.wasted == 0 && s.mapped == 0 && s.live == [] && s.gone == []
    && |s.free| == CLASSES && (forall c :: 0 <= c < CLASSES ==> s.free[c] == [])
    && forall k :: 0 <= k < |s.threads| ==> s.threads[k] == Thread(Idle, 0, None)
  }

  lemma {:induction false} EmptySums(s: State, n: nat, m: nat)
    requires Start(s) && n <= |s.free| && m <= |s.threads|
    ensures FreeSum(s.free, n) == 0 && MineSum(s.threads, m) == 0
  {
    if n > 0 { EmptySums(s, n - 1, m); } else if m > 0 { EmptySums(s, n, m - 1); }
  }

  ghost predicate Follows(s: State, a: Action, t: State) { Enabled(s, a) && t == Apply(s, a) }

  ghost predicate IsRun(run: seq<State>, acts: seq<Action>) {
    && |run| == |acts| + 1 && Start(run[0])
    && forall i :: 0 <= i < |acts| ==> Follows(run[i], acts[i], run[i + 1])
  }

  lemma {:induction false} RunInv(run: seq<State>, acts: seq<Action>, i: nat)
    requires IsRun(run, acts) && i < |run|
    ensures Inv(run[i])
  {
    if i == 0 {
      EmptySums(run[0], CLASSES, |run[0].threads|);
    } else {
      RunInv(run, acts, i - 1);
      assert Follows(run[i - 1], acts[i - 1], run[i]);
      StepKeepsInv(run[i - 1], acts[i - 1]);
    }
  }

  /** In every state of every run, two blocks in use never overlap, and none overlaps a block on a free
      list, memory another thread has mapped, or the space blocks are cut from. */
  lemma BlocksNeverOverlap(run: seq<State>, acts: seq<Action>, n: nat, i: nat, h: Holder)
    requires IsRun(run, acts) && n < |run| && i < |run[n].live| && Holds(run[n], h) && h != InUse(i)
    ensures var b := run[n].live[i]; Apart(Range(b.addr, Size(b.cls)), Area(run[n], h))
  {
    RunInv(run, acts, n);
    assert Holds(run[n], InUse(i)) && Apart(Area(run[n], InUse(i)), Area(run[n], h));
  }

  /** In every state of every run the mapped bytes are accounted for: in use, on lists, wasted, in the hands
      of threads, and left in the space. */
  lemma BytesConserved(run: seq<State>, acts: seq<Action>, n: nat)
    requires IsRun(run, acts) && n < |run|
    ensures var s := run[n];
            s.mapped == LiveSum(s.live) + FreeSum(s.free, |s.free|) + s.wasted + MineSum(s.threads, |s.threads|)
              + (s.end - s.next)
  {
    RunInv(run, acts, n);
  }
}
