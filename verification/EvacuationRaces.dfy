/** Runs of the default pager in which removing a partition does harm (bootstrap/default_pager.c): the pass over the
    objects looks neither at writes that have found their block nor at blocks on their way back. */
module EvacuationRaces {

  import opened BlockStore
  import opened Options
  import opened PageMap
  import opened PagingSystem

  /** Two partitions of one block each, the first perhaps going away, with their marked blocks. */
  function Two(used0: set<nat>, going: bool, used1: set<nat>): Parts {
    [Some(Part(1, 1, if used0 == {} then 1 else 0, used0, going)),
      Some(Part(2, 1, if used1 == {} then 1 else 0, used1, false))]
  }

  const OLD := Block(0, 0)
  const NEW := Block(1, 0)

  const DATA: Data := [1]

  function OnePage(e: Entry, cur: nat): map<nat, Obj> { map[0 := Obj([e], cur)] }

  const WRITING := Writing(0, 0, OLD, DATA)

  /** Two partitions, and one object of one page without a block. */
  function Idle(): State { State(Two({}, false, {}), OnePage(None, 0), map[], {0}, {}, map[], None) }

  function Made(): seq<State> {
    [State([], map[], map[], {}, {}, map[], None),
     State([Some(Part(1, 1, 1, {}, false)), None], map[], map[], {}, {}, map[], None),
     State(Two({}, false, {}), map[], map[], {}, {}, map[], None),
     State(Two({}, false, {}), OnePage(None, 0), map[], {}, {}, map[], None),
     Idle()]
  }

  function Making(): seq<Action> { [CreatePart(1, 1), CreatePart(2, 1), Make(0, 0), List(0)] }

  /** A thread is in pager_write_offset for page 0 of the object. */
  function Entered(): State { Idle().(busy := map[0 := Placing(0, 0, DATA)]) }

  /** Page 0 of the object has been given block 0 of the first partition. */
  function Claimed(): State {
    State(Two({0}, false, {}), OnePage(Some(OLD), 0), map[OLD := []], {0}, {}, map[0 := WRITING], None)
  }

  lemma MakingRuns()
    ensures IsRun(Made(), Making())
  {
    var m := Made();
    assert Follows(m[0], CreatePart(1, 1), m[1]);
    assert Follows(m[1], CreatePart(2, 1), m[2]) by {
      assert AddPart(m[1].parts, Part(2, 1, 1, {}, false)) == m[2].parts;
    }
    assert Follows(m[2], Make(0, 0), m[3]) by {
      assert Choose(m[2].parts, 0, NO_PARTITION) == 0;
      assert Grown([], Doubled(1, 0)) == [None];
    }
    assert Follows(m[3], List(0), m[4]);
  }

  lemma Allocates(parts: Parts, i: nat)
    requires i < |parts| && i != NO_PARTITION && Usable(parts[i]) && parts[i].value.free == 1
    requires parts[i].value.used == {}
    ensures AllocPage(parts, i) == (parts[i := Some(parts[i].value.(free := 0, used := {0}))], Some(0))
  {
    assert LeastOut({}, 0) == 0;
    assert {} + {0} == {0};
  }

  lemma Claims()
    ensures Follows(Idle(), Claim(0, 0, 0, DATA), Entered()) && Follows(Entered(), Try(0), Claimed())
  {
    var s, t := Idle(), Entered();
    assert Covering([None], 0) == [None];
    assert DoClaim(s, 0, 0, 0, DATA).objs == t.objs && DoClaim(s, 0, 0, 0, DATA).busy == t.busy;
    Allocates(t.parts, 0);
    assert AllocPage(t.parts, 0).0 == Two({0}, false, {});
    assert [None][0 := Some(OLD)] == [Some(OLD)];
    var r := Apply(t, Try(0));
    assert r.objs == Claimed().objs && r.busy == Claimed().busy && r.disk == Claimed().disk;
  }

  /** The first partition is going away; its object has its page on it or not. */
  function Going(used0: set<nat>, used1: set<nat>, objs: map<nat, Obj>, disk: map<Block, Data>, listed: set<nat>,
                 doomed: set<nat>, busy: map<nat, Pend>, phase: Phase): State {
    State(Two(used0, true, used1), objs, disk, listed, doomed, busy, Some(Evac(0, phase)))
  }

  const MOVED := map[OLD := [], NEW := []]

  /** No thread is in pager_write_offset. */
  predicate NoPlacer(busy: map<nat, Pend>) { forall t :: t in busy ==> !Placer(busy[t]) }

  /** The pass comes to the object. */
  lemma Comes(used0: set<nat>, used1: set<nat>, objs: map<nat, Obj>, disk: map<Block, Data>, doomed: set<nat>,
              busy: map<nat, Pend>)
    requires NoPlacer(busy) && 0 in objs
    ensures Follows(Going(used0, used1, objs, disk, {0}, doomed, busy, Passing({0})), Visit(0),
                    Going(used0, used1, objs, disk, {0}, doomed, busy, Visiting({0}, 0, 0)))
  {
  }

  /** It leaves the object, which turns to the second partition. */
  lemma Goes(used0: set<nat>, used1: set<nat>, objs: map<nat, Obj>, disk: map<Block, Data>, doomed: set<nat>,
             busy: map<nat, Pend>)
    requires 0 in objs && |objs[0].pages| == 1
    ensures Follows(Going(used0, used1, objs, disk, {0}, doomed, busy, Visiting({0}, 0, 1)), Leave,
                    Going(used0, used1, objs[0 := Obj(objs[0].pages, 1)], disk, {0}, doomed, busy, Passing({})))
  {
    var s := Going(used0, used1, objs, disk, {0}, doomed, busy, Visiting({0}, 0, 1));
    assert ChooseFrom(s.parts, 0, NO_PARTITION, 1) == 1;
    assert {0} - {0} == {};
    assert DoLeave(s).objs == objs[0 := Obj(objs[0].pages, 1)];
  }

  lemma FirstOther()
    ensures Choose(Two({0}, true, {}), Ptoa(1), 0) == 1
    ensures MovePage(Two({0}, true, {}), map[OLD := []], OLD) == (Two({}, true, {0}), MOVED, Some(NEW))
  {
    var parts := Two({0}, true, {});
    assert ChooseFrom(parts, Ptoa(1), 0, 1) == 1;
    Allocates(parts, 1);
    assert {0} - {0} == {};
    var moved := MovePage(parts, map[OLD := []], OLD);
    assert moved.0 == Two({}, true, {0}) && moved.1 == MOVED && moved.2 == Some(NEW);
  }

  /** It moves the page. */
  lemma MovesPage(busy: map<nat, Pend>)
    requires NoPlacer(busy)
    ensures Follows(Going({0}, {}, OnePage(Some(OLD), 0), map[OLD := []], {0}, {}, busy, Visiting({0}, 0, 0)), MoveNext,
                    Going({}, {0}, OnePage(Some(NEW), 0), MOVED, {0}, {}, busy, Visiting({0}, 0, 1)))
  {
    var s := Going({0}, {}, OnePage(Some(OLD), 0), map[OLD := []], {0}, {}, busy, Visiting({0}, 0, 0));
    FirstOther();
    assert [Some(OLD)][0 := Some(NEW)] == [Some(NEW)];
    assert DoMove(s).objs == OnePage(Some(NEW), 0);
  }

  lemma Begins(used0: set<nat>, used1: set<nat>, objs: map<nat, Obj>, disk: map<Block, Data>, listed: set<nat>,
               doomed: set<nat>, busy: map<nat, Pend>)
    ensures Follows(State(Two(used0, false, used1), objs, disk, listed, doomed, busy, None), BeginDestroy(1),
                    Going(used0, used1, objs, disk, listed, doomed, busy, Between))
  {
    var parts := Two(used0, false, used1);
    assert FindPart(parts, 1, 0) == 0;
    assert SetGoing(parts, 0, true) == Two(used0, true, used1);
  }

  lemma Finishes(used0: set<nat>, used1: set<nat>, objs: map<nat, Obj>, disk: map<Block, Data>, listed: set<nat>,
                 doomed: set<nat>, busy: map<nat, Pend>)
    ensures Follows(Going(used0, used1, objs, disk, listed, doomed, busy, Passing({})), EndPass,
                    Going(used0, used1, objs, disk, listed, doomed, busy, Passed(listed)))
    ensures Follows(Going(used0, used1, objs, disk, listed, doomed, busy, Passed(listed)), FinishDestroy,
                    State([None, Two(used0, true, used1)[1]], objs, disk, listed, doomed, busy, None))
  {
    assert Two(used0, true, used1)[0 := None] == [None, Two(used0, true, used1)[1]];
  }

  /** The steps of destroy_paging_partition up to its first object, and from its last one on. */
  lemma Passes(used0: set<nat>, used1: set<nat>, objs: map<nat, Obj>, disk: map<Block, Data>, listed: set<nat>,
               doomed: set<nat>, busy: map<nat, Pend>)
    requires NoPlacer(busy)
    ensures Follows(State(Two(used0, false, used1), objs, disk, listed, doomed, busy, None), BeginDestroy(1),
                    Going(used0, used1, objs, disk, listed, doomed, busy, Between))
    ensures Follows(Going(used0, used1, objs, disk, listed, doomed, busy, Between), StartPass,
                    Going(used0, used1, objs, disk, listed, doomed, busy, Passing(listed)))
    ensures Follows(Going(used0, used1, objs, disk, listed, doomed, busy, Passing({})), EndPass,
                    Going(used0, used1, objs, disk, listed, doomed, busy, Passed(listed)))
    ensures Follows(Going(used0, used1, objs, disk, listed, doomed, busy, Passed(listed)), FinishDestroy,
                    State([None, Two(used0, true, used1)[1]], objs, disk, listed, doomed, busy, None))
  {
    Begins(used0, used1, objs, disk, listed, doomed, busy);
    Finishes(used0, used1, objs, disk, listed, doomed, busy);
  }

  lemma Join(run: seq<State>, acts: seq<Action>, more: seq<State>, next: seq<Action>)
    requires IsRun(run, acts) && |more| == |next| + 1 && run[|run| - 1] == more[0]
    requires forall i :: 0 <= i < |next| ==> Follows(more[i], next[i], more[i + 1])
    ensures IsRun(run + more[1..], acts + next)
  {
    var all, as_ := run + more[1..], acts + next;
    forall i | 0 <= i < |as_| ensures Follows(all[i], as_[i], all[i + 1]) {
      if i >= |acts| {
        assert Follows(more[i - |acts|], next[i - |acts|], more[i - |acts| + 1]);
        assert all[i] == more[i - |acts|] && all[i + 1] == more[i - |acts| + 1];
      }
    }
  }

  /** The run in which a write has found its block when the pass comes to its page, and the page moves. */
  function LosingRun(): seq<State> {
    var was, now, busy := OnePage(Some(OLD), 0), OnePage(Some(NEW), 0), map[0 := WRITING];
    Made() + [Entered(), Claimed(), Going({0}, {}, was, map[OLD := []], {0}, {}, busy, Between),
              Going({0}, {}, was, map[OLD := []], {0}, {}, busy, Passing({0})),
              Going({0}, {}, was, map[OLD := []], {0}, {}, busy, Visiting({0}, 0, 0)),
              Going({}, {0}, now, MOVED, {0}, {}, busy, Visiting({0}, 0, 1))]
  }

  function LosingActs(): seq<Action> {
    Making() + [Claim(0, 0, 0, DATA), Try(0), BeginDestroy(1), StartPass, Visit(0), MoveNext]
  }

  lemma Losing()
    ensures IsRun(LosingRun(), LosingActs())
  {
    var was, now, busy := OnePage(Some(OLD), 0), OnePage(Some(NEW), 0), map[0 := WRITING];
    MakingRuns();
    Claims();
    Passes({0}, {}, was, map[OLD := []], {0}, {}, busy);
    Comes({0}, {}, was, map[OLD := []], {}, busy);
    MovesPage(busy);
    var more := [Idle()] + LosingRun()[5..];
    var next := LosingActs()[4..];
    Join(Made(), Making(), more, next);
    assert Made() + more[1..] == LosingRun() && Making() + next == LosingActs();
  }

  /** A write has found its block when the pass comes to its page: the page moves without the data, the write goes to
      the block the page has left, and is lost. */
  lemma WriteLost() returns (run: seq<State>, acts: seq<Action>)
    ensures IsRun(run, acts) && |acts| == 11 && acts[10] == Transfer(0) && run[10].busy == map[0 := WRITING]
    ensures PageOf(run[11], 0, 0) == Some([]) && WRITING.data != []
  {
    Losing();
    var moved := Going({}, {0}, OnePage(Some(NEW), 0), MOVED, {0}, {}, map[0 := WRITING], Visiting({0}, 0, 1));
    assert LosingRun()[10] == moved;
    assert Follows(moved, Transfer(0), Apply(moved, Transfer(0)));
    Join(LosingRun(), LosingActs(), [moved, Apply(moved, Transfer(0))], [Transfer(0)]);
    run, acts := LosingRun() + [Apply(moved, Transfer(0))], LosingActs() + [Transfer(0)];
  }

  /** The same write, later still: its partition has been removed. */
  lemma WriteFaults() returns (run: seq<State>, acts: seq<Action>)
    ensures IsRun(run, acts) && var s := run[|acts|]; Enabled(s, Transfer(0)) && Faults(s, Transfer(0))
  {
    var gone, busy := OnePage(Some(NEW), 1), map[0 := WRITING];
    Losing();
    Goes({}, {0}, OnePage(Some(NEW), 0), MOVED, {}, busy);
    assert OnePage(Some(NEW), 0)[0 := Obj([Some(NEW)], 1)] == gone;
    Passes({}, {0}, gone, MOVED, {0}, {}, busy);
    var last := State([None, Two({}, true, {0})[1]], gone, MOVED, {0}, {}, busy, None);
    var more := [LosingRun()[10], Going({}, {0}, gone, MOVED, {0}, {}, busy, Passing({})),
                 Going({}, {0}, gone, MOVED, {0}, {}, busy, Passed({0})), last];
    var next := [Leave, EndPass, FinishDestroy];
    Join(LosingRun(), LosingActs(), more, next);
    run, acts := LosingRun() + more[1..], LosingActs() + next;
    assert run[|acts|] == last;
  }

  const WRITTEN := map[OLD := DATA]

  /** The write has been done. */
  function Written(): State {
    State(Two({0}, false, {}), OnePage(Some(OLD), 0), WRITTEN, {0}, {}, map[], None)
  }

  lemma Writes()
    ensures Follows(Claimed(), Transfer(0), Written())
  {
    assert Claimed().disk[OLD := DATA] == WRITTEN;
    assert Claimed().busy - {0} == map[];
  }

  /** The object is freed: it is off the list when the pass begins, and when its block is given back the partition
      is gone. */
  lemma FreeFaults() returns (run: seq<State>, acts: seq<Action>)
    ensures IsRun(run, acts) && var s := run[|acts|]; Enabled(s, GiveBack(0, 0)) && Faults(s, GiveBack(0, 0))
  {
    var objs, none := OnePage(Some(OLD), 0), map[];
    MakingRuns();
    Claims();
    Writes();
    Passes({0}, {}, objs, WRITTEN, {}, {0}, none);
    var off := State(Two({0}, false, {}), objs, WRITTEN, {}, {0}, none, None);
    assert Follows(Written(), Unlist(0), off) by { assert {0} - {0} == {} && {} + {0} == {0}; }
    var last := State([None, Two({0}, true, {})[1]], objs, WRITTEN, {}, {0}, none, None);
    var more := [Idle(), Entered(), Claimed(), Written(), off, Going({0}, {}, objs, WRITTEN, {}, {0}, none, Between),
                 Going({0}, {}, objs, WRITTEN, {}, {0}, none, Passing({})),
                 Going({0}, {}, objs, WRITTEN, {}, {0}, none, Passed({})), last];
    var next := [Claim(0, 0, 0, DATA), Try(0), Transfer(0), Unlist(0), BeginDestroy(1), StartPass, EndPass,
                 FinishDestroy];
    Join(Made(), Making(), more, next);
    run, acts := Made() + more[1..], Making() + next;
    assert run[|acts|] == last;
  }

  /** The page has been taken out of its map and its block not yet given back. */
  function Out(): map<nat, Obj> { map[0 := Obj([None], 0), 1 := Obj([Some(OLD)], 0)] }

  function Released(): seq<State> {
    [Written(), Written().(busy := map[0 := Reading(0, 0, OLD, true)]), Written().(busy := map[0 := Read(0, 0)]),
     State(Two({0}, false, {}), Out(), WRITTEN, {0}, {1}, map[], None)]
  }

  function Releasing(): seq<Action> { [Lookup(0, 0, 0, true), Transfer(0), TakeOut(0, 1)] }

  lemma Releases()
    ensures var r := Released();
            && Follows(r[0], Lookup(0, 0, 0, true), r[1]) && Follows(r[1], Transfer(0), r[2])
            && Follows(r[2], TakeOut(0, 1), r[3])
  {
    var r := Released();
    assert Follows(r[0], Lookup(0, 0, 0, true), r[1]);
    assert Follows(r[1], Transfer(0), r[2]);
    TakesOut();
  }

  lemma TakesOut()
    ensures Follows(Released()[2], TakeOut(0, 1), Released()[3])
  {
    assert [Some(OLD)][0 := None] == [None];
    var t := Apply(Released()[2], TakeOut(0, 1));
    assert t.objs == Out() && t.doomed == {1} && t.busy == map[];
  }

  /** The pass has nothing to move. */
  lemma NothingMoves()
    ensures Follows(Going({0}, {}, Out(), WRITTEN, {0}, {1}, map[], Visiting({0}, 0, 0)), MoveNext,
                    Going({0}, {}, Out(), WRITTEN, {0}, {1}, map[], Visiting({0}, 0, 1)))
  {
  }

  /** The run up to there. */
  function ReleaseRun(): seq<State> { Made() + [Entered(), Claimed()] + Released() }

  function ReleaseActs(): seq<Action> { Making() + [Claim(0, 0, 0, DATA), Try(0), Transfer(0)] + Releasing() }

  lemma ReleaseBegins()
    ensures IsRun(ReleaseRun(), ReleaseActs()) && ReleaseRun()[|ReleaseActs()|] == Released()[3]
  {
    MakingRuns();
    Claims();
    Writes();
    Releases();
    var begun := [Idle(), Entered(), Claimed()] + Released();
    var begin := [Claim(0, 0, 0, DATA), Try(0), Transfer(0)] + Releasing();
    Join(Made(), Making(), begun, begin);
    assert Made() + begun[1..] == ReleaseRun() && Making() + begin == ReleaseActs();
  }

  /** The pass over the object that has lost its page. */
  function PassRun(): seq<State> {
    [Released()[3], Going({0}, {}, Out(), WRITTEN, {0}, {1}, map[], Between),
     Going({0}, {}, Out(), WRITTEN, {0}, {1}, map[], Passing({0})),
     Going({0}, {}, Out(), WRITTEN, {0}, {1}, map[], Visiting({0}, 0, 0)),
     Going({0}, {}, Out(), WRITTEN, {0}, {1}, map[], Visiting({0}, 0, 1)),
     Going({0}, {}, Out()[0 := Obj([None], 1)], WRITTEN, {0}, {1}, map[], Passing({}))]
  }

  function PassActs(): seq<Action> { [BeginDestroy(1), StartPass, Visit(0), MoveNext, Leave] }

  lemma PassRuns(i: nat)
    requires i < 5
    ensures Follows(PassRun()[i], PassActs()[i], PassRun()[i + 1])
  {
    Passes({0}, {}, Out(), WRITTEN, {0}, {1}, map[]);
    Comes({0}, {}, Out(), WRITTEN, {1}, map[]);
    NothingMoves();
    Goes({0}, {}, Out(), WRITTEN, {1}, map[]);
  }

  /** A page is released while its partition is destroyed: its block is in no map when the object is passed, and when
      it is given back the partition is gone. */
  lemma ReleaseFaults() returns (run: seq<State>, acts: seq<Action>)
    ensures IsRun(run, acts) && var s := run[|acts|]; Enabled(s, GiveBack(1, 0)) && Faults(s, GiveBack(1, 0))
  {
    var out := Out()[0 := Obj([None], 1)];
    ReleaseBegins();
    forall i | 0 <= i < 5 ensures Follows(PassRun()[i], PassActs()[i], PassRun()[i + 1]) { PassRuns(i); }
    Join(ReleaseRun(), ReleaseActs(), PassRun(), PassActs());
    Finishes({0}, {}, out, WRITTEN, {0}, {1}, map[]);
    var last := State([None, Two({0}, true, {})[1]], out, WRITTEN, {0}, {1}, map[], None);
    var more := [PassRun()[5], Going({0}, {}, out, WRITTEN, {0}, {1}, map[], Passed({0})), last];
    Join(ReleaseRun() + PassRun()[1..], ReleaseActs() + PassActs(), more, [EndPass, FinishDestroy]);
    run := ReleaseRun() + PassRun()[1..] + more[1..];
    acts := ReleaseActs() + PassActs() + [EndPass, FinishDestroy];
    assert run[|acts|] == last;
  }

  // ---------------------------------------------------------------- a choice that goes away

  /** A partition without blocks, one that is perhaps going away, and a third, with one block each. */
  function Three(going: bool): Parts {
    [Some(Part(1, 0, 0, {}, false)), Some(Part(2, 1, 1, {}, going)), Some(Part(3, 1, 1, {}, false)), None]
  }

  /** One object without pages that has chosen partition `cur`, and a thread that writes its page. */
  function Choosing(going: bool, cur: nat, listed: set<nat>, busy: map<nat, Pend>): State {
    State(Three(going), OnePage(None, cur), map[], listed, {}, busy, if going then Some(Evac(1, Between)) else None)
  }

  function Listing(): seq<State> {
    [State([], map[], map[], {}, {}, map[], None),
     State([Some(Part(1, 0, 0, {}, false)), None], map[], map[], {}, {}, map[], None),
     State([Some(Part(1, 0, 0, {}, false)), Some(Part(2, 1, 1, {}, false))], map[], map[], {}, {}, map[], None),
     State(Three(false), map[], map[], {}, {}, map[], None), Choosing(false, 0, {}, map[]),
     Choosing(false, 0, {0}, map[])]
  }

  function ListingActs(): seq<Action> {
    [CreatePart(1, 0), CreatePart(2, 1), CreatePart(3, 1), Make(0, 0), List(0)]
  }

  lemma ListingRuns()
    ensures IsRun(Listing(), ListingActs())
  {
    var m := Listing();
    assert Follows(m[0], CreatePart(1, 0), m[1]);
    assert Follows(m[1], CreatePart(2, 1), m[2]) by {
      assert AddPart(m[1].parts, Part(2, 1, 1, {}, false)) == m[2].parts;
    }
    assert Follows(m[2], CreatePart(3, 1), m[3]) by {
      assert FreeIndex(m[2].parts, 2) == 2;
      assert AddPart(m[2].parts, Part(3, 1, 1, {}, false)) == m[3].parts;
    }
    assert Follows(m[3], Make(0, 0), m[4]) by {
      assert Choose(m[3].parts, 0, NO_PARTITION) == 0;
      assert Grown([], Doubled(1, 0)) == [None];
    }
    assert Follows(m[4], List(0), m[5]);
  }

  function Giving(): seq<State> {
    [Choosing(false, 0, {0}, map[]), Choosing(false, 0, {0}, map[0 := Placing(0, 0, DATA)]),
     Choosing(false, 0, {0}, map[0 := Seeking(0, 0, DATA)]), Choosing(false, 1, {0}, map[0 := Chosen(0, 0, DATA, 1)]),
     Choosing(true, 1, {0}, map[0 := Chosen(0, 0, DATA, 1)]), Choosing(true, 1, {0}, map[])]
  }

  function GivingActs(): seq<Action> { [Claim(0, 0, 0, DATA), Try(0), Seek(0), BeginDestroy(2), Take(0)] }

  lemma Looks()
    ensures Follows(Giving()[0], Claim(0, 0, 0, DATA), Giving()[1]) && Follows(Giving()[1], Try(0), Giving()[2])
  {
    var g := Giving();
    assert Covering([None], 0) == [None];
    assert DoClaim(g[0], 0, 0, 0, DATA).objs == g[1].objs;
    assert Follows(g[1], Try(0), g[2]);
  }

  lemma LooksElsewhere()
    ensures Follows(Giving()[2], Seek(0), Giving()[3])
  {
    var s := Giving()[2];
    assert ChooseFrom(s.parts, Ptoa(1), 0, 1) == 1;
    assert Choose(s.parts, Ptoa(1), 0) == 1;
    assert TurnTo(s, 0, 1).objs == OnePage(None, 1);
  }

  lemma GivesUp()
    ensures Follows(Giving()[3], BeginDestroy(2), Giving()[4]) && Follows(Giving()[4], Take(0), Giving()[5])
  {
    var parts := Three(false);
    assert FindPart(parts, 2, 1) == 1;
    assert FindPart(parts, 2, 0) == 1;
    assert SetGoing(parts, 1, true) == Three(true);
    assert Giving()[4].busy - {0} == map[];
  }

  /** A write has chosen a partition when that begins to go away: it is given up, although a third has room. */
  lemma WriteGivenUp() returns (run: seq<State>, acts: seq<Action>)
    ensures IsRun(run, acts) && QuietUpTo(run, acts, |acts|)
    ensures var s := run[|acts|]; 0 !in s.busy && PageOf(s, 0, 0) == None && !AllFull(s.parts)
  {
    ListingRuns();
    Looks();
    LooksElsewhere();
    GivesUp();
    Join(Listing(), ListingActs(), Giving(), GivingActs());
    run, acts := Listing() + Giving()[1..], ListingActs() + GivingActs();
    assert run[|acts|] == Giving()[5];
    assert Usable(Three(true)[2]) && Three(true)[2].value.free == 1;
    forall i | 0 <= i < |acts| ensures QuietAt(run[i], acts[i]) {
      assert Follows(run[i], acts[i], run[i + 1]);
    }
  }

  // ---------------------------------------------------------------- a quiet run

  /** An object is being made while the partition it has chosen is removed: it is on no list, and keeps the index. */
  lemma StaleChoice() returns (run: seq<State>, acts: seq<Action>)
    ensures IsRun(run, acts) && QuietUpTo(run, acts, |acts|)
    ensures var s := run[|acts|]; |s.parts| == 2 && s.parts[0].None? && 0 in s.objs && s.objs[0].cur == 0
  {
    var objs := OnePage(None, 0);
    MakingRuns();
    Passes({}, {}, objs, map[], {}, {}, map[]);
    var last := State([None, Two({}, true, {})[1]], objs, map[], {}, {}, map[], None);
    var more := [Made()[3], Going({}, {}, objs, map[], {}, {}, map[], Between),
                 Going({}, {}, objs, map[], {}, {}, map[], Passing({})),
                 Going({}, {}, objs, map[], {}, {}, map[], Passed({})), last];
    var next := [BeginDestroy(1), StartPass, EndPass, FinishDestroy];
    Shortened(Made(), Making(), 3);
    Join(Made()[..4], Making()[..3], more, next);
    run, acts := Made()[..4] + more[1..], Making()[..3] + next;
    assert run[|acts|] == last;
    assert run[6] == more[3];
    AllQuiet(run, acts);
  }

  lemma AllQuiet(run: seq<State>, acts: seq<Action>)
    requires IsRun(run, acts) && |acts| == 7 && run[6].doomed == {}
    requires forall i :: 0 <= i < 6 ==> !acts[i].FinishDestroy? && !acts[i].MoveNext?
    requires acts[6].FinishDestroy?
    ensures QuietUpTo(run, acts, 7)
  {
    forall i | 0 <= i < 7 ensures QuietAt(run[i], acts[i]) {
      assert Follows(run[i], acts[i], run[i + 1]);
    }
  }

  lemma Shortened(run: seq<State>, acts: seq<Action>, n: nat)
    requires IsRun(run, acts) && n <= |acts|
    ensures IsRun(run[..n + 1], acts[..n])
  {
    forall i | 0 <= i < n ensures Follows(run[..n + 1][i], acts[..n][i], run[..n + 1][i + 1]) {
      assert Follows(run[i], acts[i], run[i + 1]);
    }
  }
}
