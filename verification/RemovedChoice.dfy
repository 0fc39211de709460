/** What becomes of an object's choice of partition when the partition is removed (bootstrap/default_pager.c): the
    pass of destroy_paging_partition resets it for the objects on the list, and an object that is still being made
    has chosen its partition before it is put there. */
module RemovedChoice {

  import opened BlockStore
  import opened Options
  import opened PageMap
  import opened PagingSystem

  // ---------------------------------------------------------------- one step

  /** The step makes the object, or finds it another partition that has room. */
  predicate Renews(s: State, a: Action, o: nat)
    requires Enabled(s, a)
  {
    match a
    case Make(x, bytes) => x == o
    case Seek(t) => s.busy[t].o == o && Choose(s.parts, Ptoa(1), s.objs[o].cur) != NO_PARTITION
    case _ => false
  }

  /** pager_realloc has got to the end of the object. */
  predicate Leaves(s: State, a: Action, o: nat)
    requires Enabled(s, a)
  {
    a.Leave? && s.evac.value.phase.o == o
  }

  /** The object is there, and not about to be freed. */
  predicate Here(s: State, o: nat) { o in s.objs && o !in s.doomed }

  predicate Chooses(s: State, o: nat, i: nat) { o in s.objs && s.objs[o].cur == i }

  lemma UsableOnly(s: State, bytes: nat, cur: nat)
    requires PartsOk(s.parts) && GoingOk(s) && s.evac.Some?
    ensures Choose(s.parts, bytes, cur) != s.evac.value.pindex
  {
  }

  lemma PageStepChoice(s: State, a: Action, o: nat)
    requires PartsOk(s.parts) && GoingOk(s) && Enabled(s, a) && !Faults(s, a) && s.evac.Some? && Here(Apply(s, a), o)
    requires PageStep(a)
    ensures var i := s.evac.value.pindex; Chooses(Apply(s, a), o, i) <==> Chooses(s, o, i) && !Renews(s, a, o)
  {
    match a {
      case Claim(t, x, f, data) =>
        UsableOnly(s, Ptoa(Wanted(s.objs[x], f)), NO_PARTITION);
        UsableOnly(s, Ptoa(1), NO_PARTITION);
      case Seek(t) => UsableOnly(s, Ptoa(1), s.objs[s.busy[t].o].cur);
      case _ =>
    }
  }

  lemma OtherStepChoice(s: State, a: Action, o: nat)
    requires PartsOk(s.parts) && GoingOk(s) && Enabled(s, a) && !Faults(s, a) && s.evac.Some? && Here(Apply(s, a), o)
    requires !PageStep(a)
    ensures var i := s.evac.value.pindex;
            Chooses(Apply(s, a), o, i) <==> Chooses(s, o, i) && !Renews(s, a, o) && !Leaves(s, a, o)
  {
    if a.Make? {
      UsableOnly(s, a.bytes, NO_PARTITION);
      UsableOnly(s, 0, NO_PARTITION);
    } else if a.Leave? {
      UsableOnly(s, 0, NO_PARTITION);
    }
  }

  /** While partition `i` is going away nobody turns to it, and who has chosen it keeps to it unless the step renews
      the choice. */
  lemma ChoiceKept(s: State, a: Action, o: nat)
    requires Inv(s) && Enabled(s, a) && !Faults(s, a) && s.evac.Some? && Here(Apply(s, a), o)
    ensures var i := s.evac.value.pindex;
            Chooses(Apply(s, a), o, i) <==> Chooses(s, o, i) && !Renews(s, a, o) && !Leaves(s, a, o)
  {
    if PageStep(a) { PageStepChoice(s, a, o); } else { OtherStepChoice(s, a, o); }
  }

  /** An object that is there after a step that does not make it was there before, and on the list if it was. */
  lemma HereBefore(s: State, a: Action, o: nat)
    requires Enabled(s, a) && !Faults(s, a) && Here(Apply(s, a), o) && !(a.Make? && a.o == o)
    ensures Here(s, o) && (o in s.listed ==> o in Apply(s, a).listed)
  {
  }

  /** Only destroy_paging_partition makes a partition go away. */
  lemma EvacBefore(s: State, a: Action)
    requires Enabled(s, a) && !Faults(s, a) && Apply(s, a).evac.Some? && !a.BeginDestroy?
    ensures s.evac.Some? && s.evac.value.pindex == Apply(s, a).evac.value.pindex
  {
  }

  // ---------------------------------------------------------------- from one state of a run to another

  /** The run of one call of destroy_paging_partition that succeeds: it begins with step `b`, its last pass with step
      `p`, and it removes the partition with step `e`. */
  predicate Removal(run: seq<State>, acts: seq<Action>, b: nat, p: nat, e: nat) {
    && IsRun(run, acts) && b < p < e < |acts| && QuietUpTo(run, acts, e + 1)
    && acts[b].BeginDestroy? && acts[p].StartPass? && acts[e].FinishDestroy?
    && (forall k :: b < k < e ==> !acts[k].BeginDestroy?) && forall k :: p < k < e ==> !acts[k].StartPass?
  }

  lemma StepOf(run: seq<State>, acts: seq<Action>, b: nat, p: nat, e: nat, k: nat)
    requires Removal(run, acts, b, p, e) && k <= e
    ensures Inv(run[k]) && Follows(run[k], acts[k], run[k + 1])
  {
    RunInv(run, acts, k);
  }

  lemma {:induction false} GoingSince(run: seq<State>, acts: seq<Action>, b: nat, p: nat, e: nat, k: nat)
    requires Removal(run, acts, b, p, e) && b < k <= e
    ensures run[e].evac.Some? && run[k].evac.Some? && run[k].evac.value.pindex == run[e].evac.value.pindex
    decreases e - k
  {
    StepOf(run, acts, b, p, e, k);
    if k < e {
      GoingSince(run, acts, b, p, e, k + 1);
      EvacBefore(run[k], acts[k]);
    }
  }

  /** The partition that is removed. */
  function Index(run: seq<State>, acts: seq<Action>, b: nat, p: nat, e: nat): nat
    requires Removal(run, acts, b, p, e)
  {
    assert Follows(run[e], acts[e], run[e + 1]);
    run[e].evac.value.pindex
  }

  predicate RenewsAt(run: seq<State>, acts: seq<Action>, k: nat, o: nat)
    requires k < |acts| && k < |run|
  {
    Enabled(run[k], acts[k]) && Renews(run[k], acts[k], o)
  }

  predicate Unrenewed(run: seq<State>, acts: seq<Action>, b: nat, k: nat, o: nat)
    requires k <= |acts| < |run|
  {
    forall j :: b <= j < k ==> !RenewsAt(run, acts, j, o)
  }

  lemma {:induction false} HereSince(run: seq<State>, acts: seq<Action>, b: nat, p: nat, e: nat, k: nat, o: nat)
    requires Removal(run, acts, b, p, e) && b <= k <= e + 1
    requires Here(run[e + 1], o) && Unrenewed(run, acts, b, e + 1, o)
    ensures Here(run[k], o)
    decreases e + 1 - k
  {
    if k <= e {
      HereSince(run, acts, b, p, e, k + 1, o);
      StepOf(run, acts, b, p, e, k);
      assert !RenewsAt(run, acts, k, o);
      HereBefore(run[k], acts[k], o);
    }
  }

  /** An object that stays stays on the list. */
  lemma {:induction false} ListedSince(run: seq<State>, acts: seq<Action>, b: nat, p: nat, e: nat, j: nat, k: nat,
                                       o: nat)
    requires Removal(run, acts, b, p, e) && b <= j <= k <= e + 1 && o in run[j].listed
    requires Here(run[e + 1], o) && Unrenewed(run, acts, b, e + 1, o)
    ensures o in run[k].listed
    decreases k
  {
    if j < k {
      ListedSince(run, acts, b, p, e, j, k - 1, o);
      HereSince(run, acts, b, p, e, k, o);
      StepOf(run, acts, b, p, e, k - 1);
      assert !RenewsAt(run, acts, k - 1, o);
      HereBefore(run[k - 1], acts[k - 1], o);
    }
  }

  // ---------------------------------------------------------------- the last pass

  /** Since the last pass began: it goes over the objects then listed, and has visited those of them that are left. */
  predicate InLastPass(s: State, listed: set<nat>, o: nat) {
    s.evac.Some? &&
    match s.evac.value.phase
    case Between => true
    case Passing(todo) => s.listed == listed && todo <= listed
    case Visiting(todo, x, f) => s.listed == listed && todo <= listed && x in todo
    case Passed(visited) => o in listed ==> o in visited
  }

  lemma LastPassStep(s: State, a: Action, listed: set<nat>, o: nat)
    requires Enabled(s, a) && !Faults(s, a) && InLastPass(s, listed, o)
    requires !a.StartPass? && Apply(s, a).evac.Some? && (o in listed ==> Here(Apply(s, a), o))
    ensures InLastPass(Apply(s, a), listed, o)
  {
  }

  lemma PassBegins(run: seq<State>, acts: seq<Action>, b: nat, p: nat, e: nat, o: nat)
    requires Removal(run, acts, b, p, e)
    ensures InLastPass(run[p + 1], run[p].listed, o)
  {
    assert Follows(run[p], acts[p], run[p + 1]);
  }

  lemma NextInPass(run: seq<State>, acts: seq<Action>, b: nat, p: nat, e: nat, k: nat, o: nat)
    requires Removal(run, acts, b, p, e) && p < k < e && InLastPass(run[k], run[p].listed, o)
    requires Here(run[e + 1], o) && Unrenewed(run, acts, b, e + 1, o)
    ensures InLastPass(run[k + 1], run[p].listed, o)
  {
    assert Follows(run[k], acts[k], run[k + 1]);
    GoingSince(run, acts, b, p, e, k + 1);
    HereSince(run, acts, b, p, e, k + 1, o);
    LastPassStep(run[k], acts[k], run[p].listed, o);
  }

  lemma {:induction false} LastPass(run: seq<State>, acts: seq<Action>, b: nat, p: nat, e: nat, k: nat, o: nat)
    requires Removal(run, acts, b, p, e) && p < k <= e
    requires Here(run[e + 1], o) && Unrenewed(run, acts, b, e + 1, o)
    ensures InLastPass(run[k], run[p].listed, o)
    decreases k
  {
    if k == p + 1 {
      PassBegins(run, acts, b, p, e, o);
    } else {
      LastPass(run, acts, b, p, e, k - 1, o);
      NextInPass(run, acts, b, p, e, k - 1, o);
    }
  }

  /** An object that was not on the list when the last pass began is not left by any pass. */
  lemma NotLeft(run: seq<State>, acts: seq<Action>, b: nat, p: nat, e: nat, k: nat, o: nat)
    requires Removal(run, acts, b, p, e) && b < k <= e && o !in run[p].listed
    requires Here(run[e + 1], o) && Unrenewed(run, acts, b, e + 1, o)
    ensures Enabled(run[k], acts[k]) && !Leaves(run[k], acts[k], o)
  {
    StepOf(run, acts, b, p, e, k);
    if Leaves(run[k], acts[k], o) {
      if k <= p {
        assert o in run[k].listed;
        ListedSince(run, acts, b, p, e, k, p, o);
      } else {
        LastPass(run, acts, b, p, e, k, o);
      }
    }
  }

  // ---------------------------------------------------------------- the choice

  lemma ChosenJustBefore(run: seq<State>, acts: seq<Action>, b: nat, p: nat, e: nat, k: nat, o: nat, i: nat)
    requires Removal(run, acts, b, p, e) && b <= k <= e && i == Index(run, acts, b, p, e)
    requires Here(run[k + 1], o) && Chooses(run[k + 1], o, i)
    ensures Here(run[k], o) && Chooses(run[k], o, i) && !RenewsAt(run, acts, k, o)
  {
    StepOf(run, acts, b, p, e, k);
    if k > b {
      GoingSince(run, acts, b, p, e, k);
      ChoiceKept(run[k], acts[k], o);
      HereBefore(run[k], acts[k], o);
    }
  }

  /** Whoever chooses the partition after the step did before, and the step has not renewed the choice. */
  predicate Back(run: seq<State>, acts: seq<Action>, k: nat, o: nat, i: nat) {
    && k < |acts| && k + 1 < |run|
    && (Here(run[k + 1], o) && Chooses(run[k + 1], o, i) ==>
          Here(run[k], o) && Chooses(run[k], o, i) && !RenewsAt(run, acts, k, o))
  }

  lemma {:induction false} ChosenBefore(run: seq<State>, acts: seq<Action>, b: nat, k: nat, o: nat, i: nat)
    requires b <= k <= |acts| < |run| && Here(run[k], o) && Chooses(run[k], o, i)
    requires forall j :: b <= j < k ==> Back(run, acts, j, o, i)
    ensures Chooses(run[b], o, i) && Unrenewed(run, acts, b, k, o)
    decreases k
  {
    if k > b {
      assert Back(run, acts, k - 1, o, i);
      ChosenBefore(run, acts, b, k - 1, o, i);
    }
  }

  lemma StillChosen(run: seq<State>, acts: seq<Action>, b: nat, p: nat, e: nat, k: nat, o: nat, i: nat)
    requires Removal(run, acts, b, p, e) && b <= k <= e && o !in run[p].listed
    requires Here(run[e + 1], o) && Unrenewed(run, acts, b, e + 1, o)
    requires Chooses(run[k], o, i) && i == Index(run, acts, b, p, e)
    ensures Chooses(run[k + 1], o, i)
  {
    StepOf(run, acts, b, p, e, k);
    if k > b {
      GoingSince(run, acts, b, p, e, k);
      HereSince(run, acts, b, p, e, k + 1, o);
      assert !RenewsAt(run, acts, k, o);
      NotLeft(run, acts, b, p, e, k, o);
      ChoiceKept(run[k], acts[k], o);
    }
  }

  /** Whoever chooses the partition before the step does after it. */
  predicate On(run: seq<State>, k: nat, o: nat, i: nat) {
    k + 1 < |run| && (Chooses(run[k], o, i) ==> Chooses(run[k + 1], o, i))
  }

  lemma {:induction false} ChosenStill(run: seq<State>, b: nat, k: nat, o: nat, i: nat)
    requires b <= k < |run| && Chooses(run[b], o, i) && forall j :: b <= j < k ==> On(run, j, o, i)
    ensures Chooses(run[k], o, i)
    decreases k
  {
    if k > b {
      ChosenStill(run, b, k - 1, o, i);
      assert On(run, k - 1, o, i);
    }
  }

  lemma VisitedTurned(run: seq<State>, acts: seq<Action>, b: nat, p: nat, e: nat, o: nat)
    requires Removal(run, acts, b, p, e) && Here(run[e + 1], o) && Unrenewed(run, acts, b, e + 1, o)
    ensures o in run[p].listed ==> !Chooses(run[e + 1], o, Index(run, acts, b, p, e))
  {
    StepOf(run, acts, b, p, e, e);
    LastPass(run, acts, b, p, e, e, o);
    assert run[e].evac.value.phase.Passed? && run[e].objs == run[e + 1].objs;
  }

  /** In every quiet run in which a partition is removed: an object that is not about to be freed has the removed index
      for its choice afterwards if and only if it had it before the removal began, was not on the list when the last
      pass did, and has since been neither made anew nor found another partition by a thread that looked for room. */
  lemma StaleExactly(run: seq<State>, acts: seq<Action>, b: nat, p: nat, e: nat, o: nat)
    requires Removal(run, acts, b, p, e) && Here(run[e + 1], o)
    ensures var i := Index(run, acts, b, p, e);
            && i < |run[e + 1].parts| && run[e + 1].parts[i].None?
            && (Chooses(run[e + 1], o, i) <==>
                  Chooses(run[b], o, i) && o !in run[p].listed && Unrenewed(run, acts, b, e + 1, o))
  {
    var i := Index(run, acts, b, p, e);
    StepOf(run, acts, b, p, e, e);
    if Chooses(run[e + 1], o, i) {
      forall k | b <= k < e + 1 ensures Back(run, acts, k, o, i) {
        if Here(run[k + 1], o) && Chooses(run[k + 1], o, i) { ChosenJustBefore(run, acts, b, p, e, k, o, i); }
      }
      ChosenBefore(run, acts, b, e + 1, o, i);
      VisitedTurned(run, acts, b, p, e, o);
    }
    if Chooses(run[b], o, i) && o !in run[p].listed && Unrenewed(run, acts, b, e + 1, o) {
      forall k | b <= k < e + 1 ensures On(run, k, o, i) {
        if Chooses(run[k], o, i) { StillChosen(run, acts, b, p, e, k, o, i); }
      }
      ChosenStill(run, b, e + 1, o, i);
    }
  }

  /** Such an object can be written to like any other: a page without a block gets one if and only if some partition
      that is not going away has one, on that partition, and the object turns to it. */
  lemma StaleWrites(s: State, t: nat, o: nat, f: nat, data: Data)
    requires Inv(s) && Enabled(s, Claim(t, o, f, data)) && !HasPage(s.objs[o], f)
    requires s.objs[o].cur < |s.parts| && s.parts[s.objs[o].cur].None? && s.objs[o].cur != NO_PARTITION
    ensures !Faults(s, Claim(t, o, f, data))
    ensures var r := Onward(Onward(Onward(Apply(s, Claim(t, o, f, data)), t), t), t);
            && (t in r.busy <==> !AllFull(s.parts))
            && (t in r.busy ==>
                  && r.busy[t].Writing? && CanAlloc(s.parts, r.busy[t].b.index) && !Marked(s.parts, r.busy[t].b)
                  && o in r.objs && r.objs[o].cur == r.busy[t].b.index != s.objs[o].cur)
  {
    NoFault(s, Claim(t, o, f, data));
    assert ObjOk(s.parts, s.objs[o]);
    ClaimAlone(s, t, o, f, data);
    Covered(s.objs[o].pages, f);
    RoomSpec(s.parts, s.objs[o].cur);
  }
}
