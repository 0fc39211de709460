/** The C-threads scheduler does not deadlock on the locks of its cprocs (libthreads/cprocs.c).  A thread that
    switches keeps its own cproc's lock while it waits for that of the cproc it switches to, so threads that yield to
    each other can wait in a chain; the chain never closes. */
module SchedulerProgress {

  import opened Options
  import opened Scheduler

  /** Thread `j` waits for the lock that thread `k` keeps while it waits itself. */
  predicate Chases(s: State, j: nat, k: nat) {
    && j < |s.kts| && k < |s.kts| && s.kts[j].pc.Taking? && s.kts[k].pc.Taking?
    && s.kts[j].x.Some? && s.kts[j].x == s.kts[k].p
  }

  /** The threads can be ranked so that each waits only for those of lower rank. */
  ghost predicate Ranked(s: State, rank: seq<nat>) {
    |rank| == |s.kts| && forall j: nat, k: nat :: Chases(s, j, k) ==> rank[j] > rank[k]
  }

  ghost predicate Ordered(s: State) { exists rank :: Ranked(s, rank) }

  function Top(rank: seq<nat>): (m: nat)
    ensures forall i :: 0 <= i < |rank| ==> rank[i] < m
  {
    if rank == [] then 0
    else
      var m, n := Top(rank[..|rank| - 1]), rank[|rank| - 1];
      assert forall i :: 0 <= i < |rank| - 1 ==> rank[i] == rank[..|rank| - 1][i];
      if n < m then m else n + 1
  }

  // ---------------------------------------------------------------- the order is kept

  /** A thread that has just begun to wait for another's lock: its own cproc is on a queue, in nobody's hands. */
  predicate NewWaiter(s: State, k: nat) {
    && k < |s.kts| && s.kts[k].p.Some? && s.kts[k].p.value < |s.sh.cprocs|
    && !s.sh.cprocs[s.kts[k].p.value].at.RunHand?
  }

  lemma RunTakes(s: State, k: nat)
    requires Inv(s) && Enabled(s, Run(k))
    ensures var t := Apply(s, Run(k));
            |t.kts| == |s.kts| && t.kts == s.kts[k := t.kts[k]] && (t.kts[k].pc.Taking? ==> NewWaiter(t, k))
  {
    var t, kt := Apply(s, Run(k)), s.kts[k];
    RunSteps(s, k);
    RunReady(s, k);
    assert KtOk(s.sh, k, kt);
    TakesFrom(k, kt, Rec(s.sh, Own(kt)), Rec(s.sh, Second(kt, EnvOf(s.sh, kt))), EnvOf(s.sh, kt));
  }

  /** cproc_block begins to wait only when its cproc is still on the queue it went to sleep on. */
  lemma TakesFrom(k: nat, kt: Kt, a: Cproc, b: Cproc, e: Env)
    requires Ready(k, kt, a, b, e)
    ensures var (kt', a', b') := Local(k, kt, a, b, e);
            kt'.pc.Taking? ==> kt.pc.Picked? && kt'.p == kt.p && Own(kt) == kt.p && !a'.at.RunHand?
  {
    match kt.pc {
      case CondMarked => case CondQueued => case CondUnlocked => case Entering => case Choosing =>
      case Picked => case Taking => case Leaving => case Landed => case Idling => case IdlePicked =>
      case IdleSaved => case IdleReturn => case IdleTaking => case IdleLeaving => case IdleLanded =>
      case Receiving => case Received => case Resuming => case Pooling => case IdleSwitch =>
      case IdleGone => case ReadyTest => case ReadyEnq => case ReadySend =>
    }
  }

  lemma DoTakes(s: State, k: nat, act: Act, x: Option<nat>)
    requires Inv(s) && Enabled(s, Do(k, act, x))
    ensures var t := Apply(s, Do(k, act, x));
            |t.kts| == |s.kts| && t.kts == s.kts[k := t.kts[k]] && (t.kts[k].pc.Taking? ==> NewWaiter(t, k))
  {
    assert KtOk(s.sh, k, s.kts[k]);
    DoBegins(s, k, act, x);
    match act { case ActQueue => case ActCond => case ActWake => case ActYield => }
  }

  /** Nobody waits for a thread that has just begun to wait. */
  lemma Unchased(t: State, j: nat, k: nat)
    requires Inv(t) && NewWaiter(t, k)
    ensures !Chases(t, j, k)
  {
    if j < |t.kts| { assert KtOk(t.sh, j, t.kts[j]); }
  }

  lemma MoveOrdered(s: State, t: State, k: nat, rank: seq<nat>)
    requires Ranked(s, rank) && Inv(t) && k < |s.kts| == |t.kts| && t.kts == s.kts[k := t.kts[k]]
    requires t.kts[k].pc.Taking? ==> NewWaiter(t, k)
    ensures Ranked(t, rank[k := Top(rank)])
  {
    var rank' := rank[k := Top(rank)];
    forall i: nat ensures !Chases(t, i, k) { if t.kts[k].pc.Taking? { Unchased(t, i, k); } }
    forall i: nat, j: nat | Chases(t, i, j) ensures rank'[i] > rank'[j] { assert i != k ==> Chases(s, i, j); }
  }

  lemma SpawnOrdered(s: State, t: State, rank: seq<nat>)
    requires Ranked(s, rank) && Spawned(s, t)
    ensures Ranked(t, rank + [0])
  {
    forall j: nat, k: nat | Chases(t, j, k) ensures (rank + [0])[j] > (rank + [0])[k] { assert Chases(s, j, k); }
  }

  lemma StepOrdered(s: State, a: Action, t: State)
    requires Inv(s) && Inv(t) && Follows(s, a, t) && Ordered(s)
    ensures Ordered(t)
  {
    var rank :| Ranked(s, rank);
    match a {
      case Run(k) => RunTakes(s, k); MoveOrdered(s, t, k, rank);
      case Do(k, act, x) => DoTakes(s, k, act, x); MoveOrdered(s, t, k, rank);
      case Create(k) => MoveOrdered(s, t, k, rank);
      case Spawn => SpawnOrdered(s, t, rank);
    }
  }

  lemma StartOrdered(s: State)
    requires Start(s)
    ensures Ordered(s)
  {
    assert Ranked(s, seq(|s.kts|, _ => 0));
  }

  lemma NextOrdered(run: seq<State>, acts: seq<Action>, i: nat)
    requires IsRun(run, acts) && i + 1 < |run| && Ordered(run[i])
    ensures Ordered(run[i + 1])
  {
    RunInv(run, acts, i);
    RunInv(run, acts, i + 1);
    StepOrdered(run[i], acts[i], run[i + 1]);
  }

  lemma {:induction false} RunOrdered(run: seq<State>, acts: seq<Action>, i: nat)
    requires IsRun(run, acts) && i < |run|
    ensures Ordered(run[i])
  {
    if i == 0 {
      StartOrdered(run[0]);
    } else {
      RunOrdered(run, acts, i - 1);
      NextOrdered(run, acts, i - 1);
    }
  }

  // ---------------------------------------------------------------- somebody can go on

  /** The thread is at work in the scheduler, not in user code and not waiting for a wakeup message. */
  predicate AtWork(s: State, k: nat) {
    k < |s.kts| && !s.kts[k].pc.User? && !s.kts[k].pc.Wired? && (s.kts[k].pc.Receiving? ==> s.sh.tokens > 0)
  }

  predicate CanGo(s: State, k: nat) { Enabled(s, Run(k)) }

  /** Places at which a thread waits for the lock of the cproc in its hand. */
  predicate WaitsForHand(pc: Pc) { pc.Taking? || pc.Resuming? || pc.ReadyTest? }

  /** A thread that needs neither the lock of a cproc in hand nor that of an idle stack can go on: a thread never
      finds its own cproc's lock taken. */
  lemma Unhindered(s: State, k: nat)
    requires Linked(s) && AtWork(s, k)
    requires !WaitsForHand(s.kts[k].pc) && !s.kts[k].pc.IdleTaking? && !s.kts[k].pc.Pooling?
    ensures CanGo(s, k)
  {
    assert KtOk(s.sh, k, s.kts[k]);
  }

  lemma LockedIdler(j: nat, kt: Kt, i: Idler)
    requires kt.w.Some? && Registers(kt) && IdlerOk(j, kt.pc, i) && i.lock == Some(j)
    ensures kt.pc.IdleSwitch? || kt.pc.IdleGone?
  {
  }

  /** Whoever has the lock of an idle stack is about to release it. */
  lemma IdlerHolderGoes(s: State, w: nat)
    requires Linked(s) && IdlersLinked(s) && w < |s.sh.idlers| && s.sh.idlers[w].lock.Some?
    ensures CanGo(s, s.sh.idlers[w].lock.value)
  {
    var i := s.sh.idlers[w];
    var j := i.lock.value;
    assert IdlerPoints(s.kts, w, i);
    assert IdlerOk(j, s.kts[j].pc, i);
    assert KtOk(s.sh, j, s.kts[j]);
    LockedIdler(j, s.kts[j], i);
    Unhindered(s, j);
  }

  lemma IdlerFreed(s: State, k: nat) returns (j: nat)
    requires Linked(s) && IdlersLinked(s) && AtWork(s, k) && (s.kts[k].pc.IdleTaking? || s.kts[k].pc.Pooling?)
    ensures CanGo(s, j)
  {
    assert KtOk(s.sh, k, s.kts[k]);
    var w := s.kts[k].w.value;
    if s.sh.idlers[w].lock.None? {
      j := k;
    } else {
      IdlerHolderGoes(s, w);
      j := s.sh.idlers[w].lock.value;
    }
  }

  /** A thread that waits for the cproc in its hand can go on, or another thread has that cproc's lock. */
  lemma HandHolder(s: State, k: nat) returns (g: nat)
    requires Linked(s) && AtWork(s, k) && WaitsForHand(s.kts[k].pc)
    ensures CanGo(s, k) || (g < |s.kts| && s.kts[k].x.Some? && Locks(s.kts[g]) == s.kts[k].x)
  {
    assert KtOk(s.sh, k, s.kts[k]);
    var x := s.kts[k].x.value;
    var c := s.sh.cprocs[x];
    assert Points(s.kts, x, c);
    g := if c.lock.Some? then c.lock.value else k;
  }

  lemma FreeHolder(s: State, h: nat) returns (j: nat)
    requires Linked(s) && IdlersLinked(s) && h < |s.kts| && Locks(s.kts[h]).Some? && !s.kts[h].pc.Taking?
    ensures CanGo(s, j)
  {
    if s.kts[h].pc.IdleTaking? {
      j := IdlerFreed(s, h);
    } else {
      Unhindered(s, h);
      j := h;
    }
  }

  /** Whoever has the lock of a cproc can go on, or waits for somebody of lower rank, or for an idle stack. */
  lemma {:induction false} HolderGoes(s: State, rank: seq<nat>, h: nat) returns (j: nat)
    requires Linked(s) && IdlersLinked(s) && Ranked(s, rank) && h < |s.kts| && Locks(s.kts[h]).Some?
    ensures CanGo(s, j)
    decreases rank[h]
  {
    if s.kts[h].pc.Taking? {
      var g := HandHolder(s, h);
      if CanGo(s, h) {
        j := h;
      } else if s.kts[g].pc.Taking? {
        assert Chases(s, h, g);
        j := HolderGoes(s, rank, g);
      } else {
        j := FreeHolder(s, g);
      }
    } else {
      j := FreeHolder(s, h);
    }
  }

  lemma Goes(s: State, rank: seq<nat>, k: nat) returns (j: nat)
    requires Linked(s) && IdlersLinked(s) && Ranked(s, rank) && AtWork(s, k)
    ensures CanGo(s, j)
  {
    if s.kts[k].pc.IdleTaking? || s.kts[k].pc.Pooling? {
      j := IdlerFreed(s, k);
    } else if WaitsForHand(s.kts[k].pc) {
      var g := HandHolder(s, k);
      if CanGo(s, k) { j := k; } else { j := HolderGoes(s, rank, g); }
    } else {
      Unhindered(s, k);
      j := k;
    }
  }

  /** In every state of every run: while any kernel thread is at work in the scheduler, one of them can take its next
      step.  No set of threads waits for each other's cprocs for ever. */
  lemma NeverStuck(run: seq<State>, acts: seq<Action>, i: nat, k: nat) returns (j: nat)
    requires IsRun(run, acts) && i < |run| && AtWork(run[i], k)
    ensures Enabled(run[i], Run(j))
  {
    RunInv(run, acts, i);
    RunOrdered(run, acts, i);
    var rank :| Ranked(run[i], rank);
    j := Goes(run[i], rank, k);
  }
}
