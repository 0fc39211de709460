/** The C-threads mutex: the inline fast paths of include/mach/cthreads.h and the "solid" slow
    paths of libthreads/cprocs.c, as an interleaving of any number of threads under sequential
    consistency.  Each access to `held`, to the queue head or to the queue lock is one step.
    cproc_block and cproc_ready appear as waiting for, and giving, a wakeup. */
module MutexProtocol {

  import opened Options
  import opened Queues

  /** A spin-lock word; which thread set it is recorded for the proof only. */
  datatype Word = Clear | SetBy(t: nat)

  datatype Pc =
    | Outside
    | TryFast | TryOnce                     // mutex_lock, mutex_try_lock: spin_try_lock(&held)
    | WantSpin | Inspect                    // mutex_lock_solid: take m->lock, look at the head
    | TryHeld(queued: bool)                 // spin_try_lock(&held) with m->lock held
    | Unqueue(queued: bool)                 // got it: leave the queue, release m->lock
    | Join(queued: bool)                    // failed: join the queue, release m->lock
    | Blocked | Retry                       // cproc_block, then spin_try_lock(&held)
    | Critical                              // owns the mutex
    | TestQueue | SolidTry | SolidSpin | SolidDeq
    | SolidFree(woken: Option<nat>) | SolidRelease(woken: Option<nat>) | Waking(w: nat)

  datatype Shared = Shared(held: Word, spin: Word, queue: seq<nat>, wakeups: set<nat>)

  datatype State = State(sh: Shared, pcs: seq<Pc>)

  datatype Action = Lock(t: nat) | TryLock(t: nat) | Run(t: nat)

  predicate CanRun(sh: Shared, t: nat, pc: Pc) {
    match pc
    case Outside => false
    case WantSpin => sh.spin.Clear?
    case SolidSpin => sh.spin.Clear?
    case Blocked => t in sh.wakeups
    case _ => true
  }

  /** cthread_queue_deq on a queue seen as a sequence. */
  function Deq(q: seq<nat>): (seq<nat>, Option<nat>) {
    if q == [] then (q, None) else (q[1..], Some(q[0]))
  }

  function Step(sh: Shared, t: nat, pc: Pc): (Shared, Pc)
    requires CanRun(sh, t, pc)
  {
    match pc
    case TryFast => if sh.held.Clear? then (sh.(held := SetBy(t)), Critical) else (sh, WantSpin)
    case TryOnce => if sh.held.Clear? then (sh.(held := SetBy(t)), Critical) else (sh, Outside)
    case WantSpin => (sh.(spin := SetBy(t)), Inspect)
    case Inspect => if sh.queue == [] then (sh.(queue := [t]), TryHeld(true)) else (sh, TryHeld(false))
    case TryHeld(queued) =>
      if sh.held.Clear? then (sh.(held := SetBy(t)), Unqueue(queued)) else (sh, Join(queued))
    case Unqueue(queued) =>
      (sh.(queue := if queued then Deq(sh.queue).0 else sh.queue, spin := Clear), Critical)
    case Join(queued) =>
      (sh.(queue := if queued then sh.queue else sh.queue + [t], spin := Clear), Blocked)
    case Blocked => (sh.(wakeups := sh.wakeups - {t}), Retry)
    case Retry => if sh.held.Clear? then (sh.(held := SetBy(t)), Critical) else (sh, WantSpin)
    case Critical => (sh.(held := Clear), TestQueue)
    case TestQueue => (sh, if sh.queue == [] then Outside else SolidTry)
    case SolidTry => if sh.held.Clear? then (sh.(held := SetBy(t)), SolidSpin) else (sh, Outside)
    case SolidSpin => (sh.(spin := SetBy(t)), SolidDeq)
    case SolidDeq => (sh.(queue := Deq(sh.queue).0), SolidFree(Deq(sh.queue).1))
    case SolidFree(woken) => (sh.(held := Clear), SolidRelease(woken))
    case SolidRelease(woken) =>
      (sh.(spin := Clear), match woken case None => Outside case Some(w) => Waking(w))
    case Waking(w) => (sh.(wakeups := sh.wakeups + {w}), Outside)
  }

  predicate Enabled(s: State, a: Action) {
    a.t < |s.pcs| &&
    match a
    case Lock(t) => s.pcs[t].Outside?
    case TryLock(t) => s.pcs[t].Outside?
    case Run(t) => CanRun(s.sh, t, s.pcs[t])
  }

  function Apply(s: State, a: Action): State
    requires Enabled(s, a)
  {
    match a
    case Lock(t) => s.(pcs := s.pcs[t := TryFast])
    case TryLock(t) => s.(pcs := s.pcs[t := TryOnce])
    case Run(t) => var (sh', pc') := Step(s.sh, t, s.pcs[t]); State(sh', s.pcs[t := pc'])
  }

  predicate Start(s: State) {
    s.sh == Shared(Clear, Clear, [], {}) && forall t :: 0 <= t < |s.pcs| ==> s.pcs[t].Outside?
  }

  // ---------------------------------------------------------------- invariant

  predicate Owns(pc: Pc) {
    pc.Critical? || pc.Unqueue? || pc.SolidSpin? || pc.SolidDeq? || pc.SolidFree?
  }

  predicate HasSpin(pc: Pc) {
    pc.Inspect? || pc.TryHeld? || pc.Unqueue? || pc.Join? || pc.SolidDeq? || pc.SolidFree? || pc.SolidRelease?
  }

  predicate Queued(pc: Pc) { (pc.TryHeld? || pc.Unqueue? || pc.Join?) && pc.queued }

  /** The thread an unlocker has taken off the queue and not yet readied. */
  function Target(pc: Pc): Option<nat> {
    match pc
    case SolidFree(w) => w
    case SolidRelease(w) => w
    case Waking(w) => Some(w)
    case _ => None
  }

  predicate Emptied(pc: Pc) { (pc.SolidFree? || pc.SolidRelease?) && pc.woken.None? }

  predicate Fits(sh: Shared, t: nat, pc: Pc) {
    && (Owns(pc) <==> sh.held == SetBy(t))
    && (HasSpin(pc) <==> sh.spin == SetBy(t))
    && (Queued(pc) ==> sh.queue == [t])
    && ((pc.TryHeld? || pc.Join?) && !pc.queued ==> sh.queue != [])
    && (Emptied(pc) ==> sh.queue == [])
    && (t in sh.queue ==> Queued(pc) || pc.Blocked?)
    && (t in sh.wakeups ==> pc.Blocked? && t !in sh.queue)
  }

  predicate Bounded(sh: Shared, n: nat) {
    && (forall t :: t in sh.queue ==> t < n)
    && (forall t :: t in sh.wakeups ==> t < n)
    && (sh.held.SetBy? ==> sh.held.t < n)
    && (sh.spin.SetBy? ==> sh.spin.t < n)
  }

  /** A dequeued thread is blocked, off the queue, and has exactly one waker. */
  ghost predicate Wakers(s: State) {
    forall u, w :: 0 <= u < |s.pcs| && Target(s.pcs[u]) == Some(w) ==>
      && w < |s.pcs| && s.pcs[w].Blocked? && w !in s.sh.queue && w !in s.sh.wakeups
      && forall v :: 0 <= v < |s.pcs| && v != u ==> Target(s.pcs[v]) != Some(w)
  }

  ghost predicate HasWaker(s: State, w: nat) { exists u :: 0 <= u < |s.pcs| && Target(s.pcs[u]) == Some(w) }

  /** A blocked thread is on the queue, or about to be readied, or readied. */
  ghost predicate Accounted(s: State) {
    forall w :: 0 <= w < |s.pcs| && s.pcs[w].Blocked? ==>
      w in s.sh.queue || w in s.sh.wakeups || HasWaker(s, w)
  }

  /** This thread will look at the mutex again, or is about to make another thread do so. */
  predicate Obliged(sh: Shared, t: nat, pc: Pc) {
    || pc.TestQueue? || pc.SolidTry? || pc.TryHeld? || pc.Waking? || pc.Retry?
    || (pc.SolidRelease? && pc.woken.Some?)
    || (pc.Blocked? && t in sh.wakeups)
  }

  ghost predicate SomeoneObliged(s: State) { exists t :: 0 <= t < |s.pcs| && Obliged(s.sh, t, s.pcs[t]) }

  ghost predicate NotStranded(s: State) {
    s.sh.queue != [] && s.sh.held.Clear? ==> SomeoneObliged(s)
  }

  ghost predicate Inv(s: State) {
    && (forall t :: 0 <= t < |s.pcs| ==> Fits(s.sh, t, s.pcs[t]))
    && Bounded(s.sh, |s.pcs|)
    && NoDups(s.sh.queue)
    && Wakers(s)
    && Accounted(s)
    && NotStranded(s)
  }

  // ---------------------------------------------------------------- preservation

  lemma FitsSelf(sh: Shared, t: nat, pc: Pc)
    requires CanRun(sh, t, pc) && Fits(sh, t, pc) && NoDups(sh.queue)
    requires pc.Waking? ==> pc.w != t
    ensures var (sh', pc') := Step(sh, t, pc); Fits(sh', t, pc')
  {
  }

  lemma FitsOther(sh: Shared, t: nat, pc: Pc, u: nat, pcu: Pc)
    requires CanRun(sh, t, pc) && Fits(sh, t, pc) && Fits(sh, u, pcu) && t != u
    requires pc.Waking? && pc.w == u ==> pcu.Blocked? && u !in sh.queue
    ensures Fits(Step(sh, t, pc).0, u, pcu)
  {
  }

  /** What a step does to the queue: nothing, append its own thread, or take one off. */
  predicate QueueFacts(sh: Shared, t: nat, pc: Pc, sh': Shared, pc': Pc) {
    || (sh'.queue == sh.queue && Target(pc') == (if pc.Waking? then None else Target(pc))
       && (pc'.Blocked? ==> t in sh.queue))
    || (sh'.queue == sh.queue + [t] && t !in sh.queue && !pc.Blocked? && Target(pc).None? && Target(pc').None?)
    || (sh.queue == [t] && sh'.queue == [] && pc'.Critical? && Target(pc).None?)
    || (sh.queue != [] && sh'.queue == sh.queue[1..] && pc.SolidDeq? && pc' == SolidFree(Some(sh.queue[0])))
  }

  /** Who stays responsible when the mutex is free and somebody is queued. */
  predicate DutyFacts(sh: Shared, t: nat, pc: Pc, sh': Shared, pc': Pc) {
    && sh'.wakeups == (if pc.Waking? then sh.wakeups + {pc.w} else if pc.Blocked? then sh.wakeups - {t} else sh.wakeups)
    && (sh'.queue != [] && sh'.held.Clear? ==>
          || (sh.queue != [] && sh.held.Clear? && !Obliged(sh, t, pc))
          || Obliged(sh', t, pc')
          || pc.Waking?)
  }

  lemma StepBounded(sh: Shared, t: nat, pc: Pc, n: nat)
    requires CanRun(sh, t, pc) && Bounded(sh, n) && t < n && (Target(pc).Some? ==> Target(pc).value < n)
    ensures Bounded(Step(sh, t, pc).0, n)
  {
    var sh' := Step(sh, t, pc).0;
    forall u | u in sh'.queue ensures u < n { assert u == t || u in sh.queue; }
  }

  lemma StepQueue(sh: Shared, t: nat, pc: Pc)
    requires CanRun(sh, t, pc) && Fits(sh, t, pc) && NoDups(sh.queue)
    ensures var (sh', pc') := Step(sh, t, pc); NoDups(sh'.queue) && QueueFacts(sh, t, pc, sh', pc')
  {
    match pc {
      case TryFast => case TryOnce => case WantSpin => case Inspect => case TryHeld(_) => case Unqueue(_) =>
      case Join(_) => case Blocked => case Retry => case Critical => case TestQueue => case SolidTry =>
      case SolidSpin => case SolidDeq => case SolidFree(_) => case SolidRelease(_) => case Waking(_) =>
    }
  }

  lemma StepDuty(sh: Shared, t: nat, pc: Pc)
    requires CanRun(sh, t, pc) && Fits(sh, t, pc)
    ensures var (sh', pc') := Step(sh, t, pc); DutyFacts(sh, t, pc, sh', pc')
  {
    match pc {
      case TryFast => case TryOnce => case WantSpin => case Inspect => case TryHeld(_) => case Unqueue(_) =>
      case Join(_) => case Blocked => case Retry => case Critical => case TestQueue => case SolidTry =>
      case SolidSpin => case SolidDeq => case SolidFree(_) => case SolidRelease(_) => case Waking(_) =>
    }
  }

  ghost predicate Moves(s: State, t: nat, r: State) {
    && t < |s.pcs| && |r.pcs| == |s.pcs| && r.pcs == s.pcs[t := r.pcs[t]]
    && QueueFacts(s.sh, t, s.pcs[t], r.sh, r.pcs[t]) && DutyFacts(s.sh, t, s.pcs[t], r.sh, r.pcs[t])
    && (s.pcs[t].Blocked? ==> t in s.sh.wakeups && r.pcs[t].Retry?)
    && (forall u :: 0 <= u < |r.pcs| ==> Fits(r.sh, u, r.pcs[u]))
    && Bounded(r.sh, |r.pcs|) && NoDups(r.sh.queue)
  }

  lemma RunMoves(s: State, t: nat)
    requires Inv(s) && Enabled(s, Run(t))
    ensures Moves(s, t, Apply(s, Run(t)))
  {
    var r := Apply(s, Run(t));
    if Target(s.pcs[t]).Some? { assert s.pcs[Target(s.pcs[t]).value].Blocked?; }
    assert Fits(s.sh, t, s.pcs[t]);
    StepBounded(s.sh, t, s.pcs[t], |s.pcs|);
    StepQueue(s.sh, t, s.pcs[t]);
    StepDuty(s.sh, t, s.pcs[t]);
    FitsSelf(s.sh, t, s.pcs[t]);
    forall u | 0 <= u < |r.pcs| && u != t ensures Fits(r.sh, u, r.pcs[u]) {
      FitsOther(s.sh, t, s.pcs[t], u, s.pcs[u]);
    }
  }

  lemma NewTarget(s: State, t: nat, r: State, w: nat)
    requires Inv(s) && Moves(s, t, r) && Target(r.pcs[t]) == Some(w) && Target(s.pcs[t]) != Some(w)
    ensures w < |r.pcs| && r.pcs[w].Blocked? && w !in r.sh.queue && w !in r.sh.wakeups
    ensures forall v :: 0 <= v < |r.pcs| && v != t ==> Target(r.pcs[v]) != Some(w)
  {
    assert s.sh.queue[0] == w;
    assert w in s.sh.queue;
    assert Fits(s.sh, w, s.pcs[w]) && Fits(s.sh, t, s.pcs[t]);
  }

  lemma MoveWakers(s: State, t: nat, r: State)
    requires Inv(s) && Moves(s, t, r)
    ensures Wakers(r)
  {
    forall u, w | 0 <= u < |r.pcs| && Target(r.pcs[u]) == Some(w)
      ensures w < |r.pcs| && r.pcs[w].Blocked? && w !in r.sh.queue && w !in r.sh.wakeups
      ensures forall v :: 0 <= v < |r.pcs| && v != u ==> Target(r.pcs[v]) != Some(w)
    {
      if Target(s.pcs[u]) == Some(w) {
        assert s.pcs[t].Waking? ==> Target(s.pcs[t]) == Some(s.pcs[t].w);
        assert w !in r.sh.queue;
      } else {
        NewTarget(s, t, r, w);
      }
    }
  }

  lemma MoveAccounted(s: State, t: nat, r: State)
    requires Inv(s) && Moves(s, t, r)
    ensures Accounted(r)
  {
    forall w | 0 <= w < |r.pcs| && r.pcs[w].Blocked?
      ensures w in r.sh.queue || w in r.sh.wakeups || HasWaker(r, w)
    {
      if w == t {
      } else if w in s.sh.queue {
        if w !in r.sh.queue {
          assert s.sh.queue == [s.sh.queue[0]] + s.sh.queue[1..];
          assert Target(r.pcs[t]) == Some(w);
        }
      } else if w in s.sh.wakeups {
      } else {
        var u :| 0 <= u < |s.pcs| && Target(s.pcs[u]) == Some(w);
        assert u != t ==> Target(r.pcs[u]) == Some(w);
      }
    }
  }

  lemma MoveNotStranded(s: State, t: nat, r: State)
    requires Inv(s) && Moves(s, t, r)
    ensures NotStranded(r)
  {
    if r.sh.queue != [] && r.sh.held.Clear? {
      if Obliged(r.sh, t, r.pcs[t]) {
      } else if s.pcs[t].Waking? {
        var w := s.pcs[t].w;
        assert Target(s.pcs[t]) == Some(w);
        assert Obliged(r.sh, w, r.pcs[w]);
      } else {
        var u :| 0 <= u < |s.pcs| && Obliged(s.sh, u, s.pcs[u]);
        assert Obliged(r.sh, u, r.pcs[u]);
      }
    }
  }

  lemma StepKeepsInv(s: State, a: Action)
    requires Inv(s) && Enabled(s, a)
    ensures Inv(Apply(s, a))
  {
    var r := Apply(s, a);
    match a {
      case Run(t) =>
        RunMoves(s, t);
        MoveWakers(s, t, r);
        MoveAccounted(s, t, r);
        MoveNotStranded(s, t, r);
      case _ => EnterKeepsInv(s, a);
    }
  }

  lemma EnterWakers(s: State, a: Action)
    requires Wakers(s) && Enabled(s, a) && !a.Run?
    ensures Wakers(Apply(s, a))
  {
    var r := Apply(s, a);
    forall u, w | 0 <= u < |r.pcs| && Target(r.pcs[u]) == Some(w)
      ensures w < |r.pcs| && r.pcs[w].Blocked? && w !in r.sh.queue && w !in r.sh.wakeups
      ensures forall v :: 0 <= v < |r.pcs| && v != u ==> Target(r.pcs[v]) != Some(w)
    {
      assert Target(s.pcs[u]) == Some(w);
    }
  }

  lemma EnterAccounted(s: State, a: Action)
    requires Accounted(s) && Enabled(s, a) && !a.Run?
    ensures Accounted(Apply(s, a))
  {
    var r := Apply(s, a);
    forall w | 0 <= w < |r.pcs| && r.pcs[w].Blocked? && w !in r.sh.queue && w !in r.sh.wakeups ensures HasWaker(r, w) {
      var u :| 0 <= u < |s.pcs| && Target(s.pcs[u]) == Some(w);
      assert Target(r.pcs[u]) == Some(w);
    }
  }

  lemma EnterKeepsInv(s: State, a: Action)
    requires Inv(s) && Enabled(s, a) && !a.Run?
    ensures Inv(Apply(s, a))
  {
    var r := Apply(s, a);
    EnterWakers(s, a);
    EnterAccounted(s, a);
    if s.sh.queue != [] && s.sh.held.Clear? {
      var u :| 0 <= u < |s.pcs| && Obliged(s.sh, u, s.pcs[u]);
      assert Obliged(r.sh, u, r.pcs[u]);
    }
  }

  // ---------------------------------------------------------------- runs

  ghost predicate Follows(s: State, t: State) { exists a :: Enabled(s, a) && t == Apply(s, a) }

  ghost predicate IsRun(run: seq<State>) {
    && run != [] && Start(run[0])
    && forall k :: 0 <= k < |run| - 1 ==> Follows(run[k], run[k + 1])
  }

  lemma {:induction false} RunInv(run: seq<State>, k: nat)
    requires IsRun(run) && k < |run|
    ensures Inv(run[k])
  {
    if k > 0 {
      RunInv(run, k - 1);
      assert Follows(run[k - 1], run[k]);
      var a :| Enabled(run[k - 1], a) && run[k] == Apply(run[k - 1], a);
      StepKeepsInv(run[k - 1], a);
    }
  }

  /** In every run two threads never own the mutex at once, and an owner has set `held`. */
  lemma MutualExclusion(run: seq<State>, k: nat, t: nat, u: nat)
    requires IsRun(run) && k < |run| && t < |run[k].pcs| && u < |run[k].pcs| && t != u
    ensures run[k].pcs[t].Critical? ==> !run[k].pcs[u].Critical? && run[k].sh.held.SetBy?
  {
    RunInv(run, k);
    assert Fits(run[k].sh, t, run[k].pcs[t]) && Fits(run[k].sh, u, run[k].pcs[u]);
  }

  /** In every run, if a thread sleeps in the queue and the mutex is free, some other thread is
      obliged to look at the mutex again or to wake somebody, and that thread or the holder of the
      queue lock can run: no waiter is stranded. */
  lemma NoWaiterStranded(run: seq<State>, k: nat, w: nat)
    requires IsRun(run) && k < |run| && w in run[k].sh.queue && run[k].sh.held.Clear?
    ensures exists t :: 0 <= t < |run[k].pcs|
                        && Obliged(run[k].sh, t, run[k].pcs[t]) && CanRun(run[k].sh, t, run[k].pcs[t])
  {
    RunInv(run, k);
    var s := run[k];
    var t :| 0 <= t < |s.pcs| && Obliged(s.sh, t, s.pcs[t]);
    assert CanRun(s.sh, t, s.pcs[t]);
  }

  /** No deadlock: if any thread is inside the mutex code, one of them can run (an owner may of
      course stay in its critical section, but it is never blocked by the mutex). */
  lemma NeverStuck(run: seq<State>, k: nat, t: nat)
    requires IsRun(run) && k < |run| && t < |run[k].pcs| && !run[k].pcs[t].Outside?
    ensures exists u :: 0 <= u < |run[k].pcs| && CanRun(run[k].sh, u, run[k].pcs[u])
  {
    RunInv(run, k);
    var s := run[k];
    var u := Mover(s, t);
  }

  lemma Mover(s: State, t: nat) returns (u: nat)
    requires Inv(s) && t < |s.pcs| && !s.pcs[t].Outside?
    ensures u < |s.pcs| && CanRun(s.sh, u, s.pcs[u])
  {
    u := t;
    if s.sh.spin.SetBy? {
      u := s.sh.spin.t;
      assert Fits(s.sh, u, s.pcs[u]);
    } else if !CanRun(s.sh, t, s.pcs[t]) {
      if t in s.sh.queue {
        if s.sh.held.SetBy? {
          u := s.sh.held.t;
          assert Fits(s.sh, u, s.pcs[u]);
        } else {
          u :| 0 <= u < |s.pcs| && Obliged(s.sh, u, s.pcs[u]);
        }
      } else {
        u :| 0 <= u < |s.pcs| && Target(s.pcs[u]) == Some(t);
      }
    }
  }
}
