/** The C-threads scheduler (libthreads/cprocs.c): cprocs multiplexed on a pool of kernel
    threads.  cproc_block, cproc_ready, cproc_waiting, condition_wait, cthread_yield and
    cproc_create are one interleaved step relation; a spin-locked section is one step, and a step
    that takes a cproc's lock waits until it is free.  Wired cthreads appear as outside wakers. */
module Scheduler {

  import opened Options
  import opened Queues

  /** The bits of cproc.state: RUNNING 0, SWITCHING 1, BLOCKED 2, CONDWAIT 4. */
  datatype St = Running | Switching | Blocked | CondSwitching | CondRunning

  predicate HasSwitching(st: St) { st.Switching? || st.CondSwitching? }
  predicate HasCondwait(st: St) { st.CondSwitching? || st.CondRunning? }

  /** state & ~SWITCHING | RUNNING. */
  function Caught(st: St): St { if st.CondSwitching? || st.CondRunning? then CondRunning else Running }

  /** Where a cproc is listed: nowhere, on some wait queue, on the ready queue, or held by one
      kernel thread that took it off a wait queue (WakeHand) or off the ready queue (RunHand). */
  datatype Where = Nowhere | InWait | InReady | WakeHand(k: nat) | RunHand(k: nat)

  /** `run` is the kernel thread on this cproc's stack; without one its context is saved. */
  datatype Cproc = Cproc(st: St, lock: Option<nat>, run: Option<nat>, at: Where)

  /** A partial stack for idle kernel threads: who executes on it and whether it is pooled. */
  datatype Idler = Idler(lock: Option<nat>, stack: Option<nat>, at: Where)

  /** Who called cproc_ready: user code, condition_wait, or a wired cthread. */
  datatype Ret = ToUser | ToCond | ToWired

  /** What a kernel thread is doing. */
  datatype Pc =
    | Wired | User
    | CondMarked | CondQueued | CondUnlocked          // condition_wait
    | Entering | Choosing | Picked | Taking           // cproc_block, cthread_yield
    | Leaving | Landed                                // cproc_switch
    | Idling | IdlePicked | IdleSaved | IdleReturn    // cproc_block with nothing ready
    | IdleTaking | IdleLeaving | IdleLanded           // cproc_start_wait
    | Receiving | Received                            // cproc_waiting
    | Resuming | Pooling | IdleSwitch | IdleGone
    | ReadyTest | ReadyEnq | ReadySend                // cproc_ready

  /** A kernel thread: `p` the cproc whose stack it is on, `x` the cproc it has taken off a queue,
      `prev` the one it has just switched away from, `w` its idle stack. */
  datatype Kt = Kt(pc: Pc, p: Option<nat>, x: Option<nat>, prev: Option<nat>, w: Option<nat>, ret: Ret, preq: bool)

  datatype Sh = Sh(
    ready: seq<nat>, readyCount: int, waitCount: int,
    tokens: nat,               // messages in wait_port
    waiters: seq<nat>,
    waitq: set<nat>,           // cprocs on mutex, condition and port-entry queues
    cprocs: seq<Cproc>, idlers: seq<Idler>)

  datatype State = State(sh: Sh, kts: seq<Kt>)

  // ---------------------------------------------------------------- steps

  /** The cproc whose lock the thread holds. */
  function Locks(kt: Kt): Option<nat> {
    if kt.pc.Entering? || kt.pc.Taking? || kt.pc.Leaving? || kt.pc.IdleTaking? || kt.pc.IdleLeaving? then kt.p
    else if kt.pc.Landed? || kt.pc.IdleLanded? then kt.prev
    else None
  }

  /** On the stack of a cproc, rather than on an idle stack or in a wired cthread. */
  predicate OnCproc(kt: Kt) {
    match kt.pc
    case Wired => false
    case IdleLanded => false
    case Receiving => false
    case Received => false
    case Resuming => false
    case Pooling => false
    case IdleSwitch => false
    case ReadyTest => !kt.ret.ToWired?
    case ReadyEnq => !kt.ret.ToWired?
    case ReadySend => !kt.ret.ToWired?
    case _ => true
  }

  predicate HoldsCproc(pc: Pc) {
    match pc
    case Picked => true
    case Taking => true
    case Leaving => true
    case Resuming => true
    case Pooling => true
    case IdleSwitch => true
    case ReadyTest => true
    case ReadyEnq => true
    case _ => false
  }

  predicate HasIdler(pc: Pc) {
    match pc
    case IdlePicked => true
    case IdleSaved => true
    case IdleReturn => true
    case IdleTaking => true
    case IdleLeaving => true
    case IdleLanded => true
    case Receiving => true
    case Received => true
    case Resuming => true
    case Pooling => true
    case IdleSwitch => true
    case IdleGone => true
    case _ => false
  }

  /** Which registers are in use at each place. */
  predicate Registers(kt: Kt) {
    && kt.p.Some? == OnCproc(kt)
    && kt.x.Some? == HoldsCproc(kt.pc)
    && kt.prev.Some? == (kt.pc.Landed? || kt.pc.IdleLanded?)
    && kt.w.Some? == HasIdler(kt.pc)
  }

  predicate Below(o: Option<nat>, n: nat) { o.Some? ==> o.value < n }

  predicate InBounds(sh: Sh, kt: Kt) {
    && Below(kt.p, |sh.cprocs|) && Below(kt.x, |sh.cprocs|) && Below(kt.prev, |sh.cprocs|)
    && Below(kt.w, |sh.idlers|)
    && (sh.ready != [] ==> sh.ready[0] < |sh.cprocs|)
    && (sh.waiters != [] ==> sh.waiters[0] < |sh.idlers|)
    && Registers(kt)
  }

  /** Stands for the record of no cproc. */
  const NO_RECORD := Cproc(Blocked, None, None, InReady)
  /** A newly allocated idle stack, as if it had come from the pool. */
  const NO_IDLER := Idler(None, None, InReady)

  function Rec(sh: Sh, o: Option<nat>): Cproc
    requires Below(o, |sh.cprocs|)
  {
    if o.Some? then sh.cprocs[o.value] else NO_RECORD
  }

  function Put(sh: Sh, o: Option<nat>, c: Cproc): (r: Sh)
    requires Below(o, |sh.cprocs|)
    ensures |r.cprocs| == |sh.cprocs| && r == sh.(cprocs := r.cprocs)
    ensures o.Some? ==> r.cprocs[o.value] == c
    ensures forall q :: 0 <= q < |sh.cprocs| && o != Some(q) ==> r.cprocs[q] == sh.cprocs[q]
  {
    if o.Some? then sh.(cprocs := sh.cprocs[o.value := c]) else sh
  }

  /** The cproc whose record a step changes as its own: the one it runs, or the one it just left. */
  function Own(kt: Kt): Option<nat> { if kt.pc.Landed? || kt.pc.IdleLanded? then kt.prev else kt.p }

  predicate Dequeues(pc: Pc) { pc.Choosing? || pc.Received? }

  /** The second cproc a step looks at: the one in hand, the head of the ready queue, or the one
      it has landed on. */
  function Second(kt: Kt, e: Env): Option<nat> {
    if kt.pc.Landed? then kt.p else if Dequeues(kt.pc) then e.head else kt.x
  }

  /** What a step learns from the shared lists. */
  datatype Env = Env(head: Option<nat>, idler: nat, send: bool)

  function EnvOf(sh: Sh, kt: Kt): Env
    requires InBounds(sh, kt)
  {
    Env(if sh.ready != [] then Some(sh.ready[0]) else None,
        if sh.waiters != [] then sh.waiters[0] else |sh.idlers|,
        kt.pc.ReadyEnq? && !CallerWaits(kt, Rec(sh, kt.p)) && sh.readyCount + 1 > 0 && sh.waitCount != 0)
  }

  /** The caller's own CONDWAIT bit, tested by cproc_ready; not for a wired caller. */
  predicate CallerWaits(kt: Kt, a: Cproc) { !kt.ret.ToWired? && HasCondwait(a.st) }

  predicate CanRun(sh: Sh, kt: Kt)
    requires InBounds(sh, kt)
  {
    && Willing(kt.pc, Rec(sh, Own(kt)), Rec(sh, Second(kt, EnvOf(sh, kt))))
    && (kt.pc.Receiving? ==> sh.tokens > 0)
    && (kt.pc.IdleTaking? || kt.pc.Pooling? ==> sh.idlers[kt.w.value].lock.None?)
  }

  /** The thread has a next step, and the lock it needs for it is free. */
  predicate Willing(pc: Pc, a: Cproc, b: Cproc) {
    && !pc.Wired? && !pc.User?
    && (pc.CondUnlocked? || pc.Picked? || pc.IdlePicked? ==> a.lock.None?)
    && (pc.Taking? || pc.Resuming? || pc.ReadyTest? ==> b.lock.None?)
  }

  function Return(ret: Ret): Pc {
    match ret
    case ToUser => User
    case ToCond => CondUnlocked
    case ToWired => Wired
  }

  /** What a step of `k` does to its own place and to the records of its two cprocs. */
  function Local(k: nat, kt: Kt, a: Cproc, b: Cproc, e: Env): (Kt, Cproc, Cproc)
    requires Willing(kt.pc, a, b)
  {
    match kt.pc
    case CondMarked => (kt.(pc := CondQueued), a.(at := InWait), b)
    case CondQueued => (kt.(pc := CondUnlocked), a, b)
    case CondUnlocked =>
      if HasSwitching(a.st) then (kt.(pc := Entering), a.(lock := Some(k)), b)
      else (kt.(pc := User), a.(st := Running), b)
    case Entering => (kt.(pc := Choosing), a.(st := Switching, lock := None), b)
    case Choosing =>
      if e.head.Some? then (kt.(pc := Picked, x := e.head), a, b.(at := RunHand(k)))
      else (kt.(pc := Idling), a, b)
    case Picked =>
      if a.st.Running? then (kt.(pc := ReadyTest, ret := ToUser, preq := true), a, b.(at := WakeHand(k)))
      else (kt.(pc := Taking), a.(st := Blocked, lock := Some(k)), b)
    case Taking => (kt.(pc := Leaving), a, b.(st := Running))
    case Leaving =>
      (kt.(pc := Landed, prev := kt.p, p := kt.x, x := None), a.(run := None), b.(run := Some(k), at := Nowhere))
    case Landed => (kt.(pc := User, prev := None), a.(lock := None), b)
    case Idling => (kt.(pc := IdlePicked, w := Some(e.idler)), a, b)
    case IdlePicked =>
      if a.st.Running? then (kt.(pc := IdleSaved), a, b)
      else (kt.(pc := IdleTaking), a.(st := Blocked, lock := Some(k)), b)
    case IdleSaved => (kt.(pc := IdleReturn), a, b)
    case IdleReturn => (kt.(pc := User, w := None), a, b)
    case IdleTaking => (kt.(pc := IdleLeaving), a, b)
    case IdleLeaving => (kt.(pc := IdleLanded, prev := kt.p, p := None), a.(run := None), b)
    case IdleLanded => (kt.(pc := Receiving, prev := None), a.(lock := None), b)
    case Receiving => (kt.(pc := Received), a, b)
    case Received =>
      if e.head.Some? then (kt.(pc := Resuming, x := e.head), a, b.(at := RunHand(k)))
      else (kt.(pc := Receiving), a, b)
    case Resuming => (kt.(pc := Pooling), a, b.(st := Running))
    case Pooling => (kt.(pc := IdleSwitch), a, b)
    case IdleSwitch => (kt.(pc := IdleGone, p := kt.x, x := None), a, b.(run := Some(k), at := Nowhere))
    case IdleGone => (kt.(pc := User, w := None), a, b)
    case ReadyTest =>
      if HasSwitching(b.st) then (kt.(pc := Return(kt.ret), x := None), a, b.(st := Caught(b.st), at := Nowhere))
      else (kt.(pc := ReadyEnq), a, b.(at := RunHand(k)))
    case ReadyEnq => (kt.(pc := if e.send then ReadySend else Return(kt.ret), x := None), a, b.(at := InReady))
    case ReadySend => (kt.(pc := Return(kt.ret)), a, b)
  }

  function PutIdler(sh: Sh, w: nat, i: Idler): Sh
    requires w < |sh.idlers|
  {
    sh.(idlers := sh.idlers[w := i])
  }

  /** What the same step does to the queues, the counters, the wakeup messages and the idle stacks. */
  function Lists(sh: Sh, k: nat, kt: Kt): (r: Sh)
    requires InBounds(sh, kt) && CanRun(sh, kt)
    ensures r.cprocs == sh.cprocs && |r.idlers| >= |sh.idlers|
  {
    match kt.pc
    case CondMarked => sh.(waitq := sh.waitq + {kt.p.value})
    case Choosing =>
      if sh.ready != [] then sh.(ready := sh.ready[1..], readyCount := sh.readyCount - 1)
      else sh.(waitCount := sh.waitCount + 1)
    case Idling =>
      if sh.waiters != [] then
        var w := sh.waiters[0];
        PutIdler(sh, w, sh.idlers[w].(at := RunHand(k))).(waiters := sh.waiters[1..])
      else sh.(idlers := sh.idlers + [Idler(None, None, RunHand(k))])
    case IdleSaved => sh.(waitCount := sh.waitCount - 1)
    case IdleReturn =>
      PutIdler(sh, kt.w.value, sh.idlers[kt.w.value].(at := InReady)).(waiters := [kt.w.value] + sh.waiters)
    case IdleLeaving => PutIdler(sh, kt.w.value, sh.idlers[kt.w.value].(stack := Some(k), at := Nowhere))
    case Receiving => sh.(tokens := sh.tokens - 1)
    case Received =>
      if sh.ready != [] then sh.(ready := sh.ready[1..])
      else sh.(waitCount := sh.waitCount + 1, readyCount := sh.readyCount + 1)
    case Pooling =>
      PutIdler(sh, kt.w.value, sh.idlers[kt.w.value].(lock := Some(k), at := InReady))
        .(waiters := sh.waiters + [kt.w.value])
    case IdleSwitch => PutIdler(sh, kt.w.value, sh.idlers[kt.w.value].(stack := None))
    case IdleGone => PutIdler(sh, kt.w.value, sh.idlers[kt.w.value].(lock := None))
    case ReadyEnq =>
      var ready := if kt.preq then [kt.x.value] + sh.ready else sh.ready + [kt.x.value];
      if EnvOf(sh, kt).send then sh.(ready := ready, waitCount := sh.waitCount - 1)
      else sh.(ready := ready, readyCount := sh.readyCount + 1)
    case ReadySend => sh.(tokens := sh.tokens + 1)
    case _ => sh
  }

  /** One step of kernel thread `k`. */
  function Step(sh: Sh, k: nat, kt: Kt): (Sh, Kt)
    requires InBounds(sh, kt) && CanRun(sh, kt)
  {
    var e := EnvOf(sh, kt);
    var own, second := Own(kt), Second(kt, e);
    var (kt', a', b') := Local(k, kt, Rec(sh, own), Rec(sh, second), e);
    (Put(Put(Lists(sh, k, kt), own, a'), second, b'), kt')
  }

  // ---------------------------------------------------------------- invariant

  predicate Waitish(at: Where) { at.InWait? || at.WakeHand? }

  /** The thread has made the cproc in hand RUNNING and is about to load its context. */
  predicate Committed(pc: Pc) { pc.Leaving? || pc.Pooling? || pc.IdleSwitch? }

  /** A waiter that may be caught while switching: still listed, or caught and listed nowhere. */
  predicate MayBeCaught(c: Cproc, waiting: St, caught: St) {
    (c.st == waiting && Waitish(c.at)) || (c.st == caught && c.at.Nowhere?)
  }

  /** State bits and listing of the cproc a thread runs. */
  predicate RunsOk(kt: Kt, c: Cproc) {
    match kt.pc
    case CondMarked => c.st.CondSwitching? && c.at.Nowhere?
    case CondQueued => MayBeCaught(c, CondSwitching, CondRunning)
    case CondUnlocked => MayBeCaught(c, CondSwitching, CondRunning)
    case Entering => (c.st.Running? || c.st.CondSwitching?) && Waitish(c.at)
    case Choosing => MayBeCaught(c, Switching, Running)
    case Picked => MayBeCaught(c, Switching, Running)
    case Idling => MayBeCaught(c, Switching, Running)
    case IdlePicked => MayBeCaught(c, Switching, Running)
    case Taking => c.st.Blocked? && !c.at.Nowhere?
    case Leaving => c.st.Blocked? && !c.at.Nowhere?
    case IdleTaking => c.st.Blocked? && !c.at.Nowhere?
    case IdleLeaving => c.st.Blocked? && !c.at.Nowhere?
    case _ =>
      if kt.ret.ToCond? && (kt.pc.ReadyTest? || kt.pc.ReadyEnq? || kt.pc.ReadySend?)
      then MayBeCaught(c, CondSwitching, CondRunning)
      else c.st.Running? && c.at.Nowhere?
  }

  /** The record of the cproc that thread `k` runs. */
  predicate RunnerOk(k: nat, kt: Kt, c: Cproc) {
    c.run == Some(k) && c.lock == (if Locks(kt) == kt.p then Some(k) else None) && RunsOk(kt, c)
  }

  /** The record of the cproc that thread `k` has in hand. */
  predicate HandOk(k: nat, pc: Pc, c: Cproc) {
    if pc.ReadyTest? then c.at == WakeHand(k)
    else c.at == RunHand(k) && (if Committed(pc) then c.st.Running? && c.run.None? else c.st.Blocked?)
  }

  /** The record of a cproc the thread has left but not yet unlocked. */
  predicate LeftOk(k: nat, c: Cproc) { c.lock == Some(k) && c.run.None? && c.st.Blocked? }

  /** What holds of every record by itself. */
  predicate Sane(c: Cproc) {
    && (c.run.None? ==> !c.at.Nowhere? && (c.st.Blocked? || (c.st.Running? && c.at.RunHand?)))
    && (c.st.Blocked? && c.run.Some? ==> c.lock == c.run)
    && (c.at.InReady? ==> c.st.Blocked?)
    && (c.at.RunHand? ==> c.st.Blocked? || (c.st.Running? && c.run.None?))
    && (Waitish(c.at) && c.lock.None? ==> HasSwitching(c.st) || c.st.Blocked?)
    && (c.run.None? && c.st.Running? ==> c.lock.None?)
  }

  /** A thread and the records it is concerned with: run, in hand, just left. */
  predicate Concerns(k: nat, kt: Kt, r: Cproc, h: Cproc, l: Cproc) {
    && (kt.p.Some? ==> RunnerOk(k, kt, r))
    && (kt.x.Some? ==> HandOk(k, kt.pc, h))
    && (kt.prev.Some? ==> LeftOk(k, l))
  }

  predicate Apart(kt: Kt) { kt.p.Some? ==> kt.p != kt.x && kt.p != kt.prev }

  /** Which of the two records of a step is the one of cproc `o`. */
  function Of(o: Option<nat>, own: Option<nat>, a: Cproc, b: Cproc): Cproc { if o == own then a else b }

  /** How a step of `k` may change the record of a cproc that another thread runs. */
  predicate RunnerSafe(c: Cproc, c': Cproc) {
    || c' == c
    || (c' == c.(at := c'.at) && !c.at.Nowhere? && !c'.at.Nowhere? && (Waitish(c.at) ==> Waitish(c'.at)))
    || (HasSwitching(c.st) && c.lock.None? && Waitish(c.at) && c' == c.(st := Caught(c.st), at := Nowhere))
  }

  /** How a step of `k` may change the record of a cproc that another thread has in hand. */
  predicate HandSafe(c: Cproc, c': Cproc) {
    c'.at == c.at && (c.at.RunHand? ==> c'.st == c.st && (c'.run == c.run || c'.run.None?))
  }

  function HandOf(at: Where): Option<nat> { if at.WakeHand? || at.RunHand? then Some(at.k) else None }

  predicate Theirs(k: nat, o: Option<nat>) { o.Some? && o != Some(k) }

  /** How a step of `k` may change any record. */
  predicate Touches(k: nat, c: Cproc, c': Cproc) {
    && Sane(c')
    && (Theirs(k, c.run) ==> RunnerSafe(c, c'))
    && (Theirs(k, HandOf(c.at)) ==> HandSafe(c, c'))
    && (Theirs(k, c.lock) ==> c'.lock == c.lock && c'.run == c.run && c'.st == c.st)
    && (Theirs(k, c'.run) ==> c'.run == c.run)
    && (Theirs(k, HandOf(c'.at)) ==> c'.at == c.at)
    && (Theirs(k, c'.lock) ==> c'.lock == c.lock)
  }

  /** Thread `k` points at the cprocs whose records name it. */
  predicate Names(k: nat, kt: Kt, o: Option<nat>, c: Cproc) {
    && (c.run == Some(k) ==> kt.p == o)
    && (HandOf(c.at) == Some(k) ==> kt.x == o)
    && (c.lock == Some(k) ==> Locks(kt) == o)
  }

  /** What a step of `k` needs to know about the two records it reads. */
  predicate Ready(k: nat, kt: Kt, a: Cproc, b: Cproc, e: Env) {
    && Willing(kt.pc, a, b) && Sane(a) && Sane(b)
    && (Dequeues(kt.pc) && e.head.Some? ==> b.at.InReady?)
    && Registers(kt) && Apart(kt) && (kt.p.Some? && Dequeues(kt.pc) ==> kt.p != e.head)
    && Concerns(k, kt, Of(kt.p, Own(kt), a, b), b, a)
  }

  predicate Covers(kt: Kt, own: Option<nat>, second: Option<nat>) {
    && (kt.p.Some? ==> kt.p == own || kt.p == second)
    && (kt.x.Some? ==> kt.x == second)
    && (kt.prev.Some? ==> kt.prev == own)
  }

  /** One move of `k` on its own record `a` and the second record `b` keeps everything local. */
  predicate GoodMove(k: nat, kt: Kt, own: Option<nat>, a: Cproc, second: Option<nat>, b: Cproc, kt': Kt, a': Cproc,
                     b': Cproc) {
    && Registers(kt') && Apart(kt') && Covers(kt', own, second)
    && Concerns(k, kt', Of(kt'.p, own, a', b'), b', a')
    && (own.Some? ==> Touches(k, a, a') && (Names(k, kt, own, a) ==> Names(k, kt', own, a')))
    && (second.Some? ==> Touches(k, b, b') && (Names(k, kt, second, b) ==> Names(k, kt', second, b')))
  }

  /** The places on the way into the idle loop, in it, and out of it. */
  predicate IdleSide(pc: Pc) { pc.Idling? || HasIdler(pc) }

  lemma LocalRegistersBusy(k: nat, kt: Kt, a: Cproc, b: Cproc, e: Env)
    requires Willing(kt.pc, a, b) && Registers(kt) && !IdleSide(kt.pc)
    ensures var (kt', a', b') := Local(k, kt, a, b, e);
            Registers(kt')
  {
    match kt.pc {
      case CondMarked => case CondQueued => case CondUnlocked => case Entering => case Choosing =>
      case Picked => case Taking => case Leaving => case Landed => case ReadyTest =>
      case ReadyEnq => case ReadySend =>
    }
  }

  lemma LocalRegistersGoing(k: nat, kt: Kt, a: Cproc, b: Cproc, e: Env)
    requires Willing(kt.pc, a, b) && Registers(kt) && IdleSide(kt.pc) && OnCproc(kt)
    ensures Registers(Local(k, kt, a, b, e).0)
  {
    match kt.pc {
      case Idling => case IdlePicked => case IdleSaved => case IdleReturn => case IdleTaking =>
      case IdleLeaving => case IdleGone =>
    }
  }

  lemma LocalRegistersIdle(k: nat, kt: Kt, a: Cproc, b: Cproc, e: Env)
    requires Willing(kt.pc, a, b) && Registers(kt) && IdleSide(kt.pc) && !OnCproc(kt)
    ensures Registers(Local(k, kt, a, b, e).0)
  {
    match kt.pc {
      case IdleLanded => case Receiving => case Received => case Resuming => case Pooling => case IdleSwitch =>
    }
  }

  lemma LocalRunnerBusy(k: nat, kt: Kt, a: Cproc, b: Cproc, e: Env)
    requires Willing(kt.pc, a, b) && Registers(kt) && Apart(kt) && Sane(b) && !IdleSide(kt.pc)
    requires Concerns(k, kt, Of(kt.p, Own(kt), a, b), b, a)
    ensures var (kt', a', b') := Local(k, kt, a, b, e);
            kt'.p.Some? ==> RunnerOk(k, kt', Of(kt'.p, Own(kt), a', b'))
  {
    match kt.pc {
      case CondMarked => case CondQueued => case CondUnlocked => case Entering => case Choosing =>
      case Picked => case Taking => case Leaving => case Landed => case ReadyTest =>
      case ReadyEnq => case ReadySend =>
    }
  }

  lemma LocalRunnerIdle(k: nat, kt: Kt, a: Cproc, b: Cproc, e: Env)
    requires Ready(k, kt, a, b, e) && IdleSide(kt.pc)
    ensures var (kt', a', b') := Local(k, kt, a, b, e);
            kt'.p.Some? ==> RunnerOk(k, kt', Of(kt'.p, Own(kt), a', b'))
  {
    match kt.pc {
      case Idling => case IdlePicked => case IdleSaved => case IdleReturn => case IdleTaking =>
      case IdleLeaving => case IdleLanded => case Receiving => case Received => case Resuming =>
      case Pooling => case IdleSwitch => case IdleGone =>
    }
  }

  lemma LocalApart(k: nat, kt: Kt, a: Cproc, b: Cproc, e: Env)
    requires Ready(k, kt, a, b, e)
    ensures var (kt', a', b') := Local(k, kt, a, b, e);
            Apart(kt') && Covers(kt', Own(kt), Second(kt, e))
  {
    match kt.pc {
      case CondMarked => case CondQueued => case CondUnlocked => case Entering => case Choosing =>
      case Picked => case Taking => case Leaving => case Landed => case Idling => case IdlePicked =>
      case IdleSaved => case IdleReturn => case IdleTaking => case IdleLeaving => case IdleLanded =>
      case Receiving => case Received => case Resuming => case Pooling => case IdleSwitch =>
      case IdleGone => case ReadyTest => case ReadyEnq => case ReadySend =>
    }
  }

  lemma LocalHand(k: nat, kt: Kt, a: Cproc, b: Cproc, e: Env)
    requires Ready(k, kt, a, b, e)
    ensures var (kt', a', b') := Local(k, kt, a, b, e);
            (kt'.x.Some? ==> HandOk(k, kt'.pc, b')) && (kt'.prev.Some? ==> LeftOk(k, a'))
  {
    match kt.pc {
      case CondMarked => case CondQueued => case CondUnlocked => case Entering => case Choosing =>
      case Picked => case Taking => case Leaving => case Landed => case Idling => case IdlePicked =>
      case IdleSaved => case IdleReturn => case IdleTaking => case IdleLeaving => case IdleLanded =>
      case Receiving => case Received => case Resuming => case Pooling => case IdleSwitch =>
      case IdleGone => case ReadyTest => case ReadyEnq => case ReadySend =>
    }
  }

  lemma LocalOwn(k: nat, kt: Kt, a: Cproc, b: Cproc, e: Env)
    requires Ready(k, kt, a, b, e)
    ensures var (kt', a', b') := Local(k, kt, a, b, e);
            Own(kt).Some? ==> Touches(k, a, a') && (Names(k, kt, Own(kt), a) ==> Names(k, kt', Own(kt), a'))
  {
    match kt.pc {
      case CondMarked => case CondQueued => case CondUnlocked => case Entering => case Choosing =>
      case Picked => case Taking => case Leaving => case Landed => case Idling => case IdlePicked =>
      case IdleSaved => case IdleReturn => case IdleTaking => case IdleLeaving => case IdleLanded =>
      case Receiving => case Received => case Resuming => case Pooling => case IdleSwitch =>
      case IdleGone => case ReadyTest => case ReadyEnq => case ReadySend =>
    }
  }

  lemma LocalSecond(k: nat, kt: Kt, a: Cproc, b: Cproc, e: Env)
    requires Ready(k, kt, a, b, e)
    ensures var (kt', a', b') := Local(k, kt, a, b, e);
            Second(kt, e).Some? ==>
              Touches(k, b, b') && (Names(k, kt, Second(kt, e), b) ==> Names(k, kt', Second(kt, e), b'))
  {
    match kt.pc {
      case CondMarked => case CondQueued => case CondUnlocked => case Entering => case Choosing =>
      case Picked => case Taking => case Leaving => case Landed => case Idling => case IdlePicked =>
      case IdleSaved => case IdleReturn => case IdleTaking => case IdleLeaving => case IdleLanded =>
      case Receiving => case Received => case Resuming => case Pooling => case IdleSwitch =>
      case IdleGone => case ReadyTest => case ReadyEnq => case ReadySend =>
    }
  }

  lemma LocalGood(k: nat, kt: Kt, a: Cproc, b: Cproc, e: Env)
    requires Ready(k, kt, a, b, e)
    ensures var (kt', a', b') := Local(k, kt, a, b, e);
            GoodMove(k, kt, Own(kt), a, Second(kt, e), b, kt', a', b')
  {
    if IdleSide(kt.pc) {
      if OnCproc(kt) { LocalRegistersGoing(k, kt, a, b, e); } else { LocalRegistersIdle(k, kt, a, b, e); }
      LocalRunnerIdle(k, kt, a, b, e);
    } else {
      LocalRegistersBusy(k, kt, a, b, e);
      LocalRunnerBusy(k, kt, a, b, e);
    }
    LocalApart(k, kt, a, b, e);
    LocalHand(k, kt, a, b, e);
    LocalOwn(k, kt, a, b, e);
    LocalSecond(k, kt, a, b, e);
  }

  // ---------------------------------------------------------------- user code starting something

  datatype Act =
    | ActQueue   // mutex_lock_solid, cthread_mach_msg: queue, take own lock, cproc_block
    | ActCond    // condition_wait
    | ActWake    // cond_signal, cond_broadcast, mutex_unlock_solid, cthread_msg_busy
    | ActYield   // cthread_yield with somebody ready

  predicate MayBegin(kt: Kt, act: Act, a: Cproc, b: Cproc, x: Option<nat>) {
    match act
    case ActQueue => kt.pc.User? && x.None?
    case ActCond => kt.pc.User? && x.None?
    case ActWake => (kt.pc.User? || kt.pc.Wired? || kt.pc.CondQueued?) && x.Some? && x != kt.p && b.at.InWait?
    case ActYield => kt.pc.User? && x.Some? && b.at.InReady?
  }

  /** Queue on a mutex or port entry and enter cproc_block; start condition_wait; take a waiter off
      its queue and start cproc_ready; or yield to the head of the ready queue. */
  function Begin(k: nat, kt: Kt, act: Act, a: Cproc, b: Cproc, x: Option<nat>): (Kt, Cproc, Cproc)
    requires MayBegin(kt, act, a, b, x)
  {
    match act
    case ActQueue => (kt.(pc := Entering), a.(at := InWait, lock := Some(k)), b)
    case ActCond => (kt.(pc := CondMarked), a.(st := CondSwitching), b)
    case ActWake =>
      var ret := match kt.pc case CondQueued => ToCond case Wired => ToWired case _ => ToUser;
      (kt.(pc := ReadyTest, x := x, ret := ret, preq := false), a, b.(at := WakeHand(k)))
    case ActYield =>
      (kt.(pc := Taking, x := x), a.(st := Blocked, at := InReady, lock := Some(k)), b.(at := RunHand(k)))
  }

  lemma BeginGood(k: nat, kt: Kt, act: Act, a: Cproc, b: Cproc, x: Option<nat>)
    requires MayBegin(kt, act, a, b, x) && Sane(a) && Sane(b)
    requires Registers(kt) && Apart(kt) && Concerns(k, kt, a, b, a) && x != kt.p
    ensures var (kt', a', b') := Begin(k, kt, act, a, b, x); GoodMove(k, kt, kt.p, a, x, b, kt', a', b')
  {
    match act { case ActQueue => case ActCond => case ActWake => case ActYield => }
  }

  // ---------------------------------------------------------------- the whole state

  predicate Points(kts: seq<Kt>, q: nat, c: Cproc) {
    && (c.run.Some? ==> c.run.value < |kts| && kts[c.run.value].p == Some(q))
    && (HandOf(c.at).Some? ==> HandOf(c.at).value < |kts| && kts[HandOf(c.at).value].x == Some(q))
    && (c.lock.Some? ==> c.lock.value < |kts| && Locks(kts[c.lock.value]) == Some(q))
  }

  predicate KtOk(sh: Sh, k: nat, kt: Kt) {
    InBounds(sh, kt) && Apart(kt) && Concerns(k, kt, Rec(sh, kt.p), Rec(sh, kt.x), Rec(sh, kt.prev))
  }

  predicate Linked(s: State) {
    && (forall k :: 0 <= k < |s.kts| ==> KtOk(s.sh, k, s.kts[k]))
    && (forall q :: 0 <= q < |s.sh.cprocs| ==> Sane(s.sh.cprocs[q]) && Points(s.kts, q, s.sh.cprocs[q]))
  }

  lemma RunnerStable(j: nat, kt: Kt, c: Cproc, c': Cproc)
    requires RunnerOk(j, kt, c) && RunnerSafe(c, c')
    ensures RunnerOk(j, kt, c')
  {
  }

  /** A move of `k` disturbs no other thread. */
  lemma OtherConcerns(k: nat, j: nat, kt: Kt, r: Cproc, h: Cproc, l: Cproc, r': Cproc, h': Cproc, l': Cproc)
    requires j != k && Concerns(j, kt, r, h, l)
    requires kt.p.Some? ==> r' == r || Touches(k, r, r')
    requires kt.x.Some? ==> h' == h || Touches(k, h, h')
    requires kt.prev.Some? ==> l' == l || Touches(k, l, l')
    ensures Concerns(j, kt, r', h', l')
  {
    if kt.p.Some? && r' != r { RunnerStable(j, kt, r, r'); }
  }

  /** `t` is `s` after a move of thread `k` on the records of `own` and `second`. */
  predicate Moved(s: State, k: nat, t: State, own: Option<nat>, second: Option<nat>) {
    && k < |s.kts| == |t.kts| && t.kts == s.kts[k := t.kts[k]]
    && |t.sh.cprocs| == |s.sh.cprocs|
    && Below(own, |s.sh.cprocs|) && Below(second, |s.sh.cprocs|) && (own.Some? ==> own != second)
    && (forall q :: 0 <= q < |s.sh.cprocs| && own != Some(q) && second != Some(q) ==> t.sh.cprocs[q] == s.sh.cprocs[q])
    && Covers(s.kts[k], own, second)
    && GoodMove(k, s.kts[k], own, Rec(s.sh, own), second, Rec(s.sh, second),
                t.kts[k], Rec(t.sh, own), Rec(t.sh, second))
  }

  lemma PointsTouched(kts: seq<Kt>, k: nat, kt: Kt, q: nat, c: Cproc, c': Cproc)
    requires k < |kts| && Points(kts, q, c) && Touches(k, c, c') && Names(k, kt, Some(q), c')
    ensures Points(kts[k := kt], q, c')
  {
  }

  lemma PointsUntouched(kts: seq<Kt>, k: nat, kt: Kt, q: nat, c: Cproc, own: Option<nat>, second: Option<nat>)
    requires k < |kts| && Points(kts, q, c) && Covers(kts[k], own, second) && own != Some(q) && second != Some(q)
    ensures Points(kts[k := kt], q, c)
  {
  }

  lemma MovedRecord(s: State, k: nat, t: State, own: Option<nat>, second: Option<nat>, q: nat)
    requires Moved(s, k, t, own, second) && q < |s.sh.cprocs| && Sane(s.sh.cprocs[q])
             && Points(s.kts, q, s.sh.cprocs[q])
    ensures var c, c' := s.sh.cprocs[q], t.sh.cprocs[q];
            && (c' == c || Touches(k, c, c')) && Sane(c') && Points(t.kts, q, c')
  {
    var c, c' := s.sh.cprocs[q], t.sh.cprocs[q];
    if own == Some(q) || second == Some(q) {
      assert Names(k, s.kts[k], Some(q), c);
      PointsTouched(s.kts, k, t.kts[k], q, c, c');
    } else {
      PointsUntouched(s.kts, k, t.kts[k], q, c, own, second);
    }
  }

  lemma MovedLinked(s: State, k: nat, t: State, own: Option<nat>, second: Option<nat>)
    requires Linked(s) && Moved(s, k, t, own, second)
    requires forall j :: 0 <= j < |t.kts| ==> InBounds(t.sh, t.kts[j])
    ensures Linked(t)
  {
    forall q | 0 <= q < |t.sh.cprocs| ensures Sane(t.sh.cprocs[q]) && Points(t.kts, q, t.sh.cprocs[q]) {
      MovedRecord(s, k, t, own, second, q);
    }
    forall j | 0 <= j < |t.kts| ensures KtOk(t.sh, j, t.kts[j]) {
      if j != k { OtherKtOk(s, k, t, own, second, j); }
    }
  }

  lemma OtherKtOk(s: State, k: nat, t: State, own: Option<nat>, second: Option<nat>, j: nat)
    requires Linked(s) && Moved(s, k, t, own, second) && j < |t.kts| && j != k && InBounds(t.sh, t.kts[j])
    ensures KtOk(t.sh, j, t.kts[j])
  {
    var kt := s.kts[j];
    assert KtOk(s.sh, j, kt);
    if kt.p.Some? { MovedRecord(s, k, t, own, second, kt.p.value); }
    if kt.x.Some? { MovedRecord(s, k, t, own, second, kt.x.value); }
    if kt.prev.Some? { MovedRecord(s, k, t, own, second, kt.prev.value); }
    OtherConcerns(k, j, kt, Rec(s.sh, kt.p), Rec(s.sh, kt.x), Rec(s.sh, kt.prev),
                  Rec(t.sh, kt.p), Rec(t.sh, kt.x), Rec(t.sh, kt.prev));
  }

  /** The queues hold exactly the cprocs and idle stacks listed there, once each. */
  predicate Listed(sh: Sh) {
    && NoDups(sh.ready) && NoDups(sh.waiters)
    && (forall q :: q in sh.ready ==> q < |sh.cprocs|)
    && (forall q :: q in sh.waitq ==> q < |sh.cprocs|)
    && (forall w :: w in sh.waiters ==> w < |sh.idlers|)
    && (forall q :: 0 <= q < |sh.cprocs| ==> (sh.cprocs[q].at.InReady? <==> q in sh.ready))
    && (forall q :: 0 <= q < |sh.cprocs| ==> (sh.cprocs[q].at.InWait? <==> q in sh.waitq))
    && (forall w :: 0 <= w < |sh.idlers| ==> (sh.idlers[w].at.InReady? <==> w in sh.waiters))
  }

  // ---------------------------------------------------------------- idle stacks

  predicate InHand(k: nat, i: Idler) { i.at == RunHand(k) && i.stack != Some(k) && i.lock != Some(k) }

  /** The idle stack a thread has in hand or is on. */
  predicate IdlerOk(k: nat, pc: Pc, i: Idler) {
    match pc
    case IdlePicked => InHand(k, i)
    case IdleSaved => InHand(k, i)
    case IdleReturn => InHand(k, i)
    case IdleTaking => InHand(k, i)
    case IdleLeaving => InHand(k, i) && i.stack.None? && i.lock.None?
    case IdleSwitch => i.stack == Some(k) && i.lock == Some(k) && !i.at.Nowhere? && i.at != RunHand(k)
    case IdleGone => i.stack.None? && i.lock == Some(k) && !i.at.Nowhere? && i.at != RunHand(k)
    case _ => i.stack == Some(k) && i.lock.None? && i.at.Nowhere?
  }

  predicate IdlerSane(i: Idler) {
    && (i.at.Nowhere? ==> i.stack.Some? && i.lock.None?)
    && (!i.at.Nowhere? && i.stack.Some? ==> i.lock == i.stack)
    && (i.at.Nowhere? || i.at.InReady? || i.at.RunHand?)
  }

  predicate IdlerPoints(kts: seq<Kt>, w: nat, i: Idler) {
    && (i.stack.Some? ==> i.stack.value < |kts| && kts[i.stack.value].w == Some(w))
    && (i.lock.Some? ==> i.lock.value < |kts| && kts[i.lock.value].w == Some(w))
    && (i.at.RunHand? ==> i.at.k < |kts| && kts[i.at.k].w == Some(w))
  }

  predicate IdlersLinked(s: State) {
    && (forall k :: 0 <= k < |s.kts| && s.kts[k].w.Some? ==>
          s.kts[k].w.value < |s.sh.idlers| && IdlerOk(k, s.kts[k].pc, s.sh.idlers[s.kts[k].w.value]))
    && (forall w :: 0 <= w < |s.sh.idlers| ==>
          IdlerSane(s.sh.idlers[w]) && IdlerPoints(s.kts, w, s.sh.idlers[w]))
  }

  // ---------------------------------------------------------------- accounting

  /** Counted in wait_count: from finding nothing ready until it takes something up again. */
  predicate Waits(pc: Pc) {
    pc.Idling? || pc.IdlePicked? || pc.IdleSaved? || pc.IdleTaking? || pc.IdleLeaving? || pc.IdleLanded?
    || pc.Receiving? || pc.Received?
  }

  /** A wakeup that has been counted but is not, or no longer, a message in wait_port. */
  predicate InFlight(pc: Pc) { pc.Received? || pc.ReadySend? }

  function Waiting(kts: seq<Kt>): set<nat> { set k: nat | k < |kts| && Waits(kts[k].pc) }

  function Flying(kts: seq<Kt>): set<nat> { set k: nat | k < |kts| && InFlight(kts[k].pc) }

  /** Outstanding wakeup tokens. */
  function Outstanding(s: State): nat { s.sh.tokens + |Flying(s.kts)| }

  predicate Accounting(s: State) {
    && s.sh.readyCount == |s.sh.ready| - Outstanding(s)
    && s.sh.waitCount == |Waiting(s.kts)| - Outstanding(s)
  }

  predicate IsOutside(kt: Kt) {
    kt.pc.Wired? || ((kt.pc.ReadyTest? || kt.pc.ReadyEnq? || kt.pc.ReadySend?) && kt.ret.ToWired?)
  }

  predicate NobodyActive(kts: seq<Kt>) { forall k :: 0 <= k < |kts| ==> Waits(kts[k].pc) || IsOutside(kts[k]) }

  /** With no pool thread active and no token outstanding, nothing is ready. */
  predicate NoStall(s: State) {
    && |s.kts| > 0 && !IsOutside(s.kts[0])
    && (NobodyActive(s.kts) && s.sh.ready != [] ==> Outstanding(s) > 0)
  }

  predicate Inv(s: State) {
    Linked(s) && Listed(s.sh) && IdlersLinked(s) && Accounting(s) && NoStall(s)
  }

  // ---------------------------------------------------------------- actions

  datatype Action =
    | Run(k: nat)
    | Do(k: nat, act: Act, x: Option<nat>)
    | Create(k: nat)               // cproc_create at the kernel-thread limit
    | Spawn                        // cproc_create below it

  predicate Enabled(s: State, a: Action) {
    match a
    case Run(k) => k < |s.kts| && InBounds(s.sh, s.kts[k]) && CanRun(s.sh, s.kts[k])
    case Do(k, act, x) =>
      && k < |s.kts| && InBounds(s.sh, s.kts[k]) && Below(x, |s.sh.cprocs|)
      && MayBegin(s.kts[k], act, Rec(s.sh, s.kts[k].p), Rec(s.sh, x), x)
      && (act.ActYield? ==> s.sh.ready != [] && x == Some(s.sh.ready[0]))
    case Create(k) => k < |s.kts| && s.kts[k].pc.User?
    case Spawn => true
  }

  function DoLists(sh: Sh, kt: Kt, act: Act, x: Option<nat>): Sh
    requires act.ActYield? ==> sh.ready != []
    requires (act.ActQueue? || act.ActYield?) ==> kt.p.Some?
    requires act.ActWake? ==> x.Some?
  {
    match act
    case ActQueue => sh.(waitq := sh.waitq + {kt.p.value})
    case ActCond => sh
    case ActWake => sh.(waitq := sh.waitq - {x.value})
    case ActYield => sh.(ready := sh.ready[1..] + [kt.p.value])
  }

  function Apply(s: State, a: Action): State
    requires Enabled(s, a)
  {
    match a
    case Run(k) => var (sh', kt') := Step(s.sh, k, s.kts[k]); State(sh', s.kts[k := kt'])
    case Do(k, act, x) =>
      var kt := s.kts[k];
      var (kt', a', b') := Begin(k, kt, act, Rec(s.sh, kt.p), Rec(s.sh, x), x);
      State(Put(Put(DoLists(s.sh, kt, act, x), kt.p, a'), x, b'), s.kts[k := kt'])
    case Create(k) =>
      State(s.sh.(cprocs := s.sh.cprocs + [Cproc(Blocked, None, None, WakeHand(k))]),
            s.kts[k := s.kts[k].(pc := ReadyTest, x := Some(|s.sh.cprocs|), ret := ToUser, preq := false)])
    case Spawn =>
      State(s.sh.(cprocs := s.sh.cprocs + [Cproc(Running, None, Some(|s.kts|), Nowhere)]),
            s.kts + [Kt(User, Some(|s.sh.cprocs|), None, None, None, ToUser, false)])
  }

  // ---------------------------------------------------------------- preservation: a thread's step

  /** How a step moves its two cprocs between the queues. */
  lemma LocalListing(k: nat, kt: Kt, a: Cproc, b: Cproc, e: Env)
    requires Ready(k, kt, a, b, e)
    ensures var (kt', a', b') := Local(k, kt, a, b, e);
            && (Own(kt).Some? ==> (a'.at.InReady? <==> a.at.InReady?))
            && (Own(kt).Some? ==> (a'.at.InWait? <==> a.at.InWait? || kt.pc.CondMarked?))
            && (Second(kt, e).Some? ==> (b'.at.InReady? <==> kt.pc.ReadyEnq?))
            && (Second(kt, e).Some? ==> !b.at.InWait? && !b'.at.InWait?)
            && (Second(kt, e).Some? ==> (b.at.InReady? <==> Dequeues(kt.pc)))
  {
    match kt.pc {
      case CondMarked => case CondQueued => case CondUnlocked => case Entering => case Choosing =>
      case Picked => case Taking => case Leaving => case Landed => case Idling => case IdlePicked =>
      case IdleSaved => case IdleReturn => case IdleTaking => case IdleLeaving => case IdleLanded =>
      case Receiving => case Received => case Resuming => case Pooling => case IdleSwitch =>
      case IdleGone => case ReadyTest => case ReadyEnq => case ReadySend =>
    }
  }

  /** The step sees what the invariant says about its two records. */
  lemma RunReady(s: State, k: nat)
    requires Inv(s) && Enabled(s, Run(k))
    ensures var kt := s.kts[k]; var e := EnvOf(s.sh, kt);
            && Ready(k, kt, Rec(s.sh, Own(kt)), Rec(s.sh, Second(kt, e)), e)
            && (Own(kt).Some? ==> Own(kt) != Second(kt, e))
            && Covers(kt, Own(kt), Second(kt, e))
  {
    var kt := s.kts[k];
    assert KtOk(s.sh, k, kt);
    if Dequeues(kt.pc) && s.sh.ready != [] {
      assert s.sh.ready[0] in s.sh.ready;
    }
  }

  /** `t` is the result of the step: two records changed, the lists changed, the thread moved on. */
  predicate Stepped(s: State, k: nat, t: State) {
    && k < |s.kts| && InBounds(s.sh, s.kts[k]) && CanRun(s.sh, s.kts[k])
    && var kt := s.kts[k]; var e := EnvOf(s.sh, kt);
       var (kt', a', b') := Local(k, kt, Rec(s.sh, Own(kt)), Rec(s.sh, Second(kt, e)), e);
       && t.kts == s.kts[k := kt']
       && t.sh == Lists(s.sh, k, kt).(cprocs := t.sh.cprocs)
       && |t.sh.cprocs| == |s.sh.cprocs|
       && (forall q :: 0 <= q < |s.sh.cprocs| && Own(kt) != Some(q) && Second(kt, e) != Some(q) ==>
             t.sh.cprocs[q] == s.sh.cprocs[q])
       && (Own(kt).Some? ==> Rec(t.sh, Own(kt)) == a')
       && (Second(kt, e).Some? ==> Rec(t.sh, Second(kt, e)) == b')
  }

  lemma RunSteps(s: State, k: nat)
    requires Inv(s) && Enabled(s, Run(k))
    ensures Stepped(s, k, Apply(s, Run(k)))
  {
    RunReady(s, k);
  }

  lemma RunMoved(s: State, k: nat, t: State)
    requires Inv(s) && Enabled(s, Run(k)) && Stepped(s, k, t)
    ensures Moved(s, k, t, Own(s.kts[k]), Second(s.kts[k], EnvOf(s.sh, s.kts[k])))
  {
    RunReady(s, k);
    var kt := s.kts[k]; var e := EnvOf(s.sh, kt);
    LocalGood(k, kt, Rec(s.sh, Own(kt)), Rec(s.sh, Second(kt, e)), e);
  }

  // ---------------------------------------------------------------- preservation: queues

  lemma Enqueue(q: seq<nat>, x: nat)
    requires NoDups(q) && x !in q
    ensures NoDups(q + [x]) && NoDups([x] + q)
  {
  }

  /** The ready queue after a step: the head taken, or the cproc in hand put at one end. */
  function ReadyAfter(sh: Sh, kt: Kt): seq<nat>
    requires kt.pc.ReadyEnq? ==> kt.x.Some?
  {
    if Dequeues(kt.pc) && sh.ready != [] then sh.ready[1..]
    else if kt.pc.ReadyEnq? then (if kt.preq then [kt.x.value] + sh.ready else sh.ready + [kt.x.value])
    else sh.ready
  }

  function WaitersAfter(sh: Sh, kt: Kt): seq<nat>
    requires kt.pc.IdleReturn? || kt.pc.Pooling? ==> kt.w.Some?
  {
    if kt.pc.Idling? && sh.waiters != [] then sh.waiters[1..]
    else if kt.pc.IdleReturn? then [kt.w.value] + sh.waiters
    else if kt.pc.Pooling? then sh.waiters + [kt.w.value]
    else sh.waiters
  }

  /** The idle stack a step changes, if any: the one in hand, or one from the pool (or a new one). */
  function IdlerOf(kt: Kt, e: Env): Option<nat> { if kt.pc.Idling? then Some(e.idler) else kt.w }

  function IdlerAfter(k: nat, pc: Pc, i: Idler): Idler {
    match pc
    case Idling => i.(at := RunHand(k))
    case IdleReturn => i.(at := InReady)
    case IdleLeaving => i.(stack := Some(k), at := Nowhere)
    case Pooling => i.(lock := Some(k), at := InReady)
    case IdleSwitch => i.(stack := None)
    case IdleGone => i.(lock := None)
    case _ => i
  }

  /** The queues, the idle stacks and the counters after a step, field by field. */
  predicate ListsFacts(sh: Sh, k: nat, kt: Kt, r: Sh)
    requires InBounds(sh, kt)
  {
    && r.ready == ReadyAfter(sh, kt) && r.waiters == WaitersAfter(sh, kt)
    && r.waitq == (if kt.pc.CondMarked? then sh.waitq + {kt.p.value} else sh.waitq)
    && IdlersFacts(sh, k, kt, r)
  }

  predicate IdlersFacts(sh: Sh, k: nat, kt: Kt, r: Sh)
    requires InBounds(sh, kt)
  {
    var o := IdlerOf(kt, EnvOf(sh, kt));
    && |sh.idlers| <= |r.idlers| <= |sh.idlers| + 1
    && (o.Some? && o.value < |sh.idlers| ==>
          |r.idlers| == |sh.idlers| && r.idlers[o.value] == IdlerAfter(k, kt.pc, sh.idlers[o.value]))
    && (o.Some? && o.value >= |sh.idlers| ==>
          |r.idlers| == |sh.idlers| + 1 && r.idlers[|sh.idlers|] == IdlerAfter(k, kt.pc, NO_IDLER))
    && (o.None? ==> |r.idlers| == |sh.idlers|)
    && (forall w :: 0 <= w < |sh.idlers| && o != Some(w) ==> r.idlers[w] == sh.idlers[w])
  }

  lemma IdlersField(sh: Sh, k: nat, kt: Kt)
    requires InBounds(sh, kt) && CanRun(sh, kt)
    ensures IdlersFacts(sh, k, kt, Lists(sh, k, kt))
  {
    match kt.pc {
      case CondMarked => case CondQueued => case CondUnlocked => case Entering => case Choosing =>
      case Picked => case Taking => case Leaving => case Landed => case Idling => case IdlePicked =>
      case IdleSaved => case IdleReturn => case IdleTaking => case IdleLeaving => case IdleLanded =>
      case Receiving => case Received => case Resuming => case Pooling => case IdleSwitch =>
      case IdleGone => case ReadyTest => case ReadyEnq => case ReadySend =>
    }
  }

  lemma ListsField(sh: Sh, k: nat, kt: Kt)
    requires InBounds(sh, kt) && CanRun(sh, kt)
    ensures ListsFacts(sh, k, kt, Lists(sh, k, kt))
  {
    IdlersField(sh, k, kt);
    match kt.pc {
      case CondMarked => case CondQueued => case CondUnlocked => case Entering => case Choosing =>
      case Picked => case Taking => case Leaving => case Landed => case Idling => case IdlePicked =>
      case IdleSaved => case IdleReturn => case IdleTaking => case IdleLeaving => case IdleLanded =>
      case Receiving => case Received => case Resuming => case Pooling => case IdleSwitch =>
      case IdleGone => case ReadyTest => case ReadyEnq => case ReadySend =>
    }
  }

  /** How the queues change and which cprocs' listings change with them. */
  predicate ReadyMove(sh: Sh, pc: Pc, own: Option<nat>, second: Option<nat>, sh': Sh) {
    && |sh'.cprocs| == |sh.cprocs| && Below(own, |sh.cprocs|) && Below(second, |sh.cprocs|)
    && (own.Some? ==> own != second)
    && (forall q :: 0 <= q < |sh.cprocs| && own != Some(q) && second != Some(q) ==> sh'.cprocs[q] == sh.cprocs[q])
    && (own.Some? ==> (Rec(sh', own).at.InReady? <==> Rec(sh, own).at.InReady?))
    && (own.Some? ==> (Rec(sh', own).at.InWait? <==> Rec(sh, own).at.InWait? || pc.CondMarked?))
    && (second.Some? ==> (Rec(sh', second).at.InReady? <==> pc.ReadyEnq?))
    && (second.Some? ==> !Rec(sh, second).at.InWait? && !Rec(sh', second).at.InWait?)
    && (second.Some? ==> (Rec(sh, second).at.InReady? <==> Dequeues(pc)))
  }

  lemma ReadyListed(sh: Sh, kt: Kt, sh': Sh)
    requires Listed(sh) && InBounds(sh, kt)
    requires ReadyMove(sh, kt.pc, Own(kt), Second(kt, EnvOf(sh, kt)), sh')
    requires sh'.ready == ReadyAfter(sh, kt)
    ensures NoDups(sh'.ready) && (forall q :: q in sh'.ready ==> q < |sh'.cprocs|)
    ensures forall q :: 0 <= q < |sh'.cprocs| ==> (sh'.cprocs[q].at.InReady? <==> q in sh'.ready)
  {
    if Dequeues(kt.pc) && sh.ready != [] {
      Dequeue(sh.ready);
      assert sh.ready[0] in sh.ready;
    } else if kt.pc.ReadyEnq? {
      assert kt.x.value !in sh.ready;
      Enqueue(sh.ready, kt.x.value);
    }
  }

  lemma WaitListed(sh: Sh, kt: Kt, sh': Sh)
    requires Listed(sh) && InBounds(sh, kt)
    requires ReadyMove(sh, kt.pc, Own(kt), Second(kt, EnvOf(sh, kt)), sh')
    requires sh'.waitq == (if kt.pc.CondMarked? then sh.waitq + {kt.p.value} else sh.waitq)
    ensures forall q :: q in sh'.waitq ==> q < |sh'.cprocs|
    ensures forall q :: 0 <= q < |sh'.cprocs| ==> (sh'.cprocs[q].at.InWait? <==> q in sh'.waitq)
  {
  }

  lemma RunReadyMove(s: State, k: nat, t: State)
    requires Inv(s) && Enabled(s, Run(k)) && Stepped(s, k, t)
    ensures ReadyMove(s.sh, s.kts[k].pc, Own(s.kts[k]), Second(s.kts[k], EnvOf(s.sh, s.kts[k])), t.sh)
  {
    RunReady(s, k);
    var kt := s.kts[k]; var e := EnvOf(s.sh, kt);
    LocalListing(k, kt, Rec(s.sh, Own(kt)), Rec(s.sh, Second(kt, e)), e);
  }

  // ---------------------------------------------------------------- preservation: idle stacks

  /** A step's effect on the idle stack it changes. */
  predicate IdlerMove(k: nat, pc: Pc, w: Option<nat>, o: Option<nat>, i: Idler, pc': Pc, w': Option<nat>, i': Idler) {
    && IdlerSane(i')
    && (w'.Some? ==> w' == o && IdlerOk(k, pc', i'))
    && (w'.None? ==> i'.stack != Some(k) && i'.lock != Some(k) && i'.at != RunHand(k))
    && (Theirs(k, i.stack) ==> i'.stack == i.stack) && (Theirs(k, i'.stack) ==> i'.stack == i.stack)
    && (Theirs(k, i.lock) ==>
          i'.lock == i.lock && (i'.at.Nowhere? <==> i.at.Nowhere?) && (i.stack.None? ==> i'.stack.None?))
    && (Theirs(k, i'.lock) ==> i'.lock == i.lock)
    && (Theirs(k, HandOf(i.at)) ==>
          i'.at == i.at && (i'.stack == i.stack || i'.stack.None?) && (i'.lock == i.lock || i'.lock.None?))
    && (Theirs(k, HandOf(i'.at)) ==> i'.at == i.at)
  }

  lemma LocalIdlerGoing(k: nat, kt: Kt, a: Cproc, b: Cproc, e: Env, i: Idler)
    requires Willing(kt.pc, a, b) && Registers(kt) && IdleSide(kt.pc) && OnCproc(kt)
    requires IdlerSane(i) && (kt.w.Some? ==> IdlerOk(k, kt.pc, i))
    requires kt.pc.Idling? ==> i.at.InReady? && i.stack != Some(k) && i.lock != Some(k)
    requires kt.pc.IdleTaking? ==> i.lock.None?
    ensures var kt' := Local(k, kt, a, b, e).0;
            IdlerMove(k, kt.pc, kt.w, IdlerOf(kt, e), i, kt'.pc, kt'.w, IdlerAfter(k, kt.pc, i))
  {
    match kt.pc {
      case Idling => case IdlePicked => case IdleSaved => case IdleReturn => case IdleTaking =>
      case IdleLeaving => case IdleGone =>
    }
  }

  lemma LocalIdlerIdle(k: nat, kt: Kt, a: Cproc, b: Cproc, e: Env, i: Idler)
    requires Willing(kt.pc, a, b) && Registers(kt) && IdleSide(kt.pc) && !OnCproc(kt)
    requires IdlerSane(i) && IdlerOk(k, kt.pc, i)
    ensures var kt' := Local(k, kt, a, b, e).0;
            IdlerMove(k, kt.pc, kt.w, IdlerOf(kt, e), i, kt'.pc, kt'.w, IdlerAfter(k, kt.pc, i))
  {
    match kt.pc {
      case IdleLanded => case Receiving => case Received => case Resuming => case Pooling => case IdleSwitch =>
    }
  }

  /** A move of `k` disturbs no other thread's idle stack. */
  lemma OtherIdler(k: nat, kt: Kt, i: Idler, kt': Kt, o: Option<nat>, i': Idler, j: nat, pc: Pc)
    requires j != k && HasIdler(pc) && IdlerOk(j, pc, i)
    requires IdlerMove(k, kt.pc, kt.w, o, i, kt'.pc, kt'.w, i')
    requires IdlerSane(i) && (kt.pc.Idling? ==> i.at.InReady?)
             && (!kt.pc.Idling? ==> HasIdler(kt.pc) && IdlerOk(k, kt.pc, i))
    ensures IdlerOk(j, pc, i')
  {
  }

  /** The idle stack a step is about to change, as the invariant describes it. */
  function IdlerRec(sh: Sh, o: Option<nat>): Idler
  {
    if o.Some? && o.value < |sh.idlers| then sh.idlers[o.value] else NO_IDLER
  }

  lemma RunIdlerMove(s: State, k: nat, t: State)
    requires Inv(s) && Enabled(s, Run(k)) && Stepped(s, k, t)
    ensures var kt, kt' := s.kts[k], t.kts[k]; var o := IdlerOf(kt, EnvOf(s.sh, kt)); var i := IdlerRec(s.sh, o);
            && (o.None? ==> kt'.w.None?)
            && (o.Some? ==>
                  o.value < |t.sh.idlers| && IdlerMove(k, kt.pc, kt.w, o, i, kt'.pc, kt'.w, t.sh.idlers[o.value]))
  {
    var kt := s.kts[k]; var e := EnvOf(s.sh, kt);
    var o := IdlerOf(kt, e); var i := IdlerRec(s.sh, o);
    var a, b := Rec(s.sh, Own(kt)), Rec(s.sh, Second(kt, e));
    ListsField(s.sh, k, kt);
    assert KtOk(s.sh, k, kt);
    if !IdleSide(kt.pc) {
      LocalRegistersBusy(k, kt, a, b, e);
      NoIdlerBusy(k, kt, a, b, e);
    } else if OnCproc(kt) {
      if kt.pc.Idling? && s.sh.waiters != [] { assert s.sh.waiters[0] in s.sh.waiters; }
      LocalIdlerGoing(k, kt, a, b, e, i);
    } else {
      LocalIdlerIdle(k, kt, a, b, e, i);
    }
  }

  lemma NoIdlerBusy(k: nat, kt: Kt, a: Cproc, b: Cproc, e: Env)
    requires Willing(kt.pc, a, b) && Registers(kt) && !IdleSide(kt.pc)
    ensures Local(k, kt, a, b, e).0.w == None
  {
    match kt.pc {
      case CondMarked => case CondQueued => case CondUnlocked => case Entering => case Choosing =>
      case Picked => case Taking => case Leaving => case Landed => case ReadyTest =>
      case ReadyEnq => case ReadySend =>
    }
  }

  /** `t` is `s` after a step of `k` that changes at most the idle stack `o`. */
  predicate IdlersMoved(s: State, k: nat, t: State, o: Option<nat>) {
    && k < |s.kts| == |t.kts| && t.kts == s.kts[k := t.kts[k]]
    && |s.sh.idlers| <= |t.sh.idlers| <= |s.sh.idlers| + 1
    && (|t.sh.idlers| > |s.sh.idlers| ==> o == Some(|s.sh.idlers|) && s.kts[k].pc.Idling?)
    && (forall w :: 0 <= w < |s.sh.idlers| && o != Some(w) ==> t.sh.idlers[w] == s.sh.idlers[w])
    && (forall j :: 0 <= j < |s.kts| ==> Registers(s.kts[j]) && Registers(t.kts[j]))
    && var kt, kt' := s.kts[k], t.kts[k]; var i := IdlerRec(s.sh, o);
       && o == (if kt.pc.Idling? then o else kt.w)
       && (o.None? ==> kt'.w.None?)
       && (kt.pc.Idling? ==> i.at.InReady?)
       && (o.Some? ==> o.value < |t.sh.idlers| && IdlerMove(k, kt.pc, kt.w, o, i, kt'.pc, kt'.w, t.sh.idlers[o.value]))
  }

  lemma IdlersMovedStack(s: State, k: nat, t: State, o: Option<nat>, w: nat)
    requires IdlersLinked(s) && IdlersMoved(s, k, t, o) && w < |t.sh.idlers|
    ensures IdlerSane(t.sh.idlers[w]) && IdlerPoints(t.kts, w, t.sh.idlers[w])
  {
    if w < |s.sh.idlers| {
      assert IdlerSane(s.sh.idlers[w]) && IdlerPoints(s.kts, w, s.sh.idlers[w]);
    }
  }

  lemma IdlersMovedOther(s: State, k: nat, t: State, o: Option<nat>, j: nat)
    requires IdlersLinked(s) && IdlersMoved(s, k, t, o) && j < |t.kts| && j != k && t.kts[j].w.Some?
    ensures t.kts[j].w.value < |t.sh.idlers| && IdlerOk(j, t.kts[j].pc, t.sh.idlers[t.kts[j].w.value])
  {
    if o == t.kts[j].w {
      OtherIdler(k, s.kts[k], IdlerRec(s.sh, o), t.kts[k], o, t.sh.idlers[o.value], j, s.kts[j].pc);
    }
  }

  lemma IdlersMovedLinked(s: State, k: nat, t: State, o: Option<nat>)
    requires IdlersLinked(s) && IdlersMoved(s, k, t, o)
    ensures IdlersLinked(t)
  {
    forall w | 0 <= w < |t.sh.idlers| ensures IdlerSane(t.sh.idlers[w]) && IdlerPoints(t.kts, w, t.sh.idlers[w]) {
      IdlersMovedStack(s, k, t, o, w);
    }
    forall j | 0 <= j < |t.kts| && t.kts[j].w.Some?
      ensures t.kts[j].w.value < |t.sh.idlers| && IdlerOk(j, t.kts[j].pc, t.sh.idlers[t.kts[j].w.value])
    {
      if j != k { IdlersMovedOther(s, k, t, o, j); }
    }
  }

  lemma WaitersListed(sh: Sh, k: nat, kt: Kt, sh': Sh)
    requires Listed(sh) && InBounds(sh, kt)
    requires ListsFacts(sh, k, kt, sh')
    requires kt.pc.IdleReturn? || kt.pc.Pooling? || kt.pc.IdleLeaving? ==> !sh.idlers[kt.w.value].at.InReady?
    ensures NoDups(sh'.waiters) && (forall w :: w in sh'.waiters ==> w < |sh'.idlers|)
    ensures forall w :: 0 <= w < |sh'.idlers| ==> (sh'.idlers[w].at.InReady? <==> w in sh'.waiters)
  {
    if kt.pc.Idling? && sh.waiters != [] {
      Dequeue(sh.waiters);
      assert sh.waiters[0] in sh.waiters;
    } else if kt.pc.IdleReturn? || kt.pc.Pooling? {
      assert kt.w.value !in sh.waiters;
      Enqueue(sh.waiters, kt.w.value);
    }
  }

  lemma RunLists(s: State, k: nat, t: State)
    requires Inv(s) && Enabled(s, Run(k)) && Stepped(s, k, t)
    ensures Listed(t.sh)
  {
    var kt := s.kts[k];
    ListsField(s.sh, k, kt);
    RunReadyMove(s, k, t);
    ReadyListed(s.sh, kt, t.sh);
    WaitListed(s.sh, kt, t.sh);
    WaitersListed(s.sh, k, kt, t.sh);
  }

  lemma RunBounds(s: State, k: nat, t: State)
    requires Inv(s) && Enabled(s, Run(k)) && Stepped(s, k, t)
    ensures forall j :: 0 <= j < |t.kts| ==> InBounds(t.sh, t.kts[j])
  {
    RunLists(s, k, t);
    RunMoved(s, k, t);
    RunIdlerMove(s, k, t);
    MovedBounds(s, k, t, Own(s.kts[k]), Second(s.kts[k], EnvOf(s.sh, s.kts[k])));
  }

  lemma RunLinked(s: State, k: nat, t: State)
    requires Inv(s) && Enabled(s, Run(k)) && Stepped(s, k, t)
    ensures Linked(t) && IdlersLinked(t)
  {
    RunBounds(s, k, t);
    RunMoved(s, k, t);
    MovedLinked(s, k, t, Own(s.kts[k]), Second(s.kts[k], EnvOf(s.sh, s.kts[k])));
    RunIdlers(s, k, t);
  }

  lemma RunIdlers(s: State, k: nat, t: State)
    requires Inv(s) && Enabled(s, Run(k)) && Stepped(s, k, t)
    requires forall j :: 0 <= j < |t.kts| ==> InBounds(t.sh, t.kts[j])
    ensures IdlersLinked(t)
  {
    var kt := s.kts[k];
    var o := IdlerOf(kt, EnvOf(s.sh, kt));
    RunIdlerMove(s, k, t);
    ListsField(s.sh, k, kt);
    forall j | 0 <= j < |s.kts| ensures Registers(s.kts[j]) && Registers(t.kts[j]) {
      assert KtOk(s.sh, j, s.kts[j]);
      assert InBounds(t.sh, t.kts[j]);
    }
    if kt.pc.Idling? && s.sh.waiters != [] { assert s.sh.waiters[0] in s.sh.waiters; }
    IdlersMovedLinked(s, k, t, o);
  }

  // ---------------------------------------------------------------- preservation: counters

  lemma CountUpdate(kts: seq<Kt>, k: nat, kt: Kt)
    requires k < |kts|
    ensures |Waiting(kts[k := kt])| + Bit(Waits(kts[k].pc)) == |Waiting(kts)| + Bit(Waits(kt.pc))
    ensures |Flying(kts[k := kt])| + Bit(InFlight(kts[k].pc)) == |Flying(kts)| + Bit(InFlight(kt.pc))
  {
    var kts' := kts[k := kt];
    assert Waiting(kts') - {k} == Waiting(kts) - {k};
    assert Flying(kts') - {k} == Flying(kts) - {k};
    CardWithout(Waiting(kts), k); CardWithout(Waiting(kts'), k);
    CardWithout(Flying(kts), k); CardWithout(Flying(kts'), k);
  }

  predicate Idle(kt: Kt) { Waits(kt.pc) || IsOutside(kt) }

  /** By how much a step changes the tokens. */
  function TokenDelta(sh: Sh, kt: Kt, sh': Sh, kt': Kt): int {
    sh'.tokens + Bit(InFlight(kt'.pc)) - sh.tokens - Bit(InFlight(kt.pc))
  }

  /** What a step does to the counters, the tokens and the ready queue; and why a step that leaves
      its thread idle or outside strands no ready cproc. */
  predicate CountsOk(sh: Sh, kt: Kt, sh': Sh, kt': Kt, delta: int) {
    && sh'.readyCount - |sh'.ready| + delta == sh.readyCount - |sh.ready|
    && sh'.waitCount - Bit(Waits(kt'.pc)) + delta == sh.waitCount - Bit(Waits(kt.pc))
    && (IsOutside(kt') <==> IsOutside(kt))
    && (Idle(kt') && !Idle(kt) ==> sh'.ready == [])
    && (Idle(kt') && sh'.ready != [] ==> delta >= 0)
    && (Idle(kt') && sh'.ready != [] && sh.ready == [] ==> delta > 0 || sh'.readyCount <= 0 || sh'.waitCount == 0)
  }

  /** How a step changes what its thread counts as. */
  predicate KindMove(kt: Kt, e: Env, kt': Kt) {
    && (Waits(kt'.pc) <==>
          (kt.pc.Choosing? && e.head.None?)
            || (Waits(kt.pc) && !kt.pc.IdleSaved? && !(kt.pc.Received? && e.head.Some?)))
    && (InFlight(kt'.pc) <==> kt.pc.Receiving? || (kt.pc.ReadyEnq? && e.send))
    && (IsOutside(kt') <==> IsOutside(kt))
  }

  lemma LocalKindBusy(k: nat, kt: Kt, a: Cproc, b: Cproc, e: Env)
    requires Willing(kt.pc, a, b) && !IdleSide(kt.pc)
    ensures KindMove(kt, e, Local(k, kt, a, b, e).0)
  {
    match kt.pc {
      case CondMarked => case CondQueued => case CondUnlocked => case Entering => case Choosing =>
      case Picked => case Taking => case Leaving => case Landed =>
      case ReadyTest => case ReadyEnq => case ReadySend =>
    }
  }

  lemma LocalKindIdle(k: nat, kt: Kt, a: Cproc, b: Cproc, e: Env)
    requires Willing(kt.pc, a, b) && IdleSide(kt.pc)
    ensures KindMove(kt, e, Local(k, kt, a, b, e).0)
  {
    match kt.pc {
      case Idling => case IdlePicked => case IdleSaved => case IdleReturn => case IdleTaking =>
      case IdleLeaving => case IdleLanded => case Receiving => case Received => case Resuming =>
      case Pooling => case IdleSwitch => case IdleGone =>
    }
  }

  predicate CountersMove(sh: Sh, kt: Kt, e: Env, r: Sh) {
    var none := sh.ready == [];
    && r.tokens == sh.tokens - Bit(kt.pc.Receiving?) + Bit(kt.pc.ReadySend?)
    && r.waitCount == sh.waitCount + Bit(Dequeues(kt.pc) && none) - Bit(kt.pc.IdleSaved?)
                      - Bit(kt.pc.ReadyEnq? && e.send)
    && r.readyCount == sh.readyCount - Bit(kt.pc.Choosing? && !none) + Bit(kt.pc.Received? && none)
                       + Bit(kt.pc.ReadyEnq? && !e.send)
  }

  lemma ListsCounts(sh: Sh, k: nat, kt: Kt)
    requires InBounds(sh, kt) && CanRun(sh, kt)
    ensures CountersMove(sh, kt, EnvOf(sh, kt), Lists(sh, k, kt))
  {
    match kt.pc {
      case CondMarked => case CondQueued => case CondUnlocked => case Entering => case Choosing =>
      case Picked => case Taking => case Leaving => case Landed => case Idling => case IdlePicked =>
      case IdleSaved => case IdleReturn => case IdleTaking => case IdleLeaving => case IdleLanded =>
      case Receiving => case Received => case Resuming => case Pooling => case IdleSwitch =>
      case IdleGone => case ReadyTest => case ReadyEnq => case ReadySend =>
    }
  }

  lemma CountsMove(sh: Sh, kt: Kt, e: Env, r: Sh, kt': Kt)
    requires kt.pc.ReadyEnq? ==> kt.x.Some?
    requires KindMove(kt, e, kt') && CountersMove(sh, kt, e, r) && r.ready == ReadyAfter(sh, kt)
    requires e.head.None? <==> sh.ready == []
    requires kt.pc.ReadyEnq? && IsOutside(kt) && !e.send ==> sh.readyCount + 1 <= 0 || sh.waitCount == 0
    ensures CountsOk(sh, kt, r, kt', TokenDelta(sh, kt, r, kt'))
  {
  }

  lemma CountsKept(s: State, k: nat, t: State)
    requires Accounting(s) && NoStall(s) && k < |s.kts| == |t.kts| && t.kts == s.kts[k := t.kts[k]]
    requires CountsOk(s.sh, s.kts[k], t.sh, t.kts[k], TokenDelta(s.sh, s.kts[k], t.sh, t.kts[k]))
    ensures Accounting(t) && NoStall(t)
  {
    CountUpdate(s.kts, k, t.kts[k]);
    if NobodyActive(t.kts) && t.sh.ready != [] {
      assert Idle(t.kts[k]);
      forall j | 0 <= j < |s.kts| ensures Idle(s.kts[j]) {
        assert j != k ==> s.kts[j] == t.kts[j] && (Waits(t.kts[j].pc) || IsOutside(t.kts[j]));
      }
      assert NobodyActive(s.kts);
      assert Waits(t.kts[0].pc) && 0 in Waiting(t.kts);
    }
  }

  lemma RunCounts(s: State, k: nat, t: State)
    requires Inv(s) && Stepped(s, k, t)
    ensures Accounting(t) && NoStall(t)
  {
    var kt := s.kts[k];
    var e := EnvOf(s.sh, kt);
    var a, b := Rec(s.sh, Own(kt)), Rec(s.sh, Second(kt, e));
    if IdleSide(kt.pc) { LocalKindIdle(k, kt, a, b, e); } else { LocalKindBusy(k, kt, a, b, e); }
    ListsCounts(s.sh, k, kt);
    ListsField(s.sh, k, kt);
    CountsMove(s.sh, kt, e, t.sh, t.kts[k]);
    CountsKept(s, k, t);
  }

  lemma RunKeepsInv(s: State, k: nat)
    requires Inv(s) && Enabled(s, Run(k))
    ensures Inv(Apply(s, Run(k)))
  {
    var t := Apply(s, Run(k));
    RunSteps(s, k);
    RunLinked(s, k, t);
    RunLists(s, k, t);
    RunCounts(s, k, t);
  }

  // ---------------------------------------------------------------- preservation: user code

  /** `t` is the result of user code starting `act`. */
  predicate Began(s: State, k: nat, act: Act, x: Option<nat>, t: State) {
    && Enabled(s, Do(k, act, x))
    && var kt := s.kts[k];
       var (kt', a', b') := Begin(k, kt, act, Rec(s.sh, kt.p), Rec(s.sh, x), x);
       && t.kts == s.kts[k := kt']
       && t.sh == DoLists(s.sh, kt, act, x).(cprocs := t.sh.cprocs)
       && |t.sh.cprocs| == |s.sh.cprocs|
       && (forall q :: 0 <= q < |s.sh.cprocs| && kt.p != Some(q) && x != Some(q) ==> t.sh.cprocs[q] == s.sh.cprocs[q])
       && (kt.p.Some? ==> Rec(t.sh, kt.p) == a')
       && (x.Some? ==> Rec(t.sh, x) == b')
  }

  lemma DoBegins(s: State, k: nat, act: Act, x: Option<nat>)
    requires Enabled(s, Do(k, act, x)) && KtOk(s.sh, k, s.kts[k])
    ensures Began(s, k, act, x, Apply(s, Do(k, act, x)))
    ensures x.Some? ==> x != s.kts[k].p
  {
    match act { case ActQueue => case ActCond => case ActWake => case ActYield => }
  }

  lemma DoMoved(s: State, k: nat, act: Act, x: Option<nat>, t: State)
    requires Inv(s) && Began(s, k, act, x, t) && (x.Some? ==> x != s.kts[k].p)
    ensures Moved(s, k, t, s.kts[k].p, x)
  {
    var kt := s.kts[k];
    assert KtOk(s.sh, k, kt);
    assert kt.p.Some? || x.Some?;
    BeginGood(k, kt, act, Rec(s.sh, kt.p), Rec(s.sh, x), x);
  }

  /** What starting `act` does to the listing of the caller's cproc and of `x`. */
  predicate DoListing(act: Act, a: Cproc, b: Cproc, a': Cproc, b': Cproc) {
    match act
    case ActQueue => a.at.Nowhere? && a'.at.InWait?
    case ActCond => a'.at == a.at
    case ActWake => a'.at == a.at && b.at.InWait? && b'.at.WakeHand?
    case ActYield => a.at.Nowhere? && a'.at.InReady? && b.at.InReady? && b'.at.RunHand?
  }

  lemma DoListed(sh: Sh, kt: Kt, act: Act, x: Option<nat>, sh': Sh)
    requires Listed(sh) && |sh'.cprocs| == |sh.cprocs| && Below(kt.p, |sh.cprocs|) && Below(x, |sh.cprocs|)
    requires (kt.p.Some? ==> x != kt.p) && (!act.ActWake? ==> kt.p.Some?)
             && (x.Some? <==> act.ActWake? || act.ActYield?)
    requires act.ActYield? ==> sh.ready != [] && x == Some(sh.ready[0])
    requires sh' == DoLists(sh, kt, act, x).(cprocs := sh'.cprocs)
    requires forall q :: 0 <= q < |sh.cprocs| && kt.p != Some(q) && x != Some(q) ==> sh'.cprocs[q] == sh.cprocs[q]
    requires kt.p.Some? ==> DoListing(act, Rec(sh, kt.p), Rec(sh, x), Rec(sh', kt.p), Rec(sh', x))
    requires kt.p.None? ==> Rec(sh, x).at.InWait? && Rec(sh', x).at.WakeHand?
    ensures Listed(sh')
  {
    if act.ActYield? {
      Dequeue(sh.ready);
      assert kt.p.value !in sh.ready;
      Enqueue(sh.ready[1..], kt.p.value);
    }
  }

  /** Starting an action leaves the idle stacks and the counters alone. */
  lemma BeganFacts(s: State, k: nat, act: Act, x: Option<nat>, t: State)
    requires Began(s, k, act, x, t)
    ensures var kt, kt' := s.kts[k], t.kts[k];
            && kt.w.None? && kt'.w.None? && t.kts == s.kts[k := kt']
            && t.sh.idlers == s.sh.idlers
            && CountsOk(s.sh, kt, t.sh, kt', 0) && TokenDelta(s.sh, kt, t.sh, kt') == 0
  {
    match act { case ActQueue => case ActCond => case ActWake => case ActYield => }
  }

  lemma IdlersKept(s: State, k: nat, t: State)
    requires IdlersLinked(s) && k < |s.kts| == |t.kts| && t.kts == s.kts[k := t.kts[k]]
    requires s.kts[k].w.None? && t.kts[k].w.None? && t.sh.idlers == s.sh.idlers
    ensures IdlersLinked(t)
  {
    forall w | 0 <= w < |t.sh.idlers| ensures IdlerPoints(t.kts, w, t.sh.idlers[w]) {
      assert IdlerPoints(s.kts, w, s.sh.idlers[w]);
    }
  }

  lemma MovedBounds(s: State, k: nat, t: State, own: Option<nat>, second: Option<nat>)
    requires Linked(s) && Listed(t.sh) && Moved(s, k, t, own, second)
    requires |s.sh.idlers| <= |t.sh.idlers| && Below(t.kts[k].w, |t.sh.idlers|)
    ensures forall j :: 0 <= j < |t.kts| ==> InBounds(t.sh, t.kts[j])
  {
    if t.sh.ready != [] { assert t.sh.ready[0] in t.sh.ready; }
    if t.sh.waiters != [] { assert t.sh.waiters[0] in t.sh.waiters; }
    forall j | 0 <= j < |t.kts| ensures InBounds(t.sh, t.kts[j]) {
      assert KtOk(s.sh, j, s.kts[j]);
    }
  }

  lemma DoKeepsInv(s: State, k: nat, act: Act, x: Option<nat>)
    requires Inv(s) && Enabled(s, Do(k, act, x))
    ensures Inv(Apply(s, Do(k, act, x)))
  {
    var t := Apply(s, Do(k, act, x));
    assert KtOk(s.sh, k, s.kts[k]);
    DoBegins(s, k, act, x);
    assert KtOk(s.sh, k, s.kts[k]);
    DoListed(s.sh, s.kts[k], act, x, t.sh);
    BeganFacts(s, k, act, x, t);
    IdlersKept(s, k, t);
    CountsKept(s, k, t);
    DoMoved(s, k, act, x, t);
    MovedBounds(s, k, t, s.kts[k].p, x);
    MovedLinked(s, k, t, s.kts[k].p, x);
  }

  // ---------------------------------------------------------------- preservation: creating cthreads

  /** Appending a cproc that names no other thread disturbs nobody. */
  lemma GrownKtOk(sh: Sh, sh': Sh, j: nat, kt: Kt, c: Cproc)
    requires KtOk(sh, j, kt) && sh' == sh.(cprocs := sh.cprocs + [c])
    ensures KtOk(sh', j, kt)
  {
  }

  lemma GrownListed(sh: Sh, sh': Sh, c: Cproc)
    requires Listed(sh) && sh' == sh.(cprocs := sh.cprocs + [c]) && !c.at.InReady? && !c.at.InWait?
    ensures Listed(sh')
  {
  }

  lemma GrownPoints(kts: seq<Kt>, kts': seq<Kt>, q: nat, c: Cproc)
    requires Points(kts, q, c) && |kts| <= |kts'|
    requires forall j :: 0 <= j < |kts| ==> kts'[j].p == kts[j].p && Locks(kts'[j]) == Locks(kts[j])
    requires forall j :: 0 <= j < |kts| ==> kts'[j].x == kts[j].x || kts[j].x.None?
    ensures Points(kts', q, c)
  {
  }

  predicate Created(s: State, k: nat, t: State) {
    && k < |s.kts| && s.kts[k].pc.User?
    && t.sh == s.sh.(cprocs := s.sh.cprocs + [Cproc(Blocked, None, None, WakeHand(k))])
    && t.kts == s.kts[k := s.kts[k].(pc := ReadyTest, x := Some(|s.sh.cprocs|), ret := ToUser, preq := false)]
  }

  lemma CreatorOk(sh: Sh, sh': Sh, k: nat, kt: Kt, kt': Kt)
    requires KtOk(sh, k, kt) && kt.pc.User?
             && sh' == sh.(cprocs := sh.cprocs + [Cproc(Blocked, None, None, WakeHand(k))])
    requires kt' == kt.(pc := ReadyTest, x := Some(|sh.cprocs|), ret := ToUser, preq := false)
    ensures KtOk(sh', k, kt')
  {
  }

  lemma CreateLinked(s: State, k: nat, t: State)
    requires Linked(s) && Created(s, k, t)
    ensures Linked(t)
  {
    var n := |s.sh.cprocs|;
    forall j | 0 <= j < |t.kts| ensures KtOk(t.sh, j, t.kts[j]) {
      if j == k { CreatorOk(s.sh, t.sh, k, s.kts[k], t.kts[k]); }
      else { GrownKtOk(s.sh, t.sh, j, s.kts[j], t.sh.cprocs[n]); }
    }
    assert KtOk(s.sh, k, s.kts[k]);
    forall q | 0 <= q < |t.sh.cprocs| ensures Sane(t.sh.cprocs[q]) && Points(t.kts, q, t.sh.cprocs[q]) {
      if q < n { GrownPoints(s.kts, t.kts, q, s.sh.cprocs[q]); }
    }
  }

  lemma CreateKeepsInv(s: State, k: nat, t: State)
    requires Inv(s) && Created(s, k, t)
    ensures Inv(t)
  {
    assert KtOk(s.sh, k, s.kts[k]);
    CreateLinked(s, k, t);
    GrownListed(s.sh, t.sh, t.sh.cprocs[|s.sh.cprocs|]);
    IdlersKept(s, k, t);
    CountsKept(s, k, t);
  }

  predicate Spawned(s: State, t: State) {
    && t.sh == s.sh.(cprocs := s.sh.cprocs + [Cproc(Running, None, Some(|s.kts|), Nowhere)])
    && t.kts == s.kts + [Kt(User, Some(|s.sh.cprocs|), None, None, None, ToUser, false)]
  }

  lemma SpawnLinked(s: State, t: State)
    requires Linked(s) && |s.kts| > 0 && Spawned(s, t)
    ensures Linked(t)
  {
    var n := |s.sh.cprocs|;
    forall j | 0 <= j < |t.kts| ensures KtOk(t.sh, j, t.kts[j]) {
      assert KtOk(s.sh, 0, s.kts[0]);
      if j < |s.kts| { GrownKtOk(s.sh, t.sh, j, s.kts[j], t.sh.cprocs[n]); }
    }
    forall q | 0 <= q < |t.sh.cprocs| ensures Sane(t.sh.cprocs[q]) && Points(t.kts, q, t.sh.cprocs[q]) {
      if q < n { GrownPoints(s.kts, t.kts, q, s.sh.cprocs[q]); }
    }
  }

  lemma SpawnCounts(s: State, t: State)
    requires IdlersLinked(s) && Accounting(s) && NoStall(s) && Spawned(s, t)
    ensures IdlersLinked(t) && Accounting(t) && NoStall(t)
  {
    forall w | 0 <= w < |t.sh.idlers| ensures IdlerPoints(t.kts, w, t.sh.idlers[w]) {
      assert IdlerPoints(s.kts, w, s.sh.idlers[w]);
    }
    assert Waiting(t.kts) == Waiting(s.kts) && Flying(t.kts) == Flying(s.kts);
    assert !Waits(t.kts[|s.kts|].pc) && !IsOutside(t.kts[|s.kts|]);
  }

  lemma SpawnKeepsInv(s: State, t: State)
    requires Inv(s) && Spawned(s, t)
    ensures Inv(t)
  {
    SpawnLinked(s, t);
    SpawnCounts(s, t);
    GrownListed(s.sh, t.sh, t.sh.cprocs[|s.sh.cprocs|]);
  }

  /** Every step of every kernel thread and every user action keeps the invariant. */
  lemma StepKeepsInv(s: State, a: Action)
    requires Inv(s) && Enabled(s, a)
    ensures Inv(Apply(s, a))
  {
    match a {
      case Run(k) => RunKeepsInv(s, k);
      case Do(k, act, x) => DoKeepsInv(s, k, act, x);
      case Create(k) => CreateKeepsInv(s, k, Apply(s, a));
      case Spawn => SpawnKeepsInv(s, Apply(s, a));
    }
  }

  // ---------------------------------------------------------------- whole runs

  /** One kernel thread running the initial cthread, and any number of wired ones. */
  predicate Start(s: State) {
    && s.sh == Sh([], 0, 0, 0, [], {}, [Cproc(Running, None, Some(0), Nowhere)], [])
    && |s.kts| > 0 && s.kts[0] == Kt(User, Some(0), None, None, None, ToUser, false)
    && forall k :: 1 <= k < |s.kts| ==> s.kts[k] == Kt(Wired, None, None, None, None, ToWired, false)
  }

  lemma StartInv(s: State)
    requires Start(s)
    ensures Inv(s)
  {
    assert Waiting(s.kts) == {} && Flying(s.kts) == {};
  }

  predicate Follows(s: State, a: Action, t: State) { Enabled(s, a) && t == Apply(s, a) }

  predicate IsRun(run: seq<State>, acts: seq<Action>) {
    && |run| == |acts| + 1 && Start(run[0])
    && forall i :: 0 <= i < |acts| ==> Follows(run[i], acts[i], run[i + 1])
  }

  lemma {:induction false} RunInv(run: seq<State>, acts: seq<Action>, i: nat)
    requires IsRun(run, acts) && i < |run|
    ensures Inv(run[i])
  {
    if i == 0 {
      StartInv(run[0]);
    } else {
      RunInv(run, acts, i - 1);
      assert Follows(run[i - 1], acts[i - 1], run[i]);
      NextInv(run[i - 1], acts[i - 1], run[i]);
    }
  }

  lemma NextInv(s: State, a: Action, t: State)
    requires Inv(s) && Follows(s, a, t)
    ensures Inv(t)
  {
    StepKeepsInv(s, a);
  }

  function OnStack(s: State, q: nat): set<nat> { set k: nat | k < |s.kts| && s.kts[k].p == Some(q) }

  function InHands(s: State, q: nat): set<nat> { set k: nat | k < |s.kts| && s.kts[k].x == Some(q) }

  /** In how many places a cproc is listed: the ready queue, a wait queue, a kernel thread's hand. */
  function Listings(s: State, q: nat): nat { Bit(q in s.sh.ready) + Bit(q in s.sh.waitq) + |InHands(s, q)| }

  lemma AtMostOne(s: set<nat>, k: nat)
    requires forall j :: j in s ==> j == k
    ensures |s| == Bit(k in s)
  {
    if k in s { assert s == {k}; } else { assert s == {}; }
  }

  lemma HandsCount(s: State, q: nat)
    requires Linked(s) && q < |s.sh.cprocs|
    ensures |InHands(s, q)| == Bit(HandOf(s.sh.cprocs[q].at).Some?)
    ensures |OnStack(s, q)| == Bit(s.sh.cprocs[q].run.Some?)
  {
    var c := s.sh.cprocs[q];
    assert Points(s.kts, q, c);
    forall j | j in InHands(s, q) ensures HandOf(c.at) == Some(j) { assert KtOk(s.sh, j, s.kts[j]); }
    forall j | j in OnStack(s, q) ensures c.run == Some(j) { assert KtOk(s.sh, j, s.kts[j]); }
    AtMostOne(InHands(s, q), if HandOf(c.at).Some? then HandOf(c.at).value else 0);
    AtMostOne(OnStack(s, q), if c.run.Some? then c.run.value else 0);
  }

  /** In every state of every run, at most one kernel thread is on a cproc's stack, a cproc is listed
      at most once, and one that nobody runs is listed exactly once: none is lost, none is doubled. */
  lemma ExactlyOnePlace(run: seq<State>, acts: seq<Action>, i: nat, q: nat)
    requires IsRun(run, acts) && i < |run| && q < |run[i].sh.cprocs|
    ensures NoDups(run[i].sh.ready)
    ensures |OnStack(run[i], q)| <= 1 && Listings(run[i], q) <= 1
    ensures |OnStack(run[i], q)| == 0 ==> Listings(run[i], q) == 1
  {
    RunInv(run, acts, i);
    HandsCount(run[i], q);
  }

  /** A cproc that runs user code is RUNNING and listed nowhere. */
  lemma RunnersUnlisted(run: seq<State>, acts: seq<Action>, i: nat, k: nat)
    requires IsRun(run, acts) && i < |run| && k < |run[i].kts| && run[i].kts[k].pc.User?
    ensures var s := run[i]; var p := s.kts[k].p;
            p.Some? && p.value < |s.sh.cprocs| && s.sh.cprocs[p.value].st.Running? && Listings(s, p.value) == 0
  {
    var s := run[i];
    RunInv(run, acts, i);
    assert KtOk(s.sh, k, s.kts[k]);
    HandsCount(s, s.kts[k].p.value);
  }

  lemma RunnerBlocked(k: nat, kt: Kt, c: Cproc)
    requires Registers(kt) && kt.p.Some? && RunnerOk(k, kt, c) && c.st.Blocked?
    ensures !c.at.Nowhere?
  {
  }

  lemma BlockedListed(s: State, q: nat)
    requires Linked(s) && q < |s.sh.cprocs| && s.sh.cprocs[q].st.Blocked?
    ensures !s.sh.cprocs[q].at.Nowhere?
  {
    var c := s.sh.cprocs[q];
    assert Sane(c) && Points(s.kts, q, c);
    if c.run.Some? {
      var k := c.run.value;
      assert KtOk(s.sh, k, s.kts[k]);
      RunnerBlocked(k, s.kts[k], c);
    }
  }

  /** A cproc marked BLOCKED is always on a queue or in a kernel thread's hand: no wakeup is lost. */
  lemma BlockedIsListed(run: seq<State>, acts: seq<Action>, i: nat, q: nat)
    requires IsRun(run, acts) && i < |run| && q < |run[i].sh.cprocs| && run[i].sh.cprocs[q].st.Blocked?
    ensures Listings(run[i], q) == 1
  {
    var s := run[i];
    RunInv(run, acts, i);
    HandsCount(s, q);
    BlockedListed(s, q);
  }

  lemma LocalLoads(k: nat, kt: Kt, a: Cproc, b: Cproc, e: Env)
    requires Willing(kt.pc, a, b)
    ensures var kt' := Local(k, kt, a, b, e).0;
            kt'.p.Some? && kt'.p != kt.p ==> (kt.pc.Leaving? || kt.pc.IdleSwitch?) && kt'.p == kt.x
  {
    match kt.pc {
      case CondMarked => case CondQueued => case CondUnlocked => case Entering => case Choosing =>
      case Picked => case Taking => case Leaving => case Landed => case Idling => case IdlePicked =>
      case IdleSaved => case IdleReturn => case IdleTaking => case IdleLeaving => case IdleLanded =>
      case Receiving => case Received => case Resuming => case Pooling => case IdleSwitch =>
      case IdleGone => case ReadyTest => case ReadyEnq => case ReadySend =>
    }
  }

  /** cproc_switch loads the context of a cproc only once nobody is on its stack any more, and only
      if the thread that loads it is the one that took it off the ready queue. */
  lemma SwitchesToSavedContexts(run: seq<State>, acts: seq<Action>, i: nat, k: nat, q: nat)
    requires IsRun(run, acts) && i < |acts| && acts[i] == Run(k)
    requires k < |run[i + 1].kts| && k < |run[i].kts|
    requires run[i + 1].kts[k].p == Some(q) && run[i].kts[k].p != Some(q)
    ensures OnStack(run[i], q) == {} && InHands(run[i], q) == {k}
    ensures q !in run[i].sh.ready && q !in run[i].sh.waitq
  {
    var s := run[i]; var kt := s.kts[k];
    RunInv(run, acts, i);
    assert Follows(s, acts[i], run[i + 1]);
    var e := EnvOf(s.sh, kt);
    LocalLoads(k, kt, Rec(s.sh, Own(kt)), Rec(s.sh, Second(kt, e)), e);
    assert kt.x == Some(q) && KtOk(s.sh, k, kt);
    HandsCount(s, q);
    assert k in InHands(s, q);
    AtMostOne(InHands(s, q) - {k}, 0);
  }

  /** Executing on an idle stack, rather than having one in hand. */
  predicate OnIdleStack(kt: Kt) {
    kt.pc.IdleLanded? || kt.pc.Receiving? || kt.pc.Received? || kt.pc.Resuming? || kt.pc.Pooling? || kt.pc.IdleSwitch?
  }

  lemma StacksApart(s: State, j: nat, k: nat)
    requires IdlersLinked(s) && j < |s.kts| && k < |s.kts| && j != k
    requires forall n :: 0 <= n < |s.kts| ==> KtOk(s.sh, n, s.kts[n])
    requires OnIdleStack(s.kts[j]) && (OnIdleStack(s.kts[k]) || s.kts[k].pc.IdleLeaving?)
    ensures s.kts[j].w.Some? && s.kts[k].w.Some? && s.kts[j].w != s.kts[k].w
  {
    assert Registers(s.kts[j]) && Registers(s.kts[k]) by {
      assert KtOk(s.sh, j, s.kts[j]) && KtOk(s.sh, k, s.kts[k]);
    }
  }

  /** No two kernel threads ever share an idle stack, and a thread that is about to switch to one
      finds nobody on it. */
  lemma IdleStacksUnshared(run: seq<State>, acts: seq<Action>, i: nat, j: nat, k: nat)
    requires IsRun(run, acts) && i < |run| && j < |run[i].kts| && k < |run[i].kts| && j != k
    requires OnIdleStack(run[i].kts[j]) && (OnIdleStack(run[i].kts[k]) || run[i].kts[k].pc.IdleLeaving?)
    ensures run[i].kts[j].w.Some? && run[i].kts[k].w.Some? && run[i].kts[j].w != run[i].kts[k].w
  {
    RunInv(run, acts, i);
    StacksApart(run[i], j, k);
  }

  /** The counters say what they should at every moment, and no ready cproc is left behind by a
      process whose pool threads have all gone idle: a wakeup is on its way. */
  lemma CountersTrue(run: seq<State>, acts: seq<Action>, i: nat)
    requires IsRun(run, acts) && i < |run|
    ensures run[i].sh.readyCount == |run[i].sh.ready| - Outstanding(run[i])
    ensures run[i].sh.waitCount == |Waiting(run[i].kts)| - Outstanding(run[i])
    ensures NobodyActive(run[i].kts) && run[i].sh.ready != [] ==> Outstanding(run[i]) > 0
  {
    RunInv(run, acts, i);
  }
}
