/** The sequence-number protocol of the default pager (bootstrap/default_pager.c).

    Every message on a pager port carries a sequence number.  Any number of server threads
    receive messages; the protocol lets reads and writes overlap, makes reads wait for all
    earlier writes, and makes terminate wait for everything before it.  The model is one
    interleaved step relation for one pager port: a request is identified by its absolute
    sequence number, while the code only compares numbers modulo 2^32. */
module SeqnoProtocol {

  const SEQ_MOD: nat := 0x1_0000_0000
  const MAX_UREFS: nat := 10000

  datatype Kind = Init | Read | Write | Terminate | NoSenders

  /** The condition variables of a dstruct. */
  datatype Cond = OnSeqno | OnReaders | OnWriters | OnRefs

  /** Where the thread serving a request is.  `Enqueued(c)` is inside condition_wait, on the
      queue but still holding the lock; `Asleep(c)` has released it. */
  datatype Pc =
    | WantLock | Checking | Enqueued(c: Cond) | Asleep(c: Cond)
    | Counting | Trimming | StartWrite
    | TestReaders | TestWriters | TestRefs
    | Setup | Quit | Freeing
    | BcastSeqno | Working | BcastReaders | BcastWriters
    | Done | Panicked

  datatype Req = Req(kind: Kind, pc: Pc)

  /** default_pager_objects, serialised by the list lock. */
  datatype ListerPc = LIdle | LHolding | LKernel | LAdding | LBcast

  datatype Owner = Free | ByReq(id: nat) | ByLister | ByOther

  /** Queues of the four condition variables. */
  datatype Queues = Queues(onSeqno: set<nat>, onReaders: set<nat>, onWriters: set<nat>, onRefs: set<nat>)

  /** The dstruct fields the protocol uses. */
  datatype Shared = Shared(
    served: nat,             // absolute value of ds->seqno
    seqno: nat,              // ds->seqno itself
    lock: Owner,
    readers: int,
    writers: int,
    requestRefs: nat,
    nameRefs: int,
    open: bool,              // pager_request and pager_name are not MACH_PORT_NULL
    q: Queues,
    lister: ListerPc)

  datatype State = State(
    sh: Shared,
    reqs: seq<Req>,          // index is the absolute sequence number
    open0: bool)             // whether the object was created with its ports known

  datatype Action =
    | Arrive(kind: Kind)
    | Run(id: nat)
    | OtherLock | OtherUnlock       // destroy_paging_partition and error accounting
    | RunLister

  // ---------------------------------------------------------------- message stream

  function OpenAfter(open0: bool, reqs: seq<Req>): bool {
    if reqs == [] then open0
    else
      match reqs[|reqs| - 1].kind
      case Init => true
      case Terminate => false
      case _ => OpenAfter(open0, reqs[..|reqs| - 1])
  }

  /** The kernel's side of the interface: data requests and terminate only on an initialised
      object, init and no-senders only on one that is not. */
  predicate Permitted(open: bool, kind: Kind) {
    match kind
    case Init => !open
    case NoSenders => !open
    case _ => open
  }

  predicate GoodStream(open0: bool, reqs: seq<Req>) {
    forall i :: 0 <= i < |reqs| ==>
      && Permitted(OpenAfter(open0, reqs[..i]), reqs[i].kind)
      && (reqs[i].kind.NoSenders? ==> i == |reqs| - 1)
  }

  // ---------------------------------------------------------------- steps

  predicate TakesLock(pc: Pc) {
    pc.WantLock? || pc.Asleep? || pc.Trimming? || pc.Working?
  }

  predicate HoldsLock(pc: Pc) {
    pc.Checking? || pc.Enqueued? || pc.Counting? || pc.StartWrite? || pc.TestReaders?
    || pc.TestWriters? || pc.TestRefs? || pc.Setup? || pc.Quit? || pc.Panicked?
  }

  /** Who is on the queue of a condition variable. */
  function Queue(q: Queues, c: Cond): set<nat> {
    match c
    case OnSeqno => q.onSeqno
    case OnReaders => q.onReaders
    case OnWriters => q.onWriters
    case OnRefs => q.onRefs
  }

  function SetQueue(q: Queues, c: Cond, w: set<nat>): Queues {
    match c
    case OnSeqno => q.(onSeqno := w)
    case OnReaders => q.(onReaders := w)
    case OnWriters => q.(onWriters := w)
    case OnRefs => q.(onRefs := w)
  }

  predicate ReqEnabled(sh: Shared, i: nat, r: Req) {
    && !r.pc.Done? && !r.pc.Panicked?
    && (TakesLock(r.pc) ==> sh.lock.Free?)
    && (r.pc.Asleep? ==> i !in Queue(sh.q, r.pc.c))
  }

  /** pager_port_unlock: advance the sequence number and unlock. */
  function Leave(sh: Shared): Shared {
    sh.(served := sh.served + 1, seqno := (sh.seqno + 1) % SEQ_MOD, lock := Free)
  }

  /** condition_wait up to the point where the thread is on the queue. */
  function Sleep(sh: Shared, i: nat, c: Cond): (Shared, Pc) {
    (sh.(q := SetQueue(sh.q, c, Queue(sh.q, c) + {i})), Enqueued(c))
  }

  function Broadcast(sh: Shared, c: Cond): Shared { sh.(q := SetQueue(sh.q, c, {})) }

  function RetestPc(c: Cond): Pc {
    match c
    case OnSeqno => Checking
    case OnReaders => TestReaders
    case OnWriters => TestWriters
    case OnRefs => TestRefs
  }

  function FirstPc(kind: Kind): Pc {
    match kind
    case Init => Setup
    case Read => Counting
    case Write => Counting
    case Terminate => TestReaders
    case NoSenders => Quit
  }

  function AfterCount(kind: Kind): Pc { if kind.Read? then TestWriters else StartWrite }

  /** One step of the thread serving request `i`: the new shared fields and its next place. */
  function ReqStep(sh: Shared, i: nat, r: Req): (Shared, Pc)
    requires ReqEnabled(sh, i, r)
  {
    match r.pc
    case WantLock => (sh.(lock := ByReq(i)), Checking)
    case Checking =>
      if sh.seqno != i % SEQ_MOD then Sleep(sh, i, OnSeqno) else (sh, FirstPc(r.kind))
    case Enqueued(c) => (sh.(lock := Free), Asleep(c))
    case Asleep(c) => (sh.(lock := ByReq(i)), RetestPc(c))
    case Counting =>
      if sh.requestRefs + 1 > MAX_UREFS
      then (sh.(requestRefs := 1, lock := Free), Trimming)
      else (sh.(requestRefs := sh.requestRefs + 1), AfterCount(r.kind))
    case Trimming => (sh.(lock := ByReq(i)), AfterCount(r.kind))
    case StartWrite => (Leave(sh).(writers := sh.writers + 1), BcastSeqno)
    case TestReaders => if sh.readers != 0 then Sleep(sh, i, OnReaders) else (sh, TestWriters)
    case TestWriters =>
      if sh.writers != 0 then Sleep(sh, i, OnWriters)
      else if r.kind.Read? then (Leave(sh).(readers := sh.readers + 1), BcastSeqno)
      else (sh, TestRefs)
    case TestRefs =>
      if sh.nameRefs == 0 then Sleep(sh, i, OnRefs)
      else (Leave(sh).(open := false, requestRefs := 0, nameRefs := 0), BcastSeqno)
    case Setup =>
      if sh.open then (sh, Panicked)
      else (Leave(sh).(open := true, requestRefs := 1, nameRefs := 1), BcastSeqno)
    case Quit => if sh.open then (sh, Panicked) else (sh.(lock := Free), Freeing)
    case Freeing => (sh, Done)
    case BcastSeqno =>
      (Broadcast(sh, OnSeqno), if r.kind.Read? || r.kind.Write? then Working else Done)
    case Working =>
      if r.kind.Read?
      then (sh.(readers := sh.readers - 1), if sh.readers - 1 == 0 then BcastReaders else Done)
      else (sh.(writers := sh.writers - 1), if sh.writers - 1 == 0 then BcastWriters else Done)
    case BcastReaders => (Broadcast(sh, OnReaders), Done)
    case BcastWriters => (Broadcast(sh, OnWriters), Done)
  }

  predicate ListerEnabled(sh: Shared) { (sh.lister.LIdle? || sh.lister.LKernel?) ==> sh.lock.Free? }

  function ListerStep(sh: Shared): Shared
    requires ListerEnabled(sh)
  {
    match sh.lister
    case LIdle => sh.(lister := LHolding, lock := ByLister)
    case LHolding =>
      if !sh.open then sh.(lister := LIdle, lock := Free)
      else if sh.nameRefs - 1 == 0 then sh.(nameRefs := 0, lister := LKernel, lock := Free)
      else sh.(nameRefs := sh.nameRefs - 1, lister := LIdle, lock := Free)
    case LKernel => sh.(lister := LAdding, lock := ByLister)
    case LAdding => sh.(nameRefs := sh.nameRefs + MAX_UREFS, lister := LBcast)
    case LBcast => Broadcast(sh, OnRefs).(lister := LIdle, lock := Free)
  }

  /** Nobody goes through the list of objects. */
  predicate ListFree(sh: Shared) { sh.lister.LIdle? && !sh.lock.ByOther? }

  /** No-senders has taken the object off the list and freed it. */
  predicate Freed(s: State) { s.reqs != [] && s.reqs[|s.reqs| - 1] == Req(NoSenders, Done) }

  predicate Enabled(s: State, a: Action) {
    match a
    case Arrive(kind) =>
      && |s.reqs| < s.sh.served + SEQ_MOD
      && Permitted(OpenAfter(s.open0, s.reqs), kind)
      && (s.reqs != [] ==> !s.reqs[|s.reqs| - 1].kind.NoSenders?)
    case Run(i) => i < |s.reqs| && ReqEnabled(s.sh, i, s.reqs[i]) && (s.reqs[i].pc.Freeing? ==> ListFree(s.sh))
    case OtherLock => s.sh.lock.Free? && !Freed(s)
    case OtherUnlock => s.sh.lock.ByOther?
    case RunLister => ListerEnabled(s.sh) && (s.sh.lister.LIdle? ==> !Freed(s))
  }

  function Apply(s: State, a: Action): State
    requires Enabled(s, a)
  {
    match a
    case Arrive(kind) => s.(reqs := s.reqs + [Req(kind, WantLock)])
    case Run(i) =>
      var (sh', pc') := ReqStep(s.sh, i, s.reqs[i]);
      s.(sh := sh', reqs := s.reqs[i := s.reqs[i].(pc := pc')])
    case OtherLock => s.(sh := s.sh.(lock := ByOther))
    case OtherUnlock => s.(sh := s.sh.(lock := Free))
    case RunLister => s.(sh := ListerStep(s.sh))
  }

  /** A new object: created by memory_object_create with its ports set, or by
      default_pager_object_create without. */
  function Start(open0: bool): State {
    var refs := if open0 then 1 else 0;
    State(Shared(0, 0, Free, 0, 0, refs, refs, open0, Queues({}, {}, {}, {}), LIdle), [], open0)
  }

  // ---------------------------------------------------------------- invariant

  predicate Before(pc: Pc) {
    pc.WantLock? || pc.Checking? || pc == Enqueued(OnSeqno) || pc == Asleep(OnSeqno)
  }

  /** Past the sequence-number test but not yet past pager_port_unlock. */
  predicate AtGate(r: Req) {
    match r.pc
    case Counting => r.kind.Read? || r.kind.Write?
    case Trimming => r.kind.Read? || r.kind.Write?
    case StartWrite => r.kind.Write?
    case TestReaders => r.kind.Terminate?
    case TestWriters => r.kind.Read? || r.kind.Terminate?
    case TestRefs => r.kind.Terminate?
    case Setup => r.kind.Init?
    case Quit => r.kind.NoSenders?
    case Freeing => r.kind.NoSenders?
    case Done => r.kind.NoSenders?
    case Enqueued(c) => GateCond(r.kind, c)
    case Asleep(c) => GateCond(r.kind, c)
    case _ => false
  }

  predicate GateCond(kind: Kind, c: Cond) {
    match c
    case OnSeqno => false
    case OnWriters => kind.Read? || kind.Terminate?
    case _ => kind.Terminate?
  }

  predicate After(r: Req) {
    match r.pc
    case BcastSeqno => !r.kind.NoSenders?
    case Working => r.kind.Read? || r.kind.Write?
    case BcastReaders => r.kind.Read?
    case BcastWriters => r.kind.Write?
    case Done => !r.kind.NoSenders?
    case _ => false
  }

  predicate InProgress(r: Req) {
    (r.kind.Read? || r.kind.Write?) && (r.pc.BcastSeqno? || r.pc.Working?)
  }

  /** The request has had its whole effect: the data has been read or written. */
  predicate Complete(r: Req) { After(r) && !InProgress(r) }

  function Active(reqs: seq<Req>, kind: Kind): set<nat> {
    set i: nat | i < |reqs| && reqs[i].kind == kind && InProgress(reqs[i])
  }

  predicate QueuedRightly(q: Queues, j: nat, pc: Pc) {
    && (j in q.onSeqno ==> pc == Enqueued(OnSeqno) || pc == Asleep(OnSeqno))
    && (j in q.onReaders ==> pc == Enqueued(OnReaders) || pc == Asleep(OnReaders))
    && (j in q.onWriters ==> pc == Enqueued(OnWriters) || pc == Asleep(OnWriters))
    && (j in q.onRefs ==> pc == Enqueued(OnRefs) || pc == Asleep(OnRefs))
  }

  predicate InPhase(served: nat, j: nat, r: Req) {
    if j < served then After(r)
    else if j == served then Before(r.pc) || AtGate(r)
    else Before(r.pc)
  }

  /** What holds of one request, given the shared fields. */
  predicate Fits(sh: Shared, j: nat, r: Req) {
    && InPhase(sh.served, j, r)
    && (HoldsLock(r.pc) <==> sh.lock == ByReq(j))
    && QueuedRightly(sh.q, j, r.pc)
    && (r.pc == Enqueued(OnSeqno) ==> j != sh.served)
  }

  predicate Bounded(q: Queues, n: nat) {
    && (forall j :: j in q.onSeqno ==> j < n)
    && (forall j :: j in q.onReaders ==> j < n)
    && (forall j :: j in q.onWriters ==> j < n)
    && (forall j :: j in q.onRefs ==> j < n)
  }

  predicate AllFit(s: State) {
    && s.sh.served <= |s.reqs| <= s.sh.served + SEQ_MOD
    && (forall j :: 0 <= j < |s.reqs| ==> Fits(s.sh, j, s.reqs[j]))
    && Bounded(s.sh.q, |s.reqs|)
    && (s.sh.lock.ByReq? ==> s.sh.lock.id < |s.reqs|)
  }

  predicate Counts(s: State) {
    && s.sh.readers == |Active(s.reqs, Read)|
    && s.sh.writers == |Active(s.reqs, Write)|
  }

  predicate Streams(s: State) {
    && GoodStream(s.open0, s.reqs)
    && s.sh.served <= |s.reqs|
    && s.sh.open == OpenAfter(s.open0, s.reqs[..s.sh.served])
  }

  predicate PastWriters(pc: Pc) { pc.TestRefs? || pc == Enqueued(OnRefs) || pc == Asleep(OnRefs) }

  predicate PastReaders(pc: Pc) {
    PastWriters(pc) || pc.TestWriters? || pc == Enqueued(OnWriters) || pc == Asleep(OnWriters)
  }

  /** What terminate has already waited for stays true although it drops the lock while
      waiting for the next thing. */
  predicate Waited(s: State) {
    && (s.sh.served < |s.reqs| && s.reqs[s.sh.served].kind.Terminate? ==>
          && (PastReaders(s.reqs[s.sh.served].pc) ==> s.sh.readers == 0)
          && (PastWriters(s.reqs[s.sh.served].pc) ==> s.sh.writers == 0))
    && (!s.sh.open ==> s.sh.readers == 0 && s.sh.writers == 0)
  }

  predicate ReadsOrdered(reqs: seq<Req>) {
    forall w, r | 0 <= w < r < |reqs| ::
      reqs[w].kind.Write? && reqs[r].kind.Read? && InProgress(reqs[r]) ==> !InProgress(reqs[w])
  }

  predicate Somewhere(reqs: seq<Req>, pc: Pc) { exists i :: 0 <= i < |reqs| && reqs[i].pc == pc }

  /** No lost wakeup: a queued waiter whose condition has come true has a broadcast coming. */
  predicate NoLostWakeup(s: State) {
    && (s.sh.served in s.sh.q.onSeqno ==>
          0 < s.sh.served <= |s.reqs| && s.reqs[s.sh.served - 1].pc.BcastSeqno?)
    && (s.sh.q.onReaders != {} && s.sh.readers == 0 ==> Somewhere(s.reqs, BcastReaders))
    && (s.sh.q.onWriters != {} && s.sh.writers == 0 ==> Somewhere(s.reqs, BcastWriters))
    && (s.sh.q.onRefs != {} && s.sh.nameRefs != 0 ==> s.sh.lister.LBcast?)
  }

  predicate Refs(sh: Shared) {
    && sh.seqno == sh.served % SEQ_MOD
    && sh.nameRefs >= 0
    && ((sh.lister.LKernel? || sh.lister.LAdding?) ==> sh.nameRefs == 0 && sh.open)
    && (sh.lister.LBcast? ==> sh.open)
    && (sh.open && sh.nameRefs == 0 ==> sh.lister.LKernel? || sh.lister.LAdding?)
    && (sh.lock.ByLister? <==> sh.lister.LHolding? || sh.lister.LAdding? || sh.lister.LBcast?)
  }

  predicate Inv(s: State) {
    && AllFit(s)
    && Counts(s)
    && Streams(s)
    && Waited(s)
    && ReadsOrdered(s.reqs)
    && NoLostWakeup(s)
    && Refs(s.sh)
  }

  // ---------------------------------------------------------------- preservation

  lemma StartInv(open0: bool)
    ensures Inv(Start(open0))
  {
    var s := Start(open0);
    assert Active(s.reqs, Read) == {} && Active(s.reqs, Write) == {};
  }

  lemma {:induction false} OpenAfterSameKinds(open0: bool, a: seq<Req>, b: seq<Req>)
    requires |a| == |b|
    requires forall i :: 0 <= i < |a| ==> a[i].kind == b[i].kind
    ensures OpenAfter(open0, a) == OpenAfter(open0, b)
  {
    if a != [] {
      OpenAfterSameKinds(open0, a[..|a| - 1], b[..|b| - 1]);
    }
  }

  lemma StreamSameKinds(open0: bool, a: seq<Req>, b: seq<Req>)
    requires |a| == |b| && GoodStream(open0, a)
    requires forall i :: 0 <= i < |a| ==> a[i].kind == b[i].kind
    ensures GoodStream(open0, b)
    ensures forall k :: 0 <= k <= |a| ==> OpenAfter(open0, b[..k]) == OpenAfter(open0, a[..k])
  {
    forall k | 0 <= k <= |a| ensures OpenAfter(open0, b[..k]) == OpenAfter(open0, a[..k]) {
      OpenAfterSameKinds(open0, a[..k], b[..k]);
    }
  }

  /** A running request sees its own sequence number exactly when it is next. */
  lemma SeqnoTest(served: nat, i: nat)
    requires served <= i < served + SEQ_MOD
    ensures served % SEQ_MOD == i % SEQ_MOD <==> served == i
  {
  }

  lemma FitsSelf(sh: Shared, i: nat, r: Req)
    requires ReqEnabled(sh, i, r) && Fits(sh, i, r)
    requires i < sh.served + SEQ_MOD && sh.seqno == sh.served % SEQ_MOD
    requires r.pc.Setup? || r.pc.Quit? ==> !sh.open
    ensures var (sh', pc') := ReqStep(sh, i, r); Fits(sh', i, r.(pc := pc'))
  {
    if sh.served <= i { SeqnoTest(sh.served, i); }
    match r.pc {
      case WantLock => case Checking => case Enqueued(_) => case Asleep(_) => case Counting => case Trimming =>
      case StartWrite => case TestReaders => case TestWriters => case TestRefs => case Setup => case Quit =>
      case Freeing => case BcastSeqno => case Working => case BcastReaders => case BcastWriters =>
    }
  }

  lemma FitsOther(sh: Shared, i: nat, r: Req, j: nat, r': Req)
    requires ReqEnabled(sh, i, r) && i != j
    requires Fits(sh, i, r) && Fits(sh, j, r')
    ensures Fits(ReqStep(sh, i, r).0, j, r')
  {
  }

  // The facts about one step that the invariant needs, free of the step function itself.

  predicate SharedFacts(sh: Shared, i: nat, sh': Shared, r': Req, n: nat) {
    && Bounded(sh'.q, n) && Refs(sh') && (sh'.lock.ByReq? ==> sh'.lock.id < n)
    && (sh'.served == sh.served || (sh'.served == sh.served + 1 && i == sh.served && r'.pc == BcastSeqno))
  }

  function Busy(r: Req): int { if InProgress(r) then 1 else 0 }

  /** Which steps start and finish an operation, and what they do to the counts. */
  predicate CountFacts(sh: Shared, i: nat, r: Req, sh': Shared, r': Req) {
    var delta := Busy(r') - Busy(r);
    && sh'.readers == sh.readers + (if r.kind.Read? then delta else 0)
    && sh'.writers == sh.writers + (if r.kind.Write? then delta else 0)
    && (delta == 1 ==> i == sh.served && (r.kind.Read? ==> sh.writers == 0))
    && (sh.readers > 0 && sh'.readers == 0 ==> r'.pc == BcastReaders)
    && (sh.writers > 0 && sh'.writers == 0 ==> r'.pc == BcastWriters)
  }

  /** Which steps change `open`: only the init and terminate at the gate. */
  predicate OpenFacts(sh: Shared, i: nat, r: Req, sh': Shared, r': Req) {
    && (if sh'.served == sh.served then sh'.open == sh.open
        else sh'.open == (match r.kind case Init => true case Terminate => false case _ => sh.open))
    && (sh.open && !sh'.open ==> r.kind.Terminate? && i == sh.served && PastWriters(r.pc))
  }

  /** The counts terminate has seen at zero. */
  predicate WaitFacts(sh: Shared, i: nat, r: Req, r': Req) {
    r.kind.Terminate? && i == sh.served ==>
      && (PastReaders(r'.pc) ==> PastReaders(r.pc) || sh.readers == 0)
      && (PastWriters(r'.pc) ==> PastWriters(r.pc) || sh.writers == 0)
      && (PastWriters(r.pc) ==> PastReaders(r.pc))
  }

  /** A step may put its own thread on a queue whose condition is false, or empty a queue. */
  predicate WakeFacts(sh: Shared, i: nat, r: Req, sh': Shared, r': Req) {
    && (sh'.q.onSeqno == sh.q.onSeqno || sh'.q.onSeqno == {}
        || (sh'.q.onSeqno == sh.q.onSeqno + {i} && r'.pc == Enqueued(OnSeqno) && sh'.served == sh.served))
    && (sh'.q.onReaders == sh.q.onReaders || sh'.q.onReaders == {} || sh'.readers != 0)
    && (sh'.q.onWriters == sh.q.onWriters || sh'.q.onWriters == {} || sh'.writers != 0)
    && (sh'.q.onRefs == sh.q.onRefs || sh'.q.onRefs == {} || sh'.nameRefs == 0)
    && (r.pc == BcastSeqno ==> sh'.q.onSeqno == {} && sh'.served == sh.served)
    && (r.pc == BcastReaders ==> sh'.q.onReaders == {})
    && (r.pc == BcastWriters ==> sh'.q.onWriters == {})
    && sh'.lister == sh.lister
    && (sh'.nameRefs != 0 && sh.nameRefs == 0 ==> sh'.served == sh.served + 1)
    && (sh'.served != sh.served ==> sh'.q == sh.q)
  }

  lemma QueuesStep(sh: Shared, i: nat, r: Req, n: nat)
    requires ReqEnabled(sh, i, r) && i < n && Bounded(sh.q, n)
    ensures Bounded(ReqStep(sh, i, r).0.q, n)
  {
    match r.pc {
      case WantLock => case Checking => case Enqueued(_) => case Asleep(_) => case Counting => case Trimming =>
      case StartWrite => case TestReaders => case TestWriters => case TestRefs => case Setup => case Quit =>
      case Freeing => case BcastSeqno => case Working => case BcastReaders => case BcastWriters =>
    }
  }

  lemma SharedStep(sh: Shared, i: nat, r: Req, n: nat)
    requires ReqEnabled(sh, i, r) && Fits(sh, i, r) && i < n
    requires Bounded(sh.q, n) && Refs(sh) && (sh.lock.ByReq? ==> sh.lock.id < n)
    requires r.pc.Setup? || r.pc.Quit? ==> !sh.open
    ensures var (sh', pc') := ReqStep(sh, i, r); SharedFacts(sh, i, sh', r.(pc := pc'), n)
  {
    QueuesStep(sh, i, r, n);
    match r.pc {
      case WantLock => case Checking => case Enqueued(_) => case Asleep(_) => case Counting => case Trimming =>
      case StartWrite => case TestReaders => case TestWriters => case TestRefs => case Setup => case Quit =>
      case Freeing => case BcastSeqno => case Working => case BcastReaders => case BcastWriters =>
    }
  }

  lemma CountStep(sh: Shared, i: nat, r: Req)
    requires ReqEnabled(sh, i, r) && Fits(sh, i, r) && sh.readers >= 0 && sh.writers >= 0
    requires r.pc.Setup? || r.pc.Quit? ==> !sh.open
    ensures var (sh', pc') := ReqStep(sh, i, r);
            var r' := r.(pc := pc');
            && CountFacts(sh, i, r, sh', r')
            && OpenFacts(sh, i, r, sh', r')
            && WaitFacts(sh, i, r, r')
  {
  }

  lemma WakeStep(sh: Shared, i: nat, r: Req)
    requires ReqEnabled(sh, i, r) && Fits(sh, i, r)
    ensures var (sh', pc') := ReqStep(sh, i, r); WakeFacts(sh, i, r, sh', r.(pc := pc'))
  {
  }

  /** `t` is `s` after one step of request `i`, described by the facts above. */
  predicate Moves(s: State, i: nat, t: State) {
    && i < |s.reqs| && |t.reqs| == |s.reqs| && t.open0 == s.open0
    && t.reqs == s.reqs[i := t.reqs[i]] && t.reqs[i].kind == s.reqs[i].kind
    && SharedFacts(s.sh, i, t.sh, t.reqs[i], |s.reqs|)
    && CountFacts(s.sh, i, s.reqs[i], t.sh, t.reqs[i])
    && OpenFacts(s.sh, i, s.reqs[i], t.sh, t.reqs[i])
    && WaitFacts(s.sh, i, s.reqs[i], t.reqs[i])
    && WakeFacts(s.sh, i, s.reqs[i], t.sh, t.reqs[i])
  }

  /** The kernel's discipline rules the two panics out. */
  lemma NoPanicHere(s: State, i: nat)
    requires AllFit(s) && Streams(s) && i < |s.reqs|
    requires s.reqs[i].pc.Setup? || s.reqs[i].pc.Quit?
    ensures !s.sh.open && i == s.sh.served
  {
    assert Fits(s.sh, i, s.reqs[i]);
  }

  lemma RunMoves(s: State, i: nat)
    requires Inv(s) && Enabled(s, Run(i))
    ensures var t := Apply(s, Run(i)); Moves(s, i, t) && AllFit(t)
  {
    var r := s.reqs[i];
    assert Fits(s.sh, i, r);
    if r.pc.Setup? || r.pc.Quit? { NoPanicHere(s, i); }
    FitsSelf(s.sh, i, r);
    SharedStep(s.sh, i, r, |s.reqs|);
    CountStep(s.sh, i, r);
    WakeStep(s.sh, i, r);
    var t := Apply(s, Run(i));
    forall j | 0 <= j < |t.reqs| ensures Fits(t.sh, j, t.reqs[j]) {
      if j != i { FitsOther(s.sh, i, r, j, s.reqs[j]); }
    }
  }

  // Each of these lemmas carries one conjunct of the invariant over a step.

  lemma ActiveUpdate(a: seq<Req>, i: nat, r: Req, kind: Kind)
    requires i < |a| && r.kind == a[i].kind
    ensures Active(a[i := r], kind) ==
            if r.kind == kind && InProgress(r) then Active(a, kind) + {i} else Active(a, kind) - {i}
  {
  }

  lemma ActiveCard(a: seq<Req>, i: nat, r: Req, kind: Kind)
    requires i < |a| && r.kind == a[i].kind
    ensures |Active(a[i := r], kind)| == |Active(a, kind)| + (if r.kind == kind then Busy(r) - Busy(a[i]) else 0)
  {
    ActiveUpdate(a, i, r, kind);
    var was := Active(a, kind);
    if i in was { assert was == (was - {i}) + {i}; } else { assert was - {i} == was; }
  }

  lemma MoveCounts(s: State, i: nat, t: State)
    requires Counts(s) && Moves(s, i, t)
    ensures Counts(t)
  {
    ActiveCard(s.reqs, i, t.reqs[i], Read);
    ActiveCard(s.reqs, i, t.reqs[i], Write);
  }

  lemma MoveStreams(s: State, i: nat, t: State)
    requires Streams(s) && Moves(s, i, t) && AllFit(t)
    ensures Streams(t)
  {
    StreamSameKinds(s.open0, s.reqs, t.reqs);
    if t.sh.served == s.sh.served + 1 {
      assert t.reqs[..t.sh.served][..s.sh.served] == t.reqs[..s.sh.served];
    }
  }

  lemma MoveOrdered(s: State, i: nat, t: State)
    requires AllFit(s) && Counts(s) && ReadsOrdered(s.reqs) && Moves(s, i, t)
    ensures ReadsOrdered(t.reqs)
  {
    forall w, r | 0 <= w < r < |t.reqs| && t.reqs[w].kind.Write? && t.reqs[r].kind.Read? && InProgress(t.reqs[r])
      ensures !InProgress(t.reqs[w])
    {
      assert Fits(s.sh, w, s.reqs[w]) && Fits(s.sh, r, s.reqs[r]);
      if i == r && !InProgress(s.reqs[r]) {
        assert w !in Active(s.reqs, Write);
      }
    }
  }

  /** An operation starts only on an object that is open. */
  lemma StartsOpen(s: State, i: nat, t: State)
    requires Streams(s) && i == s.sh.served < |s.reqs| && (s.reqs[i].kind.Read? || s.reqs[i].kind.Write?)
    ensures s.sh.open
  {
    assert Permitted(OpenAfter(s.open0, s.reqs[..i]), s.reqs[i].kind);
  }

  lemma MoveClosed(s: State, i: nat, t: State)
    requires Counts(s) && Streams(s) && Waited(s) && Moves(s, i, t)
    ensures !t.sh.open ==> t.sh.readers == 0 && t.sh.writers == 0
  {
    var r := s.reqs[i];
    if InProgress(r) {
      assert i in Active(s.reqs, r.kind);
    } else if InProgress(t.reqs[i]) && (r.kind.Read? || r.kind.Write?) {
      StartsOpen(s, i, t);
    }
  }

  lemma MoveWaited(s: State, i: nat, t: State)
    requires AllFit(s) && Counts(s) && Streams(s) && Waited(s) && Moves(s, i, t)
    ensures Waited(t)
  {
    MoveClosed(s, i, t);
    var g := t.sh.served;
    if g < |t.reqs| && t.reqs[g].kind.Terminate? {
      assert Fits(s.sh, g, s.reqs[g]);
      MoveGate(s, i, t, g);
    }
  }

  /** What the terminate at the gate has waited for. */
  lemma MoveGate(s: State, i: nat, t: State, g: nat)
    requires Counts(s) && Waited(s) && Moves(s, i, t)
    requires g == t.sh.served < |t.reqs| && t.reqs[g].kind.Terminate? && Fits(s.sh, g, s.reqs[g])
    ensures PastReaders(t.reqs[g].pc) ==> t.sh.readers == 0
    ensures PastWriters(t.reqs[g].pc) ==> t.sh.writers == 0
  {
    if InProgress(s.reqs[i]) { assert i in Active(s.reqs, s.reqs[i].kind); }
  }

  lemma MoveBroadcast(s: State, i: nat, t: State)
    requires Counts(s) && NoLostWakeup(s) && Moves(s, i, t)
    ensures t.sh.q.onReaders != {} && t.sh.readers == 0 ==> Somewhere(t.reqs, BcastReaders)
    ensures t.sh.q.onWriters != {} && t.sh.writers == 0 ==> Somewhere(t.reqs, BcastWriters)
  {
    if t.sh.q.onReaders != {} && t.sh.readers == 0 {
      var k := i;
      if s.sh.readers == 0 { k :| 0 <= k < |s.reqs| && s.reqs[k].pc == BcastReaders; }
      assert t.reqs[k].pc == BcastReaders;
    }
    if t.sh.q.onWriters != {} && t.sh.writers == 0 {
      var k := i;
      if s.sh.writers == 0 { k :| 0 <= k < |s.reqs| && s.reqs[k].pc == BcastWriters; }
      assert t.reqs[k].pc == BcastWriters;
    }
  }

  lemma MoveWakeups(s: State, i: nat, t: State)
    requires AllFit(s) && NoLostWakeup(s) && Counts(s) && Moves(s, i, t) && AllFit(t)
    ensures NoLostWakeup(t)
  {
    MoveBroadcast(s, i, t);
    if j :| j in t.sh.q.onRefs {
      assert Fits(s.sh, j, s.reqs[j]) && Fits(t.sh, j, t.reqs[j]);
    }
    if t.sh.served in t.sh.q.onSeqno {
      assert Fits(t.sh, t.sh.served, t.reqs[t.sh.served]);
    }
  }

  lemma RunKeepsInv(s: State, i: nat)
    requires Inv(s) && Enabled(s, Run(i))
    ensures Inv(Apply(s, Run(i)))
  {
    RunMoves(s, i);
    var t := Apply(s, Run(i));
    MoveCounts(s, i, t);
    MoveStreams(s, i, t);
    MoveOrdered(s, i, t);
    MoveWaited(s, i, t);
    MoveWakeups(s, i, t);
  }

  lemma StreamGrows(open0: bool, reqs: seq<Req>, r: Req)
    requires GoodStream(open0, reqs) && Permitted(OpenAfter(open0, reqs), r.kind)
    requires reqs != [] ==> !reqs[|reqs| - 1].kind.NoSenders?
    ensures GoodStream(open0, reqs + [r])
  {
    var all := reqs + [r];
    forall i | 0 <= i < |all|
      ensures Permitted(OpenAfter(open0, all[..i]), all[i].kind) && (all[i].kind.NoSenders? ==> i == |all| - 1)
    {
      if i < |reqs| { assert all[..i] == reqs[..i]; } else { assert all[..i] == reqs; }
    }
  }

  lemma ArriveStreams(s: State, kind: Kind)
    requires Streams(s) && Enabled(s, Arrive(kind))
    ensures Streams(Apply(s, Arrive(kind)))
  {
    StreamGrows(s.open0, s.reqs, Req(kind, WantLock));
    assert (s.reqs + [Req(kind, WantLock)])[..s.sh.served] == s.reqs[..s.sh.served];
  }

  lemma ArriveFits(s: State, kind: Kind)
    requires AllFit(s) && Enabled(s, Arrive(kind))
    ensures AllFit(Apply(s, Arrive(kind)))
  {
  }

  lemma ArriveKeepsInv(s: State, kind: Kind)
    requires Inv(s) && Enabled(s, Arrive(kind))
    ensures Inv(Apply(s, Arrive(kind)))
  {
    ArriveStreams(s, kind);
    ArriveFits(s, kind);
    AppendKeeps(s, Req(kind, WantLock));
  }

  /** A request that has not started anything changes none of the remaining conjuncts. */
  lemma AppendKeeps(s: State, r: Req)
    requires Counts(s) && Waited(s) && ReadsOrdered(s.reqs) && NoLostWakeup(s) && r.pc.WantLock?
    ensures var t := s.(reqs := s.reqs + [r]);
            Counts(t) && Waited(t) && ReadsOrdered(t.reqs) && NoLostWakeup(t)
  {
    var t := s.(reqs := s.reqs + [r]);
    assert Active(t.reqs, Read) == Active(s.reqs, Read) && Active(t.reqs, Write) == Active(s.reqs, Write);
    forall pc | Somewhere(s.reqs, pc) ensures Somewhere(t.reqs, pc) {
      var k :| 0 <= k < |s.reqs| && s.reqs[k].pc == pc;
      assert t.reqs[k].pc == pc;
    }
  }

  /** What the lister and the other lock holders may change. */
  predicate Harmless(sh: Shared, sh': Shared) {
    && sh'.served == sh.served && sh'.readers == sh.readers && sh'.writers == sh.writers && sh'.open == sh.open
    && sh'.q.onSeqno == sh.q.onSeqno && sh'.q.onReaders == sh.q.onReaders && sh'.q.onWriters == sh.q.onWriters
    && (sh'.q.onRefs == sh.q.onRefs || sh'.q.onRefs == {})
    && !sh.lock.ByReq? && !sh'.lock.ByReq?
    && Refs(sh')
    && (sh'.q.onRefs != {} && sh'.nameRefs != 0 ==> sh'.lister.LBcast?)
  }

  lemma ListerHarmless(sh: Shared)
    requires ListerEnabled(sh) && Refs(sh) && (sh.q.onRefs != {} && sh.nameRefs != 0 ==> sh.lister.LBcast?)
    ensures Harmless(sh, ListerStep(sh))
  {
  }

  lemma HarmlessKeepsInv(s: State, t: State)
    requires Inv(s) && t.reqs == s.reqs && t.open0 == s.open0 && Harmless(s.sh, t.sh)
    ensures Inv(t)
  {
    forall j | 0 <= j < |t.reqs| ensures Fits(t.sh, j, t.reqs[j]) {
      assert Fits(s.sh, j, s.reqs[j]);
    }
  }

  lemma StepKeepsInv(s: State, a: Action)
    requires Inv(s) && Enabled(s, a)
    ensures Inv(Apply(s, a))
  {
    match a
    case Arrive(kind) => ArriveKeepsInv(s, kind);
    case Run(i) => RunKeepsInv(s, i);
    case RunLister =>
      ListerHarmless(s.sh);
      HarmlessKeepsInv(s, Apply(s, a));
    case _ => HarmlessKeepsInv(s, Apply(s, a));
  }

  // ---------------------------------------------------------------- runs

  ghost predicate IsRun(run: seq<State>) {
    && run != []
    && (exists open0 :: run[0] == Start(open0))
    && (forall k :: 0 <= k < |run| - 1 ==> Follows(run[k], run[k + 1]))
  }

  ghost predicate Follows(s: State, t: State) { exists a :: Enabled(s, a) && t == Apply(s, a) }

  lemma {:induction false} RunInv(run: seq<State>, k: nat)
    requires IsRun(run) && k < |run|
    ensures Inv(run[k])
  {
    if k == 0 {
      var open0 :| run[0] == Start(open0);
      StartInv(open0);
    } else {
      RunInv(run, k - 1);
      assert Follows(run[k - 1], run[k]);
      var a :| Enabled(run[k - 1], a) && run[k] == Apply(run[k - 1], a);
      StepKeepsInv(run[k - 1], a);
    }
  }

  /** In every run, while a read is in progress every write with a smaller sequence number has
      finished, and the counts are exactly the operations in progress. */
  lemma ReadsFollowEarlierWrites(run: seq<State>, k: nat, w: nat, r: nat)
    requires IsRun(run) && k < |run| && w < r < |run[k].reqs|
    requires run[k].reqs[w].kind.Write? && run[k].reqs[r].kind.Read? && InProgress(run[k].reqs[r])
    ensures Complete(run[k].reqs[w])
    ensures run[k].sh.readers == |Active(run[k].reqs, Read)| > 0
    ensures run[k].sh.writers == |Active(run[k].reqs, Write)|
  {
    RunInv(run, k);
    var s := run[k];
    assert Fits(s.sh, w, s.reqs[w]) && Fits(s.sh, r, s.reqs[r]);
    assert r in Active(s.reqs, Read);
  }

  /** With both counts at zero, everything already past the gate is complete. */
  lemma QuietMeansComplete(s: State)
    requires AllFit(s) && Counts(s) && s.sh.readers == 0 && s.sh.writers == 0
    ensures forall j :: 0 <= j < s.sh.served ==> Complete(s.reqs[j])
  {
    forall j | 0 <= j < s.sh.served ensures Complete(s.reqs[j]) {
      assert Fits(s.sh, j, s.reqs[j]);
      assert j !in Active(s.reqs, Read) && j !in Active(s.reqs, Write);
    }
  }

  /** When terminate clears the ports, nothing is in progress and every earlier request is
      complete, although the lock was dropped while waiting. */
  lemma TerminateWaitsForAll(run: seq<State>, k: nat, i: nat)
    requires IsRun(run) && k + 1 < |run| && i < |run[k].reqs|
    requires Enabled(run[k], Run(i)) && run[k + 1] == Apply(run[k], Run(i))
    requires run[k].sh.open && !run[k + 1].sh.open
    ensures run[k].reqs[i].kind.Terminate? && i == run[k].sh.served
    ensures run[k].sh.readers == 0 && run[k].sh.writers == 0
    ensures forall j :: 0 <= j < i ==> Complete(run[k].reqs[j])
  {
    RunInv(run, k);
    RunMoves(run[k], i);
    QuietMeansComplete(run[k]);
  }

  /** When no-senders frees the object, no read or write is in progress, so pager_dealloc needs
      no lock; and no message ever makes a handler panic.  A handler that has had its effect may still have
      its broadcast to make. */
  lemma FreeingIsAlone(run: seq<State>, k: nat, i: nat)
    requires IsRun(run) && k < |run| && i < |run[k].reqs|
    ensures !run[k].reqs[i].pc.Panicked?
    ensures run[k].reqs[i].pc.Freeing? ==>
              && run[k].sh.readers == 0 && run[k].sh.writers == 0
              && i == |run[k].reqs| - 1
              && forall j :: 0 <= j < i ==> Complete(run[k].reqs[j])
  {
    RunInv(run, k);
    var s := run[k];
    assert Fits(s.sh, i, s.reqs[i]);
    if s.reqs[i].pc.Freeing? {
      assert !s.sh.open by { assert Permitted(OpenAfter(s.open0, s.reqs[..i]), s.reqs[i].kind); }
      QuietMeansComplete(s);
    }
  }

  lemma FreedStep(s: State, a: Action)
    requires AllFit(s) && Enabled(s, a) && Freed(Apply(s, a)) && (Freed(s) ==> ListFree(s.sh))
    ensures ListFree(Apply(s, a).sh)
  {
    var i := |s.reqs| - 1;
    if a.Run? { assert Fits(s.sh, i, s.reqs[i]); }
  }

  lemma FreedFollows(s: State, t: State)
    requires AllFit(s) && Follows(s, t) && Freed(t) && (Freed(s) ==> ListFree(s.sh))
    ensures ListFree(t.sh)
  {
    var a :| Enabled(s, a) && t == Apply(s, a);
    FreedStep(s, a);
  }

  lemma RunFits(run: seq<State>, k: nat)
    requires IsRun(run) && k < |run|
    ensures AllFit(run[k])
  {
    RunInv(run, k);
  }

  lemma StartNotFreed(run: seq<State>)
    requires IsRun(run)
    ensures !Freed(run[0])
  {
  }

  /** Freed objects are off the list. */
  predicate OffList(s: State) { Freed(s) ==> ListFree(s.sh) }

  lemma OffListFollows(s: State, t: State)
    requires AllFit(s) && Follows(s, t) && OffList(s)
    ensures OffList(t)
  {
    if Freed(t) { FreedFollows(s, t); }
  }

  lemma {:induction false} FreedIsOffList(run: seq<State>, k: nat)
    requires IsRun(run) && k < |run|
    ensures OffList(run[k])
  {
    if k == 0 {
      StartNotFreed(run);
    } else {
      RunFits(run, k - 1);
      FreedIsOffList(run, k - 1);
      OffListFollows(run[k - 1], run[k]);
    }
  }

  /** What can still happen to a freed object. */
  lemma FreedTouched(s: State)
    requires Inv(s) && Freed(s) && ListFree(s.sh)
    ensures (exists a :: Enabled(s, a)) <==> exists j :: 0 <= j < |s.reqs| && !s.reqs[j].pc.Done?
  {
    var i := |s.reqs| - 1;
    assert Fits(s.sh, i, s.reqs[i]);
    assert !s.sh.open by { assert Permitted(OpenAfter(s.open0, s.reqs[..i]), s.reqs[i].kind); }
    QuietMeansComplete(s);
    forall j | 0 <= j < |s.reqs| && !s.reqs[j].pc.Done? ensures Enabled(s, Run(j)) {
      assert Complete(s.reqs[j]);
    }
    if a :| Enabled(s, a) {
      assert a.Run? && !s.reqs[a.id].pc.Done?;
    }
  }

  /** In every run: something can still happen to the freed object exactly while some earlier request is not
      done, that is, has not yet made its broadcast. */
  lemma TouchedAfterFreeing(run: seq<State>, k: nat)
    requires IsRun(run) && k < |run| && Freed(run[k])
    ensures (exists a :: Enabled(run[k], a)) <==> exists j :: 0 <= j < |run[k].reqs| && !run[k].reqs[j].pc.Done?
  {
    RunInv(run, k);
    FreedIsOffList(run, k);
    FreedTouched(run[k]);
  }

  /** Freeing is the last step that touches the object if and only if every earlier request is done by then. */
  lemma FreeingIsLast(run: seq<State>, k: nat, i: nat)
    requires IsRun(run) && k < |run| && i < |run[k].reqs| && run[k].reqs[i].pc.Freeing? && Enabled(run[k], Run(i))
    ensures (forall a :: !Enabled(Apply(run[k], Run(i)), a)) <==> forall j :: 0 <= j < i ==> run[k].reqs[j].pc.Done?
  {
    RunInv(run, k);
    FreeingIsAlone(run, k, i);
    FreeingLeaves(run[k], i);
  }

  lemma FreeingLeaves(s: State, i: nat)
    requires Inv(s) && i == |s.reqs| - 1 && s.reqs[i].pc.Freeing? && Enabled(s, Run(i))
    ensures (forall a :: !Enabled(Apply(s, Run(i)), a)) <==> forall j :: 0 <= j < i ==> s.reqs[j].pc.Done?
  {
    var t := Apply(s, Run(i));
    assert Fits(s.sh, i, s.reqs[i]);
    assert t == s.(reqs := s.reqs[i := Req(NoSenders, Done)]);
    StepKeepsInv(s, Run(i));
    FreedTouched(t);
    assert forall j :: 0 <= j < i ==> t.reqs[j] == s.reqs[j];
  }

  ghost predicate Reachable(s: State) { exists run :: IsRun(run) && run[|run| - 1] == s }

  lemma Reach(s: State, a: Action, t: State)
    requires Reachable(s) && Enabled(s, a) && t == Apply(s, a)
    ensures Reachable(t)
  {
    var run :| IsRun(run) && run[|run| - 1] == s;
    var longer := run + [t];
    forall k | 0 <= k < |longer| - 1 ensures Follows(longer[k], longer[k + 1]) {
      assert k < |run| - 1 ==> Follows(run[k], run[k + 1]);
    }
    assert IsRun(longer);
  }

  /** One step of request `i` from a reachable state. */
  lemma ReachRun(s: State, i: nat, sh: Shared, pc: Pc) returns (t: State)
    requires Reachable(s) && i < |s.reqs| && ReqEnabled(s.sh, i, s.reqs[i])
    requires ReqStep(s.sh, i, s.reqs[i]) == (sh, pc) && (s.reqs[i].pc.Freeing? ==> ListFree(s.sh))
    ensures Reachable(t) && t == State(sh, s.reqs[i := Req(s.reqs[i].kind, pc)], s.open0)
  {
    t := Apply(s, Run(i));
    Reach(s, Run(i), t);
  }

  /** The request that is next and finds everything quiet. */
  predicate Next(s: State, i: nat, kind: Kind) {
    && i < |s.reqs| && i == s.sh.served && s.sh.seqno == i % SEQ_MOD && s.sh.lock.Free?
    && s.reqs[i] == Req(kind, WantLock) && s.sh.readers == 0 && s.sh.writers == 0
  }

  lemma PastCheck(s: State, i: nat, kind: Kind) returns (t: State)
    requires Reachable(s) && Next(s, i, kind)
    ensures Reachable(t) && t == State(s.sh.(lock := ByReq(i)), s.reqs[i := Req(kind, FirstPc(kind))], s.open0)
  {
    t := ReachRun(s, i, s.sh.(lock := ByReq(i)), Checking);
    t := ReachRun(t, i, t.sh, FirstPc(kind));
    assert s.reqs[i := Req(kind, Checking)][i := Req(kind, FirstPc(kind))] == s.reqs[i := Req(kind, FirstPc(kind))];
  }

  lemma ReadStarts(s: State, i: nat) returns (t: State)
    requires Reachable(s) && Next(s, i, Read) && s.sh.requestRefs < MAX_UREFS
    ensures Reachable(t) && t.reqs == s.reqs[i := Req(Read, BcastSeqno)] && t.open0 == s.open0
    ensures t.sh == Leave(s.sh).(requestRefs := s.sh.requestRefs + 1, readers := 1)
  {
    t := PastCheck(s, i, Read);
    t := ReachRun(t, i, t.sh.(requestRefs := t.sh.requestRefs + 1), TestWriters);
    t := ReachRun(t, i, Leave(t.sh).(readers := 1), BcastSeqno);
  }

  /** A read that runs until it has counted itself out. */
  lemma ReadWithdraws(s: State, i: nat) returns (t: State)
    requires Reachable(s) && Next(s, i, Read) && s.sh.requestRefs < MAX_UREFS
    ensures Reachable(t) && t.reqs == s.reqs[i := Req(Read, BcastReaders)] && t.open0 == s.open0
    ensures t.sh == Broadcast(Leave(s.sh).(requestRefs := s.sh.requestRefs + 1), OnSeqno)
  {
    t := ReadStarts(s, i);
    t := ReachRun(t, i, Broadcast(t.sh, OnSeqno), Working);
    t := ReachRun(t, i, t.sh.(readers := 0), BcastReaders);
  }

  lemma TerminateTests(s: State, i: nat) returns (t: State)
    requires Reachable(s) && Next(s, i, Terminate)
    ensures Reachable(t) && t.reqs == s.reqs[i := Req(Terminate, TestRefs)] && t.open0 == s.open0
    ensures t.sh == s.sh.(lock := ByReq(i))
  {
    t := PastCheck(s, i, Terminate);
    t := ReachRun(t, i, t.sh, TestWriters);
    t := ReachRun(t, i, t.sh, TestRefs);
  }

  lemma TerminateEnds(s: State, i: nat) returns (t: State)
    requires Reachable(s) && Next(s, i, Terminate) && s.sh.nameRefs != 0
    ensures Reachable(t) && t.reqs == s.reqs[i := Req(Terminate, Done)] && t.open0 == s.open0
    ensures t.sh == Broadcast(Leave(s.sh).(open := false, requestRefs := 0, nameRefs := 0), OnSeqno)
  {
    t := TerminateTests(s, i);
    t := ReachRun(t, i, Leave(t.sh).(open := false, requestRefs := 0, nameRefs := 0), BcastSeqno);
    t := ReachRun(t, i, Broadcast(t.sh, OnSeqno), Done);
  }

  lemma NoSendersEnds(s: State, i: nat) returns (t: State)
    requires Reachable(s) && Next(s, i, NoSenders) && !s.sh.open && s.sh.lister.LIdle?
    ensures Reachable(t) && t.reqs == s.reqs[i := Req(NoSenders, Done)] && t.sh == s.sh
  {
    t := PastCheck(s, i, NoSenders);
    t := ReachRun(t, i, t.sh.(lock := Free), Freeing);
    t := ReachRun(t, i, t.sh, Done);
  }

  lemma ReadAlone() returns (s: State)
    ensures Reachable(s) && s.reqs == [Req(Read, BcastReaders)] && s.open0
    ensures s.sh == Shared(1, 1, Free, 0, 0, 2, 1, true, Queues({}, {}, {}, {}), LIdle)
  {
    s := Start(true);
    assert IsRun([s]);
    s := Arrived(s, Read);
    s := ReadWithdraws(s, 0);
  }

  lemma TerminateAfterRead() returns (s: State)
    ensures Reachable(s) && s.reqs == [Req(Read, BcastReaders), Req(Terminate, Done)] && s.open0
    ensures s.sh == Shared(2, 2, Free, 0, 0, 0, 0, false, Queues({}, {}, {}, {}), LIdle)
  {
    s := ReadAlone();
    assert OpenAfter(true, s.reqs) by { assert s.reqs[..0] == []; }
    s := Arrived(s, Terminate);
    s := TerminateEnds(s, 1);
  }

  /** A run in which a reader has counted itself out and not yet broadcast, terminate and no-senders run to
      their ends, and the broadcast is then made on the freed object. */
  lemma LateBroadcast() returns (s: State)
    ensures Reachable(s) && Freed(s) && s.reqs[0] == Req(Read, BcastReaders) && Enabled(s, Run(0))
  {
    s := TerminateAfterRead();
    s := Arrived(s, NoSenders);
    s := NoSendersEnds(s, 2);
  }

  lemma Arrived(s: State, kind: Kind) returns (t: State)
    requires Reachable(s) && Enabled(s, Arrive(kind))
    ensures Reachable(t) && t == s.(reqs := s.reqs + [Req(kind, WantLock)])
  {
    t := Apply(s, Arrive(kind));
    Reach(s, Arrive(kind), t);
  }

  /** A step of a request, of the lister in mid-call, or of a holder releasing the lock. */
  predicate Progresses(s: State, a: Action) {
    Enabled(s, a) && (a.Run? || a.OtherUnlock? || (a.RunLister? && !s.sh.lister.LIdle?))
  }

  /** No deadlock: while some request is unfinished, somebody already at work can take a step. */
  lemma NeverStuck(run: seq<State>, k: nat, i: nat)
    requires IsRun(run) && k < |run| && i < |run[k].reqs| && !run[k].reqs[i].pc.Done?
    ensures exists a :: Progresses(run[k], a)
  {
    RunInv(run, k);
    Unstuck(run[k], i);
  }

  lemma Unstuck(s: State, i: nat)
    requires Inv(s) && i < |s.reqs| && !s.reqs[i].pc.Done?
    ensures exists a :: Progresses(s, a)
  {
    var j := Mover(s, i);
    assert Progresses(s, Run(j)) || Progresses(s, RunLister) || Progresses(s, OtherUnlock);
  }

  /** A request that is not done can run, unless it wants a lock it does not have or sleeps. */
  lemma RunsUnlessAsleep(sh: Shared, i: nat, r: Req)
    requires Fits(sh, i, r) && !r.pc.Done?
    ensures sh.lock == ByReq(i) ==> ReqEnabled(sh, i, r)
    ensures sh.lock.Free? && !ReqEnabled(sh, i, r) ==> r.pc.Asleep? && i in Queue(sh.q, r.pc.c)
  {
  }

  lemma Mover(s: State, i: nat) returns (j: nat)
    requires Inv(s) && i < |s.reqs| && !s.reqs[i].pc.Done?
    ensures (j < |s.reqs| && Enabled(s, Run(j))) || (ListerEnabled(s.sh) && !s.sh.lister.LIdle?) || s.sh.lock.ByOther?
  {
    j := i;
    assert Fits(s.sh, i, s.reqs[i]);
    RunsUnlessAsleep(s.sh, i, s.reqs[i]);
    if s.sh.lock.ByReq? {
      j := s.sh.lock.id;
      assert Fits(s.sh, j, s.reqs[j]);
      RunsUnlessAsleep(s.sh, j, s.reqs[j]);
    } else if s.sh.lock.Free? && !Enabled(s, Run(i)) && s.reqs[i].pc.Asleep? {
      j := Unblocker(s, i);
    }
  }

  lemma GateNotFreeing(s: State, i: nat)
    requires AllFit(s) && GoodStream(s.open0, s.reqs) && i < |s.reqs| && s.reqs[i].pc.Asleep?
    ensures s.sh.served < |s.reqs| && !s.reqs[s.sh.served].pc.Freeing?
  {
    var g := s.sh.served;
    assert Fits(s.sh, i, s.reqs[i]) && Fits(s.sh, g, s.reqs[g]);
    assert s.reqs[g].kind.NoSenders? ==> g == |s.reqs| - 1;
  }

  /** Behind a sleeping request is the request at the gate, and behind that one a broadcast, an
      operation in progress, or the lister. */
  lemma Unblocker(s: State, i: nat) returns (j: nat)
    requires AllFit(s) && NoLostWakeup(s) && Counts(s) && Refs(s.sh) && Streams(s)
    requires i < |s.reqs| && s.sh.lock.Free? && s.reqs[i].pc.Asleep?
    ensures (j < |s.reqs| && Enabled(s, Run(j))) || (ListerEnabled(s.sh) && !s.sh.lister.LIdle?)
  {
    var g := s.sh.served;
    assert Fits(s.sh, i, s.reqs[i]);
    assert Fits(s.sh, g, s.reqs[g]) && !s.reqs[g].pc.Done?;
    assert Permitted(OpenAfter(s.open0, s.reqs[..g]), s.reqs[g].kind);
    RunsUnlessAsleep(s.sh, g, s.reqs[g]);
    j := g;
    GateNotFreeing(s, i);
    if !Enabled(s, Run(g)) {
      j := Behind(s, g);
    }
  }

  lemma Behind(s: State, g: nat) returns (j: nat)
    requires NoLostWakeup(s) && Counts(s) && Refs(s.sh) && AllFit(s)
    requires g == s.sh.served < |s.reqs| && s.sh.lock.Free?
    requires s.reqs[g].pc.Asleep? && g in Queue(s.sh.q, s.reqs[g].pc.c)
    requires s.reqs[g].pc.c.OnRefs? ==> s.sh.open
    ensures (j < |s.reqs| && Enabled(s, Run(j))) || (ListerEnabled(s.sh) && !s.sh.lister.LIdle?)
  {
    j := g;
    match s.reqs[g].pc.c {
      case OnSeqno => j := g - 1;
      case OnReaders =>
        if s.sh.readers == 0 {
          j :| 0 <= j < |s.reqs| && s.reqs[j].pc == BcastReaders;
        } else {
          j :| j in Active(s.reqs, Read);
        }
      case OnWriters =>
        if s.sh.writers == 0 {
          j :| 0 <= j < |s.reqs| && s.reqs[j].pc == BcastWriters;
        } else {
          j :| j in Active(s.reqs, Write);
        }
      case OnRefs =>
    }
  }
}
