/** The per-port slot limit of libthreads/cprocs.c: cthread_msg_busy, cthread_msg_active and
    cthread_mach_msg share one entry per port, with a count of held slots and a queue.  A section
    under the entry's lock is one step; the lock is dropped while a message is sent. */
module PortSlots {

  import opened Options
  import opened Queues

  /** struct port_entry; `min` and `max` are those of the call that created it. */
  datatype Entry = Entry(min: int, max: int, held: int, queue: seq<nat>)

  /** Where cthread_mach_msg goes on after giving up another port's slot. */
  datatype Goal = Goal(port: nat, max: int, send: bool)

  datatype Pc =
    | User
    | Releasing(port: nat, next: Option<Goal>)   // cthread_msg_busy, before the entry's lock
    | Passing(to: nat, next: Option<Goal>)       // cproc_ready(new) still to come
    | Activating(port: nat)                      // cthread_msg_active, before the entry's lock
    | Want(goal: Goal)                           // cthread_mach_msg, before the entry's lock
    | Sending(port: nat, max: int)               // lock dropped around mach_msg
    | Queued(port: nat)
    | Handed(port: nat, giver: nat)              // dequeued by `giver`, not yet made ready
    | Granted(port: nat)                         // has a slot, p->busy not yet set

  datatype Thread = Thread(pc: Pc, busy: Option<nat>)

  datatype State = State(entries: map<nat, Entry>, threads: seq<Thread>)

  datatype Action =
    | MachMsg(k: nat, port: nat, min: int, max: int, send: bool)
    | MsgBusy(k: nat, port: nat, min: int, max: int)
    | MsgActive(k: nat, port: nat, min: int, max: int)
    | Go(k: nat, sent: bool)    // the next step of thread k; `sent` is the outcome of mach_msg

  /** get_port_entry: the parameters count only when the port is new. */
  function WithEntry(entries: map<nat, Entry>, port: nat, min: int, max: int): map<nat, Entry> {
    if port in entries then entries else entries[port := Entry(min, max, 0, [])]
  }

  /** The thread has a next step of its own. */
  predicate CanGo(s: State, pc: Pc) {
    match pc
    case User => false
    case Queued(p) => false
    case Handed(p, giver) => false
    case Releasing(p, next) => p in s.entries
    case Activating(p) => p in s.entries
    case Want(g) => g.port in s.entries
    case Sending(p, max) => p in s.entries
    case Granted(p) => true
    case Passing(to, next) => to < |s.threads|
  }

  predicate Enabled(s: State, a: Action) {
    a.k < |s.threads| && if a.Go? then CanGo(s, s.threads[a.k].pc) else s.threads[a.k].pc.User?
  }

  function Onward(next: Option<Goal>): Pc { if next.Some? then Want(next.value) else User }

  /** cthread_mach_msg under the lock, once it can no longer send first: a slot, or the queue. */
  function Claim(e: Entry, k: nat, port: nat, max: int): (Entry, Pc) {
    if e.held >= max then (e.(queue := [k] + e.queue), Queued(port)) else (e.(held := e.held + 1), Granted(port))
  }

  function Put(s: State, k: nat, t: Thread): State
    requires k < |s.threads|
  {
    s.(threads := s.threads[k := t])
  }

  function PutBoth(s: State, k: nat, t: Thread, port: nat, e: Entry): State
    requires k < |s.threads|
  {
    State(s.entries[port := e], s.threads[k := t])
  }

  /** cthread_msg_busy under the lock: hand the slot over when at most `min` are held, else drop it. */
  function Release(s: State, k: nat, port: nat, next: Option<Goal>): State
    requires k < |s.threads| && port in s.entries
  {
    var e := s.entries[port];
    if e.held <= e.min && e.queue != [] then
      var heir := e.queue[0];
      var r := PutBoth(s, k, Thread(Passing(heir, next), None), port, e.(queue := e.queue[1..]));
      if heir < |s.threads| && heir != k then Put(r, heir, s.threads[heir].(pc := Handed(port, k))) else r
    else PutBoth(s, k, Thread(Onward(next), None), port, e.(held := e.held - 1))
  }

  function Step(s: State, k: nat, sent: bool): State
    requires Enabled(s, Go(k, sent))
  {
    var t := s.threads[k];
    match t.pc
    case Releasing(port, next) => Release(s, k, port, next)
    case Passing(to, next) =>
      var r := Put(s, k, t.(pc := Onward(next)));
      if to != k && s.threads[to].pc.Handed? then Put(r, to, s.threads[to].(pc := Granted(s.threads[to].pc.port)))
      else r
    case Activating(port) =>
      var e := s.entries[port];
      if e.held < e.max then PutBoth(s, k, Thread(User, Some(port)), port, e.(held := e.held + 1))
      else Put(s, k, t.(pc := User))
    case Want(g) =>
      var e := s.entries[g.port];
      if e.held >= g.max && g.send then Put(s, k, t.(pc := Sending(g.port, g.max)))
      else var (e', pc') := Claim(e, k, g.port, g.max); PutBoth(s, k, t.(pc := pc'), g.port, e')
    case Sending(port, max) =>
      if !sent then Put(s, k, t.(pc := User))
      else var (e', pc') := Claim(s.entries[port], k, port, max); PutBoth(s, k, t.(pc := pc'), port, e')
    case Granted(port) => Put(s, k, Thread(User, Some(port)))
  }

  function Apply(s: State, a: Action): State
    requires Enabled(s, a)
  {
    match a
    case MachMsg(k, port, min, max, send) =>
      var t := s.threads[k];
      var s' := s.(entries := WithEntry(s.entries, port, min, max));
      if t.busy == Some(port) then s'
      else if t.busy.Some? then Put(s', k, t.(pc := Releasing(t.busy.value, Some(Goal(port, max, send)))))
      else Put(s', k, t.(pc := Want(Goal(port, max, send))))
    case MsgBusy(k, port, min, max) =>
      var t := s.threads[k];
      if t.busy.None? then s
      else Put(s.(entries := WithEntry(s.entries, port, min, max)), k, t.(pc := Releasing(port, None)))
    case MsgActive(k, port, min, max) =>
      var t := s.threads[k];
      if t.busy.Some? then s
      else Put(s.(entries := WithEntry(s.entries, port, min, max)), k, t.(pc := Activating(port)))
    case Go(k, sent) => Step(s, k, sent)
  }

  // ---------------------------------------------------------------- invariant

  /** The thread owns a slot of `port` or is being handed one. */
  predicate Owns(t: Thread, port: nat) {
    t.busy == Some(port) || (t.pc.Handed? && t.pc.port == port) || (t.pc.Granted? && t.pc.port == port)
  }

  function Owners(threads: seq<Thread>, port: nat): set<nat> { set k: nat | k < |threads| && Owns(threads[k], port) }

  /** Ports a thread is at work on have entries; a busy thread is in user code or giving up that slot. */
  predicate ThreadOk(entries: map<nat, Entry>, threads: seq<Thread>, k: nat, t: Thread) {
    && (t.busy.Some? ==> t.busy.value in entries && (t.pc.User? || (t.pc.Releasing? && t.pc.port == t.busy.value)))
    && match t.pc
       case User => true
       case Releasing(p, next) => t.busy == Some(p) && (next.Some? ==> next.value.port in entries)
       case Passing(to, next) =>
         && to < |threads| && to != k && threads[to].pc.Handed? && threads[to].pc.giver == k
         && (next.Some? ==> next.value.port in entries)
       case Activating(p) => p in entries
       case Want(g) => g.port in entries
       case Sending(p, m) => p in entries
       case Queued(p) => p in entries
       case Handed(p, giver) => p in entries && giver < |threads| && threads[giver].pc.Passing?
         && threads[giver].pc.to == k
       case Granted(p) => p in entries
  }

  /** The queue holds exactly the threads that wait for the port, once each. */
  predicate QueueOk(q: seq<nat>, threads: seq<Thread>, port: nat) {
    && NoDups(q)
    && (forall k :: k in q ==> k < |threads| && threads[k].pc == Queued(port))
    && (forall k :: 0 <= k < |threads| && threads[k].pc == Queued(port) ==> k in q)
  }

  predicate EntryOk(e: Entry, threads: seq<Thread>, port: nat) {
    e.held == |Owners(threads, port)| && QueueOk(e.queue, threads, port)
  }

  predicate Inv(s: State) {
    && (forall k :: 0 <= k < |s.threads| ==> ThreadOk(s.entries, s.threads, k, s.threads[k]))
    && (forall p :: p in s.entries ==> EntryOk(s.entries[p], s.threads, p))
  }

  /** cthread_msg_busy names the port whose slot the caller has, if it has one. */
  predicate Disciplined(s: State, a: Action) {
    a.MsgBusy? && a.k < |s.threads| && s.threads[a.k].busy.Some? ==> s.threads[a.k].busy == Some(a.port)
  }

  // ---------------------------------------------------------------- preservation

  lemma OwnersUpdate(threads: seq<Thread>, k: nat, t: Thread, port: nat)
    requires k < |threads|
    ensures |Owners(threads[k := t], port)| + Bit(Owns(threads[k], port))
            == |Owners(threads, port)| + Bit(Owns(t, port))
  {
    var threads' := threads[k := t];
    assert Owners(threads', port) - {k} == Owners(threads, port) - {k};
    CardWithout(Owners(threads, port), k);
    CardWithout(Owners(threads', port), k);
  }

  /** A thread's move that involves no hand-over. */
  predicate Plain(pc: Pc) { !pc.Passing? && !pc.Handed? }

  /** `k` moves from `t` to `t'` and the entry of `port` becomes `e'`. */
  ghost predicate GoodMove(e: Entry, k: nat, t: Thread, t': Thread, port: nat, e': Entry) {
    && Plain(t.pc) && Plain(t'.pc) && !t.pc.Queued?
    && e'.held + Bit(Owns(t, port)) == e.held + Bit(Owns(t', port))
    && (forall p: nat :: p != port ==> (Owns(t, p) <==> Owns(t', p)))
    && e'.queue == (if t'.pc.Queued? then [k] + e.queue else e.queue)
    && (t'.pc.Queued? ==> t'.pc.port == port)
  }

  lemma QueueMove(q: seq<nat>, threads: seq<Thread>, k: nat, t': Thread, p: nat)
    requires QueueOk(q, threads, p) && k < |threads| && !threads[k].pc.Queued?
    ensures QueueOk(if t'.pc == Queued(p) then [k] + q else q, threads[k := t'], p)
  {
    assert k !in q;
  }

  lemma MoveEntry(s: State, k: nat, t': Thread, port: nat, e': Entry, p: nat)
    requires k < |s.threads| && port in s.entries && p in s.entries && EntryOk(s.entries[p], s.threads, p)
    requires GoodMove(s.entries[port], k, s.threads[k], t', port, e')
    ensures EntryOk(s.entries[port := e'][p], s.threads[k := t'], p)
  {
    OwnersUpdate(s.threads, k, t', p);
    QueueMove(s.entries[p].queue, s.threads, k, t', p);
  }

  lemma OtherOk(entries: map<nat, Entry>, entries': map<nat, Entry>, threads: seq<Thread>, k: nat, t': Thread, j: nat)
    requires k < |threads| && j < |threads| && j != k && Plain(threads[k].pc) && Plain(t'.pc)
    requires ThreadOk(entries, threads, j, threads[j]) && entries.Keys <= entries'.Keys
    ensures ThreadOk(entries', threads[k := t'], j, threads[j])
  {
  }

  lemma PlainMove(s: State, k: nat, t': Thread, port: nat, e': Entry)
    requires Inv(s) && k < |s.threads| && port in s.entries
    requires GoodMove(s.entries[port], k, s.threads[k], t', port, e')
    requires ThreadOk(s.entries, s.threads, k, t')
    ensures Inv(PutBoth(s, k, t', port, e'))
  {
    var r := PutBoth(s, k, t', port, e');
    forall j | 0 <= j < |r.threads| ensures ThreadOk(r.entries, r.threads, j, r.threads[j]) {
      if j != k { OtherOk(s.entries, r.entries, s.threads, k, t', j); }
    }
    forall p | p in r.entries ensures EntryOk(r.entries[p], r.threads, p) { MoveEntry(s, k, t', port, e', p); }
  }

  /** A move that leaves every entry alone. */
  lemma QuietMove(s: State, k: nat, t': Thread)
    requires Inv(s) && k < |s.threads| && Plain(s.threads[k].pc) && Plain(t'.pc)
    requires !s.threads[k].pc.Queued? && !t'.pc.Queued?
    requires forall p: nat :: Owns(s.threads[k], p) <==> Owns(t', p)
    requires ThreadOk(s.entries, s.threads, k, t')
    ensures Inv(Put(s, k, t'))
  {
    var r := Put(s, k, t');
    forall j | 0 <= j < |r.threads| ensures ThreadOk(r.entries, r.threads, j, r.threads[j]) {
      if j != k { OtherOk(s.entries, r.entries, s.threads, k, t', j); }
    }
    forall p | p in r.entries ensures EntryOk(r.entries[p], r.threads, p) {
      assert EntryOk(s.entries[p], s.threads, p);
      OwnersUpdate(s.threads, k, t', p);
    }
  }

  lemma NewEntry(s: State, port: nat, min: int, max: int)
    requires Inv(s)
    ensures Inv(s.(entries := WithEntry(s.entries, port, min, max)))
  {
    if port !in s.entries {
      forall k | 0 <= k < |s.threads| ensures !Owns(s.threads[k], port) && s.threads[k].pc != Queued(port) {
        assert ThreadOk(s.entries, s.threads, k, s.threads[k]);
      }
      assert Owners(s.threads, port) == {};
    }
  }

  /** Two threads change; the counts and queues of other ports do not notice. */
  lemma TwoThreads(e: Entry, threads: seq<Thread>, k: nat, t': Thread, heir: nat, h: Thread, p: nat)
    requires EntryOk(e, threads, p) && k < |threads| && heir < |threads| && heir != k
    requires !threads[k].pc.Queued? && !t'.pc.Queued? && threads[heir].pc != Queued(p) && !h.pc.Queued?
    requires Bit(Owns(t', p)) + Bit(Owns(h, p)) == Bit(Owns(threads[k], p)) + Bit(Owns(threads[heir], p))
    ensures EntryOk(e, threads[k := t'][heir := h], p)
  {
    OwnersUpdate(threads, k, t', p);
    OwnersUpdate(threads[k := t'], heir, h, p);
  }

  lemma PoppedEntry(e: Entry, threads: seq<Thread>, k: nat, t': Thread, heir: nat, h: Thread, port: nat)
    requires EntryOk(e, threads, port) && k < |threads| && e.queue != [] && e.queue[0] == heir
    requires threads[k].busy == Some(port) && !threads[k].pc.Queued? && !Owns(t', port) && !t'.pc.Queued?
    requires heir < |threads| && heir != k && !Owns(threads[heir], port) && Owns(h, port) && !h.pc.Queued?
    ensures EntryOk(e.(queue := e.queue[1..]), threads[k := t'][heir := h], port)
  {
    Dequeue(e.queue);
    OwnersUpdate(threads, k, t', port);
    OwnersUpdate(threads[k := t'], heir, h, port);
  }

  /** The threads after a hand-over from `k` to `heir`, or after `k` has made `heir` ready. */
  lemma PairOk(s: State, entries': map<nat, Entry>, k: nat, t': Thread, heir: nat, h: Thread, j: nat)
    requires j < |s.threads| && ThreadOk(s.entries, s.threads, j, s.threads[j]) && s.entries.Keys <= entries'.Keys
    requires k < |s.threads| && heir < |s.threads| && k != heir && j != k && j != heir
    requires Plain(s.threads[k].pc) || (s.threads[k].pc.Passing? && s.threads[k].pc.to == heir)
    requires Plain(s.threads[heir].pc) || (s.threads[heir].pc.Handed? && s.threads[heir].pc.giver == k)
    ensures ThreadOk(entries', s.threads[k := t'][heir := h], j, s.threads[j])
  {
  }

  /** Handing a slot over: the releaser drops out, the dequeued thread is counted instead. */
  lemma HandOver(s: State, k: nat, port: nat, next: Option<Goal>)
    requires Inv(s) && k < |s.threads| && s.threads[k] == Thread(Releasing(port, next), Some(port))
    requires port in s.entries && s.entries[port].queue != []
    ensures var heir := s.entries[port].queue[0]; heir < |s.threads| && heir != k
    ensures var heir := s.entries[port].queue[0];
            Inv(Put(PutBoth(s, k, Thread(Passing(heir, next), None), port,
              s.entries[port].(queue := s.entries[port].queue[1..])),
                    heir, s.threads[heir].(pc := Handed(port, k))))
  {
    var e := s.entries[port]; var heir := e.queue[0];
    assert EntryOk(e, s.threads, port) && heir in e.queue;
    var t' := Thread(Passing(heir, next), None);
    var h := s.threads[heir].(pc := Handed(port, k));
    var entries' := s.entries[port := e.(queue := e.queue[1..])];
    var threads' := s.threads[k := t'][heir := h];
    assert ThreadOk(s.entries, s.threads, heir, s.threads[heir]);
    assert ThreadOk(s.entries, s.threads, k, s.threads[k]);
    forall j | 0 <= j < |threads'| ensures ThreadOk(entries', threads', j, threads'[j]) {
      if j != k && j != heir { PairOk(s, entries', k, t', heir, h, j); }
    }
    forall p | p in s.entries ensures EntryOk(entries'[p], threads', p) {
      if p == port { PoppedEntry(e, s.threads, k, t', heir, h, port); }
      else { TwoThreads(s.entries[p], s.threads, k, t', heir, h, p); }
    }
  }

  /** cproc_ready of the thread handed a slot. */
  lemma PassOn(s: State, k: nat, sent: bool)
    requires Inv(s) && Enabled(s, Go(k, sent)) && s.threads[k].pc.Passing?
    ensures Inv(Step(s, k, sent))
  {
    var t := s.threads[k]; var heir := t.pc.to;
    assert ThreadOk(s.entries, s.threads, k, t);
    assert ThreadOk(s.entries, s.threads, heir, s.threads[heir]);
    var t' := t.(pc := Onward(t.pc.next));
    var h := s.threads[heir].(pc := Granted(s.threads[heir].pc.port));
    var threads' := s.threads[k := t'][heir := h];
    forall j | 0 <= j < |threads'| ensures ThreadOk(s.entries, threads', j, threads'[j]) {
      if j != k && j != heir { PairOk(s, s.entries, k, t', heir, h, j); }
    }
    forall p | p in s.entries ensures EntryOk(s.entries[p], threads', p) {
      TwoThreads(s.entries[p], s.threads, k, t', heir, h, p);
    }
  }

  lemma ReleaseInv(s: State, k: nat, sent: bool)
    requires Inv(s) && Enabled(s, Go(k, sent)) && s.threads[k].pc.Releasing?
    ensures Inv(Step(s, k, sent))
  {
    var t := s.threads[k]; var port, next := t.pc.port, t.pc.next;
    assert ThreadOk(s.entries, s.threads, k, t);
    var e := s.entries[port];
    if e.held <= e.min && e.queue != [] {
      HandOver(s, k, port, next);
    } else {
      assert Step(s, k, sent) == PutBoth(s, k, Thread(Onward(next), None), port, e.(held := e.held - 1));
      PlainMove(s, k, Thread(Onward(next), None), port, e.(held := e.held - 1));
    }
  }

  lemma ActivateInv(s: State, k: nat, sent: bool)
    requires Inv(s) && Enabled(s, Go(k, sent)) && s.threads[k].pc.Activating?
    ensures Inv(Step(s, k, sent))
  {
    var t, port := s.threads[k], s.threads[k].pc.port;
    assert ThreadOk(s.entries, s.threads, k, t);
    var e := s.entries[port];
    if e.held < e.max {
      var t', e' := Thread(User, Some(port)), e.(held := e.held + 1);
      assert forall p: nat :: p != port ==> (Owns(t, p) <==> Owns(t', p));
      assert Step(s, k, sent) == PutBoth(s, k, t', port, e');
      PlainMove(s, k, t', port, e');
    } else {
      QuietMove(s, k, t.(pc := User));
    }
  }

  lemma AskInv(s: State, k: nat, sent: bool)
    requires Inv(s) && Enabled(s, Go(k, sent)) && (s.threads[k].pc.Want? || s.threads[k].pc.Sending?)
    ensures Inv(Step(s, k, sent))
  {
    var t := s.threads[k];
    assert ThreadOk(s.entries, s.threads, k, t);
    match t.pc {
      case Want(g) =>
        if s.entries[g.port].held >= g.max && g.send { QuietMove(s, k, t.(pc := Sending(g.port, g.max))); }
        else { ClaimInv(s, k, g.port, g.max); }
      case Sending(port, max) =>
        if sent { ClaimInv(s, k, port, max); } else { QuietMove(s, k, t.(pc := User)); }
    }
  }

  lemma GrantInv(s: State, k: nat, sent: bool)
    requires Inv(s) && Enabled(s, Go(k, sent)) && s.threads[k].pc.Granted?
    ensures Inv(Step(s, k, sent))
  {
    assert ThreadOk(s.entries, s.threads, k, s.threads[k]);
    QuietMove(s, k, Thread(User, Some(s.threads[k].pc.port)));
  }

  lemma StepInv(s: State, k: nat, sent: bool)
    requires Inv(s) && Enabled(s, Go(k, sent))
    ensures Inv(Step(s, k, sent))
  {
    match s.threads[k].pc {
      case Releasing(port, next) => ReleaseInv(s, k, sent);
      case Passing(to, next) => PassOn(s, k, sent);
      case Activating(port) => ActivateInv(s, k, sent);
      case Want(g) => AskInv(s, k, sent);
      case Sending(port, max) => AskInv(s, k, sent);
      case Granted(port) => GrantInv(s, k, sent);
    }
  }

  lemma ClaimInv(s: State, k: nat, port: nat, max: int)
    requires Inv(s) && k < |s.threads| && port in s.entries && (s.threads[k].pc.Want? || s.threads[k].pc.Sending?)
    ensures var (e', pc') := Claim(s.entries[port], k, port, max);
            Inv(PutBoth(s, k, s.threads[k].(pc := pc'), port, e'))
  {
    var (e', pc') := Claim(s.entries[port], k, port, max);
    assert ThreadOk(s.entries, s.threads, k, s.threads[k]);
    PlainMove(s, k, s.threads[k].(pc := pc'), port, e');
  }

  lemma StepKeepsInv(s: State, a: Action)
    requires Inv(s) && Enabled(s, a) && Disciplined(s, a)
    ensures Inv(Apply(s, a))
  {
    if a.Go? {
      StepInv(s, a.k, a.sent);
    } else {
      NewEntry(s, a.port, a.min, a.max);
      var s' := s.(entries := WithEntry(s.entries, a.port, a.min, a.max));
      var t := s.threads[a.k];
      assert ThreadOk(s.entries, s.threads, a.k, t);
      match a {
        case MachMsg(k, port, min, max, send) =>
          if t.busy.None? { QuietMove(s', k, t.(pc := Want(Goal(port, max, send)))); }
          else if t.busy != Some(port) {
            QuietMove(s', k, t.(pc := Releasing(t.busy.value, Some(Goal(port, max, send)))));
          }
        case MsgBusy(k, port, min, max) =>
          if t.busy.Some? { QuietMove(s', k, t.(pc := Releasing(port, None))); }
        case MsgActive(k, port, min, max) =>
          if t.busy.None? { QuietMove(s', k, t.(pc := Activating(port))); }
      }
    }
  }

  // ---------------------------------------------------------------- limits

  predicate GoalWithin(g: Goal, port: nat, lo: int, hi: int) { g.port == port ==> lo <= g.max <= hi }

  predicate PcWithin(pc: Pc, port: nat, lo: int, hi: int) {
    match pc
    case Want(g) => GoalWithin(g, port, lo, hi)
    case Releasing(p, next) => next.Some? ==> GoalWithin(next.value, port, lo, hi)
    case Passing(to, next) => next.Some? ==> GoalWithin(next.value, port, lo, hi)
    case Sending(p, max) => p == port ==> lo <= max <= hi
    case _ => true
  }

  /** At least `lo` slots are held while anybody queues, and never more than `hi`. */
  predicate EntryWithin(e: Entry, lo: int, hi: int) {
    lo <= e.min && e.max <= hi && e.held <= hi && (e.queue != [] ==> lo <= e.held)
  }

  predicate Within(s: State, port: nat, lo: int, hi: int) {
    && (port in s.entries ==> EntryWithin(s.entries[port], lo, hi))
    && forall k :: 0 <= k < |s.threads| ==> PcWithin(s.threads[k].pc, port, lo, hi)
  }

  /** Every call that names the port passes a minimum of at least `lo` and a maximum from `lo` to `hi`. */
  predicate CallWithin(a: Action, port: nat, lo: int, hi: int) {
    !a.Go? && a.port == port ==> lo <= a.min && lo <= a.max <= hi
  }

  lemma GoEntryWithin(s: State, k: nat, sent: bool, port: nat, lo: int, hi: int)
    requires Enabled(s, Go(k, sent)) && PcWithin(s.threads[k].pc, port, lo, hi)
    requires port in s.entries && EntryWithin(s.entries[port], lo, hi)
    ensures port in Step(s, k, sent).entries && EntryWithin(Step(s, k, sent).entries[port], lo, hi)
  {
    match s.threads[k].pc {
      case Releasing(p, next) => case Passing(to, next) => case Activating(p) => case Want(g) =>
      case Sending(p, max) => case Granted(p) =>
    }
  }

  lemma GoPcWithin(s: State, k: nat, sent: bool, port: nat, lo: int, hi: int, j: nat)
    requires Enabled(s, Go(k, sent)) && PcWithin(s.threads[k].pc, port, lo, hi)
    requires j < |s.threads| && PcWithin(s.threads[j].pc, port, lo, hi)
    ensures |Step(s, k, sent).threads| == |s.threads| && PcWithin(Step(s, k, sent).threads[j].pc, port, lo, hi)
    ensures port !in s.entries ==> port !in Step(s, k, sent).entries
  {
    match s.threads[k].pc {
      case Releasing(p, next) => case Passing(to, next) => case Activating(p) => case Want(g) =>
      case Sending(p, max) => case Granted(p) =>
    }
  }

  lemma StepWithin(s: State, a: Action, port: nat, lo: int, hi: int)
    requires Enabled(s, a) && Within(s, port, lo, hi) && CallWithin(a, port, lo, hi) && hi >= 0
    ensures Within(Apply(s, a), port, lo, hi)
  {
    assert PcWithin(s.threads[a.k].pc, port, lo, hi);
    if a.Go? {
      if port in s.entries { GoEntryWithin(s, a.k, a.sent, port, lo, hi); }
      var t := Step(s, a.k, a.sent);
      GoPcWithin(s, a.k, a.sent, port, lo, hi, a.k);
      forall j | 0 <= j < |t.threads| ensures PcWithin(t.threads[j].pc, port, lo, hi) {
        GoPcWithin(s, a.k, a.sent, port, lo, hi, j);
      }
    }
  }

  // ---------------------------------------------------------------- whole runs

  predicate Start(s: State) {
    s.entries == map[] && forall k :: 0 <= k < |s.threads| ==> s.threads[k] == Thread(User, None)
  }

  predicate Follows(s: State, a: Action, t: State) { Enabled(s, a) && Disciplined(s, a) && t == Apply(s, a) }

  predicate IsRun(run: seq<State>, acts: seq<Action>) {
    && |run| == |acts| + 1 && Start(run[0])
    && forall i :: 0 <= i < |acts| ==> Follows(run[i], acts[i], run[i + 1])
  }

  lemma {:induction false} RunInv(run: seq<State>, acts: seq<Action>, i: nat)
    requires IsRun(run, acts) && i < |run|
    ensures Inv(run[i])
  {
    if i > 0 {
      RunInv(run, acts, i - 1);
      assert Follows(run[i - 1], acts[i - 1], run[i]);
      StepKeepsInv(run[i - 1], acts[i - 1]);
    }
  }

  lemma {:induction false} RunWithin(run: seq<State>, acts: seq<Action>, i: nat, port: nat, lo: int, hi: int)
    requires IsRun(run, acts) && i < |run| && hi >= 0
    requires forall j :: 0 <= j < |acts| ==> CallWithin(acts[j], port, lo, hi)
    ensures Within(run[i], port, lo, hi)
  {
    if i > 0 {
      RunWithin(run, acts, i - 1, port, lo, hi);
      assert Follows(run[i - 1], acts[i - 1], run[i]);
      StepWithin(run[i - 1], acts[i - 1], port, lo, hi);
    }
  }

  /** `held` counts the threads that own a slot of the port or are being handed one; it stays within
      the limits the callers give; and while threads queue, at least the minimum is held. */
  lemma SlotsCounted(run: seq<State>, acts: seq<Action>, i: nat, port: nat, lo: int, hi: int)
    requires IsRun(run, acts) && i < |run| && port in run[i].entries && hi >= 0
    requires forall j :: 0 <= j < |acts| ==> CallWithin(acts[j], port, lo, hi)
    ensures var e := run[i].entries[port];
            && e.held == |Owners(run[i].threads, port)| && e.held <= hi
            && (e.queue != [] ==> e.held >= lo)
  {
    RunInv(run, acts, i);
    RunWithin(run, acts, i, port, lo, hi);
    assert EntryOk(run[i].entries[port], run[i].threads, port);
  }

  /** With limits of at least one, some thread remains to hand its slot to a queued one. */
  lemma SomeoneHolds(run: seq<State>, acts: seq<Action>, i: nat, port: nat, lo: int, hi: int) returns (k: nat)
    requires IsRun(run, acts) && i < |run| && port in run[i].entries && 1 <= lo
    requires forall j :: 0 <= j < |acts| ==> CallWithin(acts[j], port, lo, hi)
    requires run[i].entries[port].queue != [] && hi >= 0
    ensures k < |run[i].threads| && Owns(run[i].threads[k], port)
  {
    SlotsCounted(run, acts, i, port, lo, hi);
    assert Owners(run[i].threads, port) != {};
    k :| k in Owners(run[i].threads, port);
  }

  // ---------------------------------------------------------------- when the limits are not met

  lemma ReleaserCounted(s: State, k: nat)
    requires Inv(s) && k < |s.threads| && s.threads[k].pc.Releasing?
    ensures s.threads[k].pc.port in s.entries && s.entries[s.threads[k].pc.port].held >= 1
  {
    var port := s.threads[k].pc.port;
    assert ThreadOk(s.entries, s.threads, k, s.threads[k]);
    assert EntryOk(s.entries[port], s.threads, port);
    assert k in Owners(s.threads, port);
  }

  predicate WaitsAtZero(s: State, port: nat, k: nat) {
    k < |s.threads| && s.threads[k].pc == Queued(port) && port in s.entries && s.entries[port].min <= 0
  }

  lemma ReleasePassesBy(s: State, j: nat, port: nat, k: nat)
    requires Inv(s) && WaitsAtZero(s, port, k) && j < |s.threads| && s.threads[j].pc.Releasing?
    requires s.threads[j].pc.port in s.entries
    ensures WaitsAtZero(Release(s, j, s.threads[j].pc.port, s.threads[j].pc.next), port, k)
  {
    var p := s.threads[j].pc.port;
    ReleaserCounted(s, j);
    assert EntryOk(s.entries[p], s.threads, p);
    if s.entries[p].queue != [] { assert s.entries[p].queue[0] in s.entries[p].queue; }
  }

  lemma StaysQueued(s: State, a: Action, port: nat, k: nat)
    requires Inv(s) && Enabled(s, a) && WaitsAtZero(s, port, k)
    ensures WaitsAtZero(Apply(s, a), port, k)
  {
    if a.Go? {
      var pc := s.threads[a.k].pc;
      assert ThreadOk(s.entries, s.threads, a.k, s.threads[a.k]);
      match pc {
        case Releasing(p, next) => ReleasePassesBy(s, a.k, port, k);
        case Passing(to, next) => case Activating(p) => case Want(g) =>
        case Sending(p, max) => case Granted(p) =>
      }
    }
  }

  lemma StillQueued(run: seq<State>, acts: seq<Action>, j: nat, port: nat, k: nat)
    requires IsRun(run, acts) && j + 1 < |run| && WaitsAtZero(run[j], port, k)
    ensures WaitsAtZero(run[j + 1], port, k)
  {
    RunInv(run, acts, j);
    assert Follows(run[j], acts[j], run[j + 1]);
    StaysQueued(run[j], acts[j], port, k);
  }

  /** With a minimum of zero or less nobody ever hands a slot over: whoever queues stays queued. */
  lemma {:induction false} QueuedForever(run: seq<State>, acts: seq<Action>, i: nat, j: nat, port: nat, k: nat)
    requires IsRun(run, acts) && i <= j < |run| && WaitsAtZero(run[i], port, k)
    ensures WaitsAtZero(run[j], port, k)
    decreases j - i
  {
    if i < j {
      StillQueued(run, acts, i, port, k);
      QueuedForever(run, acts, i + 1, j, port, k);
    }
  }

  const IDLE := Thread(User, None)
  const GOAL := Goal(0, 1, false)

  /** Entry of port 0 with minimum 0 and maximum 1. */
  function Slot(held: int, queue: seq<nat>): map<nat, Entry> { map[0 := Entry(0, 1, held, queue)] }

  /** The first thread takes the slot. */
  lemma FirstTakes()
    ensures Follows(State(map[], [IDLE, IDLE]), MachMsg(0, 0, 0, 1, false),
            State(Slot(0, []), [Thread(Want(GOAL), None), IDLE]))
    ensures Follows(State(Slot(0, []), [Thread(Want(GOAL), None), IDLE]), Go(0, true),
            State(Slot(1, []), [Thread(Granted(0), None), IDLE]))
    ensures Follows(State(Slot(1, []), [Thread(Granted(0), None), IDLE]), Go(0, true),
            State(Slot(1, []), [Thread(User, Some(0)), IDLE]))
  {
  }

  /** The second thread queues. */
  lemma SecondQueues()
    ensures Follows(State(Slot(1, []), [Thread(User, Some(0)), IDLE]), MachMsg(1, 0, 0, 1, false),
                    State(Slot(1, []), [Thread(User, Some(0)), Thread(Want(GOAL), None)]))
    ensures Follows(State(Slot(1, []), [Thread(User, Some(0)), Thread(Want(GOAL), None)]), Go(1, true),
                    State(Slot(1, [1]), [Thread(User, Some(0)), Thread(Queued(0), None)]))
  {
    assert [1] + [] == [1];
  }

  /** The first thread gives its slot up. */
  lemma FirstLeaves()
    ensures Follows(State(Slot(1, [1]), [Thread(User, Some(0)), Thread(Queued(0), None)]), MsgBusy(0, 0, 0, 1),
                    State(Slot(1, [1]), [Thread(Releasing(0, None), Some(0)), Thread(Queued(0), None)]))
    ensures Follows(State(Slot(1, [1]), [Thread(Releasing(0, None), Some(0)), Thread(Queued(0), None)]), Go(0, true),
                    State(Slot(0, [1]), [IDLE, Thread(Queued(0), None)]))
  {
  }

  /** Two threads, minimum 0, maximum 1: the first takes the slot, the second queues, the first
      gives its slot up, and no slot is held although a thread is queued. */
  lemma StrandedWithoutMinimum() returns (run: seq<State>, acts: seq<Action>)
    ensures IsRun(run, acts)
    ensures var s := run[|run| - 1]; 0 in s.entries && s.entries[0].held == 0 && s.entries[0].queue == [1]
  {
    acts := [MachMsg(0, 0, 0, 1, false), Go(0, true), Go(0, true), MachMsg(1, 0, 0, 1, false), Go(1, true),
             MsgBusy(0, 0, 0, 1), Go(0, true)];
    run := [State(map[], [IDLE, IDLE]), State(Slot(0, []), [Thread(Want(GOAL), None), IDLE]),
            State(Slot(1, []), [Thread(Granted(0), None), IDLE]), State(Slot(1, []), [Thread(User, Some(0)), IDLE]),
            State(Slot(1, []), [Thread(User, Some(0)), Thread(Want(GOAL), None)]),
            State(Slot(1, [1]), [Thread(User, Some(0)), Thread(Queued(0), None)]),
            State(Slot(1, [1]), [Thread(Releasing(0, None), Some(0)), Thread(Queued(0), None)]),
            State(Slot(0, [1]), [IDLE, Thread(Queued(0), None)])];
    FirstTakes();
    SecondQueues();
    FirstLeaves();
  }

  /** A thread that asks for a slot while none is held, whether or not it has a message to send first, gets one if and
      only if its maximum is at least one; otherwise it queues with nobody to hand it one, once it has nothing left to
      send. */
  lemma QueuesAloneExactly(s: State, k: nat, sent: bool)
    requires Enabled(s, Go(k, sent)) && (s.threads[k].pc.Want? || (s.threads[k].pc.Sending? && sent))
    requires var pc := s.threads[k].pc; s.entries[if pc.Want? then pc.goal.port else pc.port].held == 0
    ensures var pc, t := s.threads[k].pc, Step(s, k, sent).threads[k];
            var port, max, send := if pc.Want? then pc.goal.port else pc.port,
                                   if pc.Want? then pc.goal.max else pc.max, pc.Want? && pc.goal.send;
            && (t.pc == Granted(port) <==> max >= 1) && (t.pc == Queued(port) <==> max <= 0 && !send)
            && (t.pc == Sending(port, max) <==> max <= 0 && send)
  {
  }

  /** No call that names the port allows a slot. */
  predicate NoMaximum(a: Action, port: nat) { !a.Go? && a.port == port ==> a.max <= 0 }

  lemma {:induction false} Lowest(acts: seq<Action>, port: nat) returns (lo: int)
    requires forall j :: 0 <= j < |acts| ==> NoMaximum(acts[j], port)
    ensures forall j :: 0 <= j < |acts| ==> CallWithin(acts[j], port, lo, 0)
  {
    lo := 0;
    if acts != [] {
      var n := |acts| - 1;
      lo := Lowest(acts[..n], port);
      if !acts[n].Go? && acts[n].min < lo { lo := acts[n].min; }
      if !acts[n].Go? && acts[n].max < lo { lo := acts[n].max; }
      assert NoMaximum(acts[n], port);
      forall j | 0 <= j < |acts| ensures CallWithin(acts[j], port, lo, 0) {
        if j < n { assert acts[j] == acts[..n][j]; }
      }
    }
  }

  /** With no maximum above zero nobody ever owns a slot. */
  lemma NeverOwned(run: seq<State>, acts: seq<Action>, i: nat, port: nat)
    requires IsRun(run, acts) && i < |run| && forall j :: 0 <= j < |acts| ==> NoMaximum(acts[j], port)
    ensures Owners(run[i].threads, port) == {}
  {
    RunInv(run, acts, i);
    if port in run[i].entries {
      var lo := Lowest(acts, port);
      SlotsCounted(run, acts, i, port, lo, 0);
    } else {
      forall k | 0 <= k < |run[i].threads| ensures !Owns(run[i].threads[k], port) {
        assert ThreadOk(run[i].entries, run[i].threads, k, run[i].threads[k]);
      }
    }
  }

  predicate Waits(s: State, port: nat, k: nat) { k < |s.threads| && s.threads[k].pc == Queued(port) }

  lemma UnownedRelease(s: State, j: nat, port: nat, k: nat)
    requires Inv(s) && Waits(s, port, k) && Owners(s.threads, port) == {} && j < |s.threads|
    requires s.threads[j].pc.Releasing? && s.threads[j].pc.port in s.entries
    ensures Waits(Release(s, j, s.threads[j].pc.port, s.threads[j].pc.next), port, k)
  {
    var p := s.threads[j].pc.port;
    assert ThreadOk(s.entries, s.threads, j, s.threads[j]) && j in Owners(s.threads, p);
    assert EntryOk(s.entries[p], s.threads, p);
    if s.entries[p].queue != [] { assert s.entries[p].queue[0] in s.entries[p].queue; }
  }

  lemma UnownedStays(s: State, a: Action, port: nat, k: nat)
    requires Inv(s) && Enabled(s, a) && Waits(s, port, k) && Owners(s.threads, port) == {}
    ensures Waits(Apply(s, a), port, k)
  {
    if a.Go? {
      assert ThreadOk(s.entries, s.threads, a.k, s.threads[a.k]);
      match s.threads[a.k].pc {
        case Releasing(p, next) => UnownedRelease(s, a.k, port, k);
        case Passing(to, next) => case Activating(p) => case Want(g) =>
        case Sending(p, max) => case Granted(p) =>
      }
    }
  }

  lemma UnownedNext(run: seq<State>, acts: seq<Action>, i: nat, port: nat, k: nat)
    requires IsRun(run, acts) && i + 1 < |run| && Waits(run[i], port, k)
    requires forall j :: 0 <= j < |acts| ==> NoMaximum(acts[j], port)
    ensures Waits(run[i + 1], port, k)
  {
    RunInv(run, acts, i);
    NeverOwned(run, acts, i, port);
    assert Follows(run[i], acts[i], run[i + 1]);
    UnownedStays(run[i], acts[i], port, k);
  }

  /** With no maximum above zero whoever queues stays queued, in any continuation. */
  lemma {:induction false} QueuedWithoutMaximum(run: seq<State>, acts: seq<Action>, i: nat, j: nat, port: nat, k: nat)
    requires IsRun(run, acts) && i <= j < |run| && Waits(run[i], port, k)
    requires forall n :: 0 <= n < |acts| ==> NoMaximum(acts[n], port)
    ensures Waits(run[j], port, k)
    decreases j - i
  {
    if i < j {
      UnownedNext(run, acts, i, port, k);
      QueuedWithoutMaximum(run, acts, i + 1, j, port, k);
    }
  }

  /** Minimum 1, maximum 0: the first thread to ask queues, and nobody holds a slot. */
  lemma StrandedWithoutMaximum() returns (run: seq<State>, acts: seq<Action>)
    ensures IsRun(run, acts)
    ensures var s := run[|run| - 1];
            0 in s.entries && s.entries[0].min == 1 && s.entries[0].queue == [0] && Owners(s.threads, 0) == {}
  {
    var ask := Thread(Want(Goal(0, 0, false)), None);
    acts := [MachMsg(0, 0, 1, 0, false), Go(0, true)];
    run := [State(map[], [IDLE]), State(map[0 := Entry(1, 0, 0, [])], [ask]),
            State(map[0 := Entry(1, 0, 0, [0])], [Thread(Queued(0), None)])];
    assert [0] + [] == [0];
    assert Follows(run[0], acts[0], run[1]) && Follows(run[1], acts[1], run[2]);
  }

  /** cthread_msg_busy gives the caller's slot back if and only if it names the port of that slot;
      naming another leaves a slot counted that nobody owns. */
  lemma BusyMustNameItsPort(s: State, k: nat, held: nat, port: nat, min: int, max: int)
    requires Inv(s) && k < |s.threads| && s.threads[k] == Thread(User, Some(held)) && held in s.entries
    ensures var s1 := Apply(s, MsgBusy(k, port, min, max));
            && Enabled(s1, Go(k, true))
            && var t := Apply(s1, Go(k, true));
               held in t.entries && (t.entries[held].held == |Owners(t.threads, held)| <==> port == held)
  {
    var s1 := Apply(s, MsgBusy(k, port, min, max));
    var t := Apply(s1, Go(k, true));
    if port == held {
      StepKeepsInv(s, MsgBusy(k, port, min, max));
      StepKeepsInv(s1, Go(k, true));
      assert EntryOk(t.entries[held], t.threads, held);
    } else {
      NewEntry(s, port, min, max);
      assert EntryOk(s.entries[held], s.threads, held);
      if port in s.entries && s.entries[port].queue != [] {
        assert EntryOk(s.entries[port], s.threads, port) && s.entries[port].queue[0] in s.entries[port].queue;
      }
      MisnamedRelease(s1, k, port, held);
      OwnersUpdate(s.threads, k, s1.threads[k], held);
    }
  }

  lemma MisnamedRelease(s: State, k: nat, port: nat, held: nat)
    requires k < |s.threads| && s.threads[k] == Thread(Releasing(port, None), Some(held)) && port != held
    requires port in s.entries && held in s.entries
    requires s.entries[port].queue != [] ==>
               s.entries[port].queue[0] < |s.threads| && s.threads[s.entries[port].queue[0]].pc == Queued(port)
    ensures var t := Release(s, k, port, None);
            held in t.entries && t.entries[held] == s.entries[held]
            && |Owners(t.threads, held)| + 1 == |Owners(s.threads, held)|
  {
    var e := s.entries[port];
    if e.held <= e.min && e.queue != [] {
      var heir := e.queue[0];
      OwnersUpdate(s.threads, k, Thread(Passing(heir, None), None), held);
      OwnersUpdate(s.threads[k := Thread(Passing(heir, None), None)], heir, s.threads[heir].(pc := Handed(port, k)),
        held);
    } else {
      OwnersUpdate(s.threads, k, Thread(User, None), held);
    }
  }
}
