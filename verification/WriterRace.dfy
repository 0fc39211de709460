/** Threads that write pages of the same object (pager_write_offset and pager_extend in
    bootstrap/default_pager.c).  A writer that finds its page beyond the map drops the lock, and pager_extend
    takes it again; in between, other writers may have extended the map further. */
module WriterRace {

  import opened Options
  import opened PageMap

  /** Pages in max_doubled_size, 4 MB. */
  const LIMIT := 1024

  datatype Pc = Testing | Extending | Stored

  /** A thread that stores entry `e` for page `f`. */
  datatype Writer = Writer(f: nat, e: Entry, pc: Pc)

  datatype State = State(pages: seq<Entry>, writers: seq<Writer>)

  datatype Action = Test(t: nat) | Extend(t: nat)

  predicate Enabled(s: State, a: Action) {
    match a
    case Test(t) => t < |s.writers| && s.writers[t].pc.Testing?
    case Extend(t) => t < |s.writers| && s.writers[t].pc.Extending?
  }

  /** The map of size `n` that pager_extend leaves: a smaller one has room for fewer pages, and the loop that
      copies the old map has run past its end. */
  function Resized(pages: seq<Entry>, n: nat): seq<Entry> { if n >= |pages| then Grown(pages, n) else pages[..n] }

  function Apply(s: State, a: Action): State
    requires Enabled(s, a)
  {
    var w := s.writers[a.t];
    match a
    case Test(t) =>
      if w.f < |s.pages| then State(s.pages[w.f := w.e], s.writers[t := w.(pc := Stored)])
      else s.(writers := s.writers[t := w.(pc := Extending)])
    case Extend(t) =>
      State(if s.pages == [] then [] else Resized(s.pages, NewSize(|s.pages|, w.f + 1, LIMIT)),
            s.writers[t := w.(pc := Testing)])
  }

  /** The extension asks for no less, rounded up, than the map has by now. */
  predicate Guard(s: State, a: Action)
    requires Enabled(s, a)
  {
    a.Extend? ==> Grows(|s.pages|, s.writers[a.t].f + 1, LIMIT)
  }

  /** A step makes the map smaller if and only if the guard fails. */
  lemma ShrinksExactly(s: State, a: Action)
    requires GoodSize(|s.pages|) && Enabled(s, a)
    ensures |Apply(s, a).pages| >= |s.pages| <==> Guard(s, a)
    ensures GoodSize(|Apply(s, a).pages|)
  {
    if a.Extend? {
      NeverShrinks(|s.pages|, s.writers[a.t].f + 1, LIMIT);
      DoubledGood(|s.pages|, s.writers[a.t].f + 1);
    }
  }

  /** The guard can fail only if the page has come to be covered since the writer tested. */
  lemma GuardUnlessCovered(s: State, a: Action)
    requires GoodSize(|s.pages|) && Enabled(s, a)
    ensures s.writers[a.t].f >= |s.pages| ==> Guard(s, a)
    ensures s.writers[a.t].f < LIMIT ==> Guard(s, a)
  {
  }

  lemma KeepsPage(s: State, a: Action, f: nat)
    requires GoodSize(|s.pages|) && Enabled(s, a) && Guard(s, a) && f < |s.pages|
    requires s.writers[a.t].f != f
    ensures f < |Apply(s, a).pages| && Apply(s, a).pages[f] == s.pages[f]
  {
    ShrinksExactly(s, a);
    var t := Apply(s, a);
    if a.Extend? { assert t.pages[..|s.pages|][f] == s.pages[f]; }
  }

  predicate Follows(s: State, a: Action, t: State) { Enabled(s, a) && t == Apply(s, a) }

  predicate IsRun(run: seq<State>, acts: seq<Action>) {
    && |run| == |acts| + 1 && GoodSize(|run[0].pages|)
    && forall i :: 0 <= i < |acts| ==> Follows(run[i], acts[i], run[i + 1])
  }

  lemma {:induction false} SizesGood(run: seq<State>, acts: seq<Action>, i: nat)
    requires IsRun(run, acts) && i < |run|
    ensures GoodSize(|run[i].pages|)
  {
    if i > 0 {
      SizesGood(run, acts, i - 1);
      assert Follows(run[i - 1], acts[i - 1], run[i]);
      ShrinksExactly(run[i - 1], acts[i - 1]);
    }
  }

  predicate NotSmaller(run: seq<State>, i: nat)
    requires i + 1 < |run|
  {
    |run[i + 1].pages| >= |run[i].pages|
  }

  predicate Guarded(s: State, a: Action) { Enabled(s, a) && Guard(s, a) }

  /** In every run, with any number of writers: the map never gets smaller if and only if the guard holds at
      every extension, at the moment it is made. */
  lemma NeverSmallerExactly(run: seq<State>, acts: seq<Action>)
    requires IsRun(run, acts)
    ensures (forall i :: 0 <= i < |acts| ==> NotSmaller(run, i)) <==>
            forall i :: 0 <= i < |acts| ==> Guarded(run[i], acts[i])
  {
    forall i | 0 <= i < |acts| ensures NotSmaller(run, i) <==> Guarded(run[i], acts[i]) {
      SizesGood(run, acts, i);
      assert Follows(run[i], acts[i], run[i + 1]);
      ShrinksExactly(run[i], acts[i]);
    }
  }

  /** In every run in which the guard holds, an entry stays until somebody stores that page again. */
  lemma {:induction false} EntriesStay(run: seq<State>, acts: seq<Action>, i: nat, j: nat, f: nat)
    requires IsRun(run, acts) && i <= j < |run| && f < |run[i].pages|
    requires forall k :: i <= k < j ==> Guarded(run[k], acts[k]) && run[k].writers[acts[k].t].f != f
    ensures f < |run[j].pages| && run[j].pages[f] == run[i].pages[f]
    decreases j
  {
    if i < j {
      EntriesStay(run, acts, i, j - 1, f);
      SizesGood(run, acts, j - 1);
      assert Follows(run[j - 1], acts[j - 1], run[j]);
      KeepsPage(run[j - 1], acts[j - 1], f);
    }
  }

  function Empty(n: nat): seq<Entry> { seq(n, _ => None) }

  /** Two writers of pages 1100 and 2000 of a small object: both find their page beyond the map; the second
      extends it and stores its entry; the first then makes it smaller, and the entry of page 2000 is lost. */
  lemma EntryLost(b: Block) returns (run: seq<State>, acts: seq<Action>)
    ensures IsRun(run, acts) && |run| == 6 && |run[4].pages| == 2048 && run[4].pages[2000] == Some(b)
    ensures |run[5].pages| == 1152
  {
    var w0, w1 := Writer(1100, Some(b), Testing), Writer(2000, Some(b), Testing);
    var x0, x1 := w0.(pc := Extending), w1.(pc := Extending);
    var s0 := State(Empty(64), [w0, w1]);
    var s1 := State(Empty(64), [x0, w1]);
    var s2 := State(Empty(64), [x0, x1]);
    var s3 := State(Grown(Empty(64), 2048), [x0, w1]);
    var s4 := State(Grown(Empty(64), 2048)[2000 := Some(b)], [x0, w1.(pc := Stored)]);
    acts := [Test(0), Test(1), Extend(1), Test(1), Extend(0)];
    assert Follows(s0, Test(0), s1) && Follows(s1, Test(1), s2) && Follows(s2, Extend(1), s3)
           && Follows(s3, Test(1), s4);
    run := [s0, s1, s2, s3, s4, Apply(s4, Extend(0))];
    forall i | 0 <= i < 5 ensures Follows(run[i], acts[i], run[i + 1]) {}
  }
}
