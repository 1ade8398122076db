/** What the admission gate promises over whole runs: no slot is ever lost, no waiter is
    overtaken, and a waiter's delay is bounded by the queue ahead of it. */
module AdmissionFairness {
  import opened Admission

  /** A gate that starts empty is sound after any run. */
  lemma ReachableInv(c: Config, steps: seq<Step>)
    ensures Inv(c, Run(c, INITIAL, steps))
  {
    RunInv(c, INITIAL, steps);
  }

  /** Once every acquire call has returned and every lease that was handed out has been
      released, the gate is idle again and every slot ever granted has come back, however
      timeouts and cancellations raced the grants. */
  lemma QuiescentGateIsIdle(c: Config, steps: seq<Step>)
    ensures var s := Run(c, INITIAL, steps);
            s.suspended == {} && s.live !! s.held ==>
              s.active == 0 && s.waiters == [] && s.acquired == s.releases
              && s.sequence == s.handedOver + s.timedOut + s.cancelledPending
  {
    ReachableInv(c, steps);
    var s := Run(c, INITIAL, steps);
    FreshNumbers(c, s);
    assert s.suspended == {} && s.live !! s.held ==> s.live == {};
  }

  /** A timeout that races a grant keeps the slot: the caller gets the very lease the waiter was
      granted, still unreleased, and no timeout is counted.  One that meets no grant takes
      nothing from anybody: the waiter leaves the queue, the others stay in order with their
      outcomes, and no slot or lease moves. */
  lemma TimeoutKeepsTheSlot(c: Config, s: State, w: nat)
    requires Inv(c, s) && w in s.suspended
    ensures s.futures[w].Granted? ==>
              var (l, t) := (s.futures[w].lease, Next(c, s, Timeout(w)));
              && l in t.held && l in t.live && l !in s.held
              && t.active == s.active && t.live == s.live && t.timedOut == s.timedOut
              && t == Next(c, s, Wake(w))
    ensures !s.futures[w].Granted? ==>
              var t := Next(c, s, Timeout(w));
              && t.timedOut == s.timedOut + 1 && t.futures[w].Cancelled? && w !in t.suspended
              && t.active == s.active && t.live == s.live && t.held == s.held
              && t.acquired == s.acquired && t.releases == s.releases
              && |t.waiters| == |s.waiters| - 1 && Ascending(t.waiters)
              && (forall x :: x in t.waiters <==> x in s.waiters && x.sequence != w)
              && (forall k :: k in s.futures && k != w ==> k in t.futures && t.futures[k] == s.futures[k])
  {
    if s.futures[w].Granted? {
      GrantIsPrivate(c, s, w);
    } else {
      assert IsQueued(s.waiters, w);
      var x :| x in s.waiters && x.sequence == w;
      Removal(s.waiters, x);
    }
  }

  /** A cancellation that races a grant gives that lease back exactly once: the slot
      becomes free, or goes to the best request still waiting. */
  lemma CancelReturnsTheSlot(c: Config, s: State, w: nat)
    requires Inv(c, s) && w in s.suspended && s.futures[w].Granted?
    ensures var l := s.futures[w].lease;
            var t := Next(c, s, Cancel(w));
            && l in s.live && l !in t.live
            && t.releases == s.releases + 1 && t.cancelled == s.cancelled + 1
            && (s.waiters == [] ==> t.active == s.active - 1 && t.live == s.live - {l})
            && (s.waiters != [] ==>
                  && t.active == s.active
                  && t.futures == s.futures[Best(s.waiters).sequence := Granted(s.acquired)]
                  && t.live == s.live - {l} + {s.acquired})
  {
    FreshNumbers(c, s);
    GrantIsPrivate(c, s, w);
    CancelSteps(c, s, w);
  }

  /** A cancelled grant takes the same path as a release. */
  lemma CancelSteps(c: Config, s: State, w: nat)
    requires Inv(c, s) && w in s.suspended && s.futures[w].Granted?
    ensures var l := s.futures[w].lease;
            var m := s.(suspended := s.suspended - {w}, cancelled := s.cancelled + 1,
                        live := s.live - {l});
            Next(c, s, Cancel(w)) ==
              if s.waiters == [] then m.(active := m.active - 1, releases := m.releases + 1)
              else HandOver(m, Best(s.waiters).sequence)
  {
    var l := s.futures[w].lease;
    GrantIsPrivate(c, s, w);
    var m := s.(suspended := s.suspended - {w}, cancelled := s.cancelled + 1, live := s.live - {l});
    assert s.live == m.live + {l};
    ReleaseHandsOver(m);
  }

  lemma ReleaseSteps(c: Config, s: State, l: nat)
    requires Inv(c, s) && l in s.held && l in s.live
    ensures var m := s.(live := s.live - {l});
            Next(c, s, Release(l)) ==
              if s.waiters == [] then m.(active := m.active - 1, releases := m.releases + 1)
              else HandOver(m, Best(s.waiters).sequence)
  {
    var m := s.(live := s.live - {l});
    assert s.live == m.live + {l};
    ReleaseHandsOver(m);
  }

  // ---------------------------------------------------------------- no overtaking

  /** `x` gets its slot in this step. */
  ghost predicate GrantedBy(c: Config, s: State, step: Step, x: Waiter) {
    var t := Next(c, s, step);
    x in s.waiters && x.sequence in t.futures && t.futures[x.sequence].Granted?
  }

  /** What a step does to the queue: nothing, a handover to the best waiter, an arrival at
      the end, or the departure of one pending waiter. */
  datatype Change = Same | Served | Joined(waiter: Waiter) | Left(sequence: nat)

  ghost predicate Does(s: State, t: State, ch: Change) {
    match ch
    case Same =>
      t.waiters == s.waiters && t.futures == s.futures
      && (t.releases == s.releases || (s.waiters == [] && t.releases == s.releases + 1))
    case Served =>
      s.waiters != [] && t.releases == s.releases + 1
      && t.waiters == Without(s.waiters, Best(s.waiters).sequence)
      && t.futures == s.futures[Best(s.waiters).sequence := Granted(s.acquired)]
    case Joined(n) =>
      n.sequence == s.sequence && t.waiters == s.waiters + [n] && t.releases == s.releases
      && t.futures == s.futures[n.sequence := Pending]
    case Left(k) =>
      k in s.suspended && k in s.futures && s.futures[k].Pending? && t.releases == s.releases
      && t.waiters == Without(s.waiters, k) && t.futures == s.futures[k := Cancelled]
  }

  ghost function ChangeOf(c: Config, s: State, step: Step): Change {
    match step
    case Arrive(p) =>
      if Enter(c, s, p).sequence == s.sequence then Same
      else Joined(Waiter(Rank(p), s.sequence))
    case Wake(w) => Same
    case Timeout(w) =>
      if w in s.suspended && w in s.futures && !s.futures[w].Granted? then Left(w) else Same
    case Cancel(w) =>
      if w !in s.suspended || w !in s.futures then Same
      else if !s.futures[w].Granted? then Left(w)
      else if s.waiters == [] then Same else Served
    case Release(l) =>
      if l in s.held && l in s.live && s.waiters != [] then Served else Same
  }

  lemma StepChanges(c: Config, s: State, step: Step)
    requires Inv(c, s)
    ensures Does(s, Next(c, s, step), ChangeOf(c, s, step))
  {
    match step
    case Arrive(p) =>
    case Wake(w) =>
    case Timeout(w) =>
    case Cancel(w) =>
      if w in s.suspended && s.futures[w].Granted? { CancelSteps(c, s, w); }
    case Release(l) =>
      if l in s.held && l in s.live { ReleaseSteps(c, s, l); }
  }

  /** No waiter is overtaken: whoever is granted precedes, by priority and then by
      arrival, every other request that is waiting at that moment. */
  lemma NoOvertaking(c: Config, s: State, step: Step, x: Waiter, y: Waiter)
    requires Inv(c, s) && GrantedBy(c, s, step, x) && y in s.waiters && y != x
    ensures Before(x, y) && !Before(y, x)
    ensures y in Next(c, s, step).waiters && x !in Next(c, s, step).waiters
  {
    StepChanges(c, s, step);
    assert s.futures[x.sequence].Pending?;
    GrantedIsBest(s, Next(c, s, step), ChangeOf(c, s, step), x);
    Removal(s.waiters, x);
  }

  lemma GrantedIsBest(s: State, t: State, ch: Change, x: Waiter)
    requires Queue(s) && Does(s, t, ch) && x in s.waiters
    requires x.sequence in t.futures && t.futures[x.sequence].Granted?
    ensures ch.Served? && x == Best(s.waiters)
  {
    assert s.futures[x.sequence].Pending?;
    if ch.Served? { SameWaiter(s, x, Best(s.waiters)); }
  }

  lemma SameWaiter(s: State, x: Waiter, y: Waiter)
    requires Ascending(s.waiters) && x in s.waiters && y in s.waiters && x.sequence == y.sequence
    ensures x == y
  {
    var i :| 0 <= i < |s.waiters| && s.waiters[i] == x;
    var j :| 0 <= j < |s.waiters| && s.waiters[j] == y;
  }

  // ---------------------------------------------------------------- bounded waiting

  /** The requests that will be served before `w` if nothing more urgent arrives. */
  ghost function Ahead(ws: seq<Waiter>, w: Waiter): set<Waiter> {
    set x | x in ws && Before(x, w)
  }

  /** `w` stays, and nothing of strictly higher priority arrives. */
  ghost predicate Patient(step: Step, w: Waiter) {
    && step != Timeout(w.sequence)
    && step != Cancel(w.sequence)
    && (step.Arrive? ==> w.rank <= Rank(step.priority))
  }

  /** `w` has a slot, or every release so far has served somebody who was ahead of it. */
  ghost predicate Progress(s: State, w: Waiter, budget: int) {
    || (w.sequence in s.futures && s.futures[w.sequence].Granted?)
    || (w in s.waiters && |Ahead(s.waiters, w)| <= budget)
  }

  /** Serving anybody ahead of `w` shortens the line by one; serving nobody ahead of it
      leaves the line as long as it was. */
  lemma AheadAfterRemoval(s: State, x: Waiter, w: Waiter)
    requires Ascending(s.waiters) && x in s.waiters && w in s.waiters && x != w
    ensures w in Without(s.waiters, x.sequence)
    ensures Ahead(Without(s.waiters, x.sequence), w) == Ahead(s.waiters, w) - {x}
    ensures |Ahead(Without(s.waiters, x.sequence), w)|
            == |Ahead(s.waiters, w)| - (if Before(x, w) then 1 else 0)
  {
    Removal(s.waiters, x);
    assert Before(x, w) ==> x in Ahead(s.waiters, w);
    assert !Before(x, w) ==> x !in Ahead(s.waiters, w);
  }

  lemma AheadAfterArrival(s: State, n: Waiter, w: Waiter)
    requires w in s.waiters && !Before(n, w)
    ensures Ahead(s.waiters + [n], w) == Ahead(s.waiters, w)
  {
    assert forall x :: x in s.waiters + [n] <==> x in s.waiters || x == n;
  }

  /** A grant is never taken back. */
  lemma GrantStays(s: State, t: State, ch: Change, k: nat)
    requires Queue(s) && Does(s, t, ch) && k in s.futures && s.futures[k].Granted?
    ensures k in t.futures && t.futures[k].Granted?
  {
    if ch.Served? {
      assert s.futures[Best(s.waiters).sequence].Pending?;
    }
  }

  lemma WaitingProgress(s: State, t: State, ch: Change, w: Waiter, budget: int)
    requires Queue(s) && Does(s, t, ch) && w in s.waiters && |Ahead(s.waiters, w)| <= budget
    requires ch.Joined? ==> !Before(ch.waiter, w)
    requires ch.Left? ==> ch.sequence != w.sequence
    ensures Progress(t, w, budget - (t.releases - s.releases))
  {
    match ch
    case Same =>
    case Served =>
      if Best(s.waiters) != w { AheadAfterRemoval(s, Best(s.waiters), w); }
    case Joined(n) => AheadAfterArrival(s, n, w);
    case Left(k) =>
      assert IsQueued(s.waiters, k);
      var x :| x in s.waiters && x.sequence == k;
      AheadAfterRemoval(s, x, w);
  }

  lemma StepProgress(c: Config, s: State, step: Step, w: Waiter, budget: int)
    requires Inv(c, s) && Patient(step, w) && Progress(s, w, budget)
    ensures Progress(Next(c, s, step), w,
                     budget - (Next(c, s, step).releases - s.releases))
  {
    StepChanges(c, s, step);
    var t, ch := Next(c, s, step), ChangeOf(c, s, step);
    if w.sequence in s.futures && s.futures[w.sequence].Granted? {
      GrantStays(s, t, ch, w.sequence);
    } else {
      WaitingProgress(s, t, ch, w, budget);
    }
  }

  lemma {:induction false} RunProgress(c: Config, s: State, steps: seq<Step>, w: Waiter, budget: int)
    requires Inv(c, s) && Progress(s, w, budget)
    requires forall i :: 0 <= i < |steps| ==> Patient(steps[i], w)
    ensures Progress(Run(c, s, steps), w, budget - (Run(c, s, steps).releases - s.releases))
    decreases |steps|
  {
    if steps != [] {
      var t := Next(c, s, steps[0]);
      StepInv(c, s, steps[0]);
      StepProgress(c, s, steps[0], w, budget);
      RunProgress(c, t, steps[1..], w, budget - (t.releases - s.releases));
    }
  }

  /** A waiter with k requests ahead of it has a slot after at most k + 1 effective
      releases, in every run in which it stays and nothing more urgent arrives. */
  lemma BoundedWaiting(c: Config, s: State, steps: seq<Step>, w: Waiter)
    requires Inv(c, s) && w in s.waiters
    requires forall i :: 0 <= i < |steps| ==> Patient(steps[i], w)
    requires Run(c, s, steps).releases - s.releases >= |Ahead(s.waiters, w)| + 1
    ensures var t := Run(c, s, steps); w.sequence in t.futures && t.futures[w.sequence].Granted?
  {
    RunProgress(c, s, steps, w, |Ahead(s.waiters, w)|);
  }
}
