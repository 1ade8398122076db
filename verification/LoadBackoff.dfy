/** The sliding-window backoff on model loads that keep failing. */
module LoadBackoff {
  datatype Placement = Placement(provider: string, model: string)

  datatype Event =
    | Check(placement: Placement, now: int)
    | Result(placement: Placement, ok: bool, now: int)

  /** The stamps less than `seconds` old. */
  function Recent(stamps: seq<int>, now: int, seconds: int): seq<int> {
    if stamps == [] then []
    else
      var n := |stamps| - 1;
      Recent(stamps[..n], now, seconds) + if now - stamps[n] < seconds then [stamps[n]] else []
  }

  type Failures = map<Placement, seq<int>>

  function Stamps(f: Failures, p: Placement): seq<int> { if p in f then f[p] else [] }

  /** The table and the answer after one event; only a check has an answer. */
  function Handled(count: int, seconds: int, f: Failures, e: Event): (Failures, bool) {
    match e
    case Check(p, now) =>
      if Stamps(f, p) == [] then (f, false)
      else
        var recent := Recent(f[p], now, seconds);
        (f[p := recent], |recent| >= count)
    case Result(p, ok, now) =>
      (if ok then f - {p} else f[p := Stamps(f, p) + [now]], false)
  }

  /** A load the plan asks for. */
  datatype Load = Load(placement: Placement, known: bool, swappable: bool, hasEndpoint: bool)

  /** When a load is checked, how it ends, and when that is recorded. */
  datatype Visit = Visit(checkedAt: int, ok: bool, recordedAt: int)

  datatype Outcome = AbsentKey | StaticNode | NoEndpoint | BackedOff | Tried(ok: bool)

  /** A reconcile so far: the table, the results, and what the table has seen. */
  datatype Pass = Pass(failures: Failures, outcomes: seq<Outcome>, events: seq<Event>)

  function Visited(count: int, seconds: int, p: Pass, l: Load, swappableOnly: bool, v: Visit): Pass {
    if !l.known then p.(outcomes := p.outcomes + [AbsentKey])
    else if swappableOnly && !l.swappable then p.(outcomes := p.outcomes + [StaticNode])
    else if !l.hasEndpoint then p.(outcomes := p.outcomes + [NoEndpoint])
    else
      var check := Check(l.placement, v.checkedAt);
      var result := Result(l.placement, v.ok, v.recordedAt);
      var (f, skip) := Handled(count, seconds, p.failures, check);
      if skip then Pass(f, p.outcomes + [BackedOff], p.events + [check])
      else Pass(Handled(count, seconds, f, result).0, p.outcomes + [Tried(v.ok)], p.events + [check] + [result])
  }

  /** The first `n` loads of a reconcile. */
  function Reconciled(count: int, seconds: int, f: Failures, loads: seq<Load>, swappableOnly: bool,
                      visit: nat -> Visit, n: nat): Pass
    requires n <= |loads|
  {
    if n == 0 then Pass(f, [], [])
    else
      Visited(count, seconds, Reconciled(count, seconds, f, loads, swappableOnly, visit, n - 1), loads[n - 1],
              swappableOnly, visit(n - 1))
  }

  class Backoff {
    const count: int
    const seconds: int
    var failures: Failures

    constructor (count: int, seconds: int)
      ensures this.count == count && this.seconds == seconds && failures == map[]
    {
      this.count, this.seconds, failures := count, seconds, map[];
    }

    method InBackoff(p: Placement, now: int) returns (skip: bool)
      modifies this`failures
      ensures (failures, skip) == Handled(count, seconds, old(failures), Check(p, now))
    {
      if p !in failures || failures[p] == [] { return false; }
      var stamps := failures[p];
      var recent := [];
      for i := 0 to |stamps|
        invariant recent == Recent(stamps[..i], now, seconds)
      {
        assert stamps[..i + 1][..i] == stamps[..i];
        if now - stamps[i] < seconds { recent := recent + [stamps[i]]; }
      }
      assert stamps[..|stamps|] == stamps;
      failures := failures[p := recent];
      return |recent| >= count;
    }

    method RecordLoadResult(p: Placement, ok: bool, now: int)
      modifies this`failures
      ensures failures == Handled(count, seconds, old(failures), Result(p, ok, now)).0
    {
      if ok {
        failures := failures - {p};
      } else {
        failures := failures[p := (if p in failures then failures[p] else []) + [now]];
      }
    }

    /** The loads of one reconcile, one after the other. */
    method ReconcileLoads(loads: seq<Load>, swappableOnly: bool, visit: nat -> Visit) returns (outcomes: seq<Outcome>)
      modifies this`failures
      ensures var pass := Reconciled(count, seconds, old(failures), loads, swappableOnly, visit, |loads|);
              failures == pass.failures && outcomes == pass.outcomes
    {
      outcomes := [];
      for i := 0 to |loads|
        invariant failures == Reconciled(count, seconds, old(failures), loads, swappableOnly, visit, i).failures
        invariant outcomes == Reconciled(count, seconds, old(failures), loads, swappableOnly, visit, i).outcomes
      {
        var outcome := VisitLoad(loads[i], swappableOnly, visit(i));
        outcomes := outcomes + [outcome];
      }
    }

    method VisitLoad(l: Load, swappableOnly: bool, v: Visit) returns (outcome: Outcome)
      modifies this`failures
      ensures forall p: Pass :: p.failures == old(failures) ==>
                var after := Visited(count, seconds, p, l, swappableOnly, v);
                after.failures == failures && after.outcomes == p.outcomes + [outcome]
    {
      if !l.known { return AbsentKey; }
      if swappableOnly && !l.swappable { return StaticNode; }
      if !l.hasEndpoint { return NoEndpoint; }
      var skip := InBackoff(l.placement, v.checkedAt);
      if skip { return BackedOff; }
      RecordLoadResult(l.placement, v.ok, v.recordedAt);
      return Tried(v.ok);
    }
  }

  // ---------------------------------------------------------------- runs

  function Run(count: int, seconds: int, log: seq<Event>): Failures {
    if log == [] then map[]
    else Handled(count, seconds, Run(count, seconds, log[..|log| - 1]), log[|log| - 1]).0
  }

  /** The answer to the `i`th event. */
  predicate Skipped(count: int, seconds: int, log: seq<Event>, i: nat)
    requires i < |log|
  {
    Handled(count, seconds, Run(count, seconds, log[..i]), log[i]).1
  }

  /** All failures of a placement since its last success, none forgotten. */
  function Streak(log: seq<Event>, p: Placement): seq<int> {
    if log == [] then []
    else
      var (before, e) := (Streak(log[..|log| - 1], p), log[|log| - 1]);
      if e.Result? && e.placement == p then (if e.ok then [] else before + [e.now]) else before
  }

  ghost predicate Forward(log: seq<Event>) {
    forall i, j :: 0 <= i < j < |log| ==> log[i].now <= log[j].now
  }

  lemma {:induction false} RecentTwice(stamps: seq<int>, earlier: int, now: int, seconds: int)
    requires earlier <= now
    ensures Recent(Recent(stamps, earlier, seconds), now, seconds) == Recent(stamps, now, seconds)
    decreases |stamps|
  {
    if stamps != [] {
      var n := |stamps| - 1;
      RecentTwice(stamps[..n], earlier, now, seconds);
      if earlier - stamps[n] < seconds {
        RecentJoin(Recent(stamps[..n], earlier, seconds), stamps[n], now, seconds);
      } else {
        assert Recent(stamps, earlier, seconds) == Recent(stamps[..n], earlier, seconds);
        assert Recent(stamps, now, seconds) == Recent(stamps[..n], now, seconds);
      }
    }
  }

  lemma RecentJoin(stamps: seq<int>, last: int, now: int, seconds: int)
    ensures Recent(stamps + [last], now, seconds)
         == Recent(stamps, now, seconds) + if now - last < seconds then [last] else []
  {
    assert (stamps + [last])[..|stamps|] == stamps;
  }

  /** Pruning is invisible: at any later time the table holds the same recent failures as the
      whole streak. */
  lemma {:induction false} PruningIsInvisible(count: int, seconds: int, log: seq<Event>, p: Placement, now: int)
    requires Forward(log) && (log != [] ==> log[|log| - 1].now <= now)
    ensures Recent(Stamps(Run(count, seconds, log), p), now, seconds) == Recent(Streak(log, p), now, seconds)
    decreases |log|
  {
    if log != [] {
      var n := |log| - 1;
      var e := log[n];
      PruningIsInvisible(count, seconds, log[..n], p, now);
      var stamps := Stamps(Run(count, seconds, log[..n]), p);
      if e.placement == p {
        match e
        case Check(_, at) => RecentTwice(stamps, at, now, seconds);
        case Result(_, ok, at) =>
          RecentJoin(stamps, at, now, seconds);
          RecentJoin(Streak(log[..n], p), at, now, seconds);
      }
    }
  }

  /** A load is skipped exactly when the window holds `count` failures since the last success. */
  lemma SkippedExactly(count: int, seconds: int, log: seq<Event>, i: nat)
    requires Forward(log) && i < |log| && log[i].Check? && count >= 1
    ensures Skipped(count, seconds, log, i) <==>
              |Recent(Streak(log[..i], log[i].placement), log[i].now, seconds)| >= count
  {
    PruningIsInvisible(count, seconds, log[..i], log[i].placement, log[i].now);
  }

  // ---------------------------------------------------------------- the bound

  /** Reconciles are sequential: a load fails only right after a check of its placement that
      let it through. */
  ghost predicate Sequential(count: int, seconds: int, log: seq<Event>) {
    forall i :: 0 <= i < |log| ==> LetThrough(count, seconds, log, i)
  }

  predicate LetThrough(count: int, seconds: int, log: seq<Event>, i: nat)
    requires i < |log|
  {
    log[i].Result? && !log[i].ok ==>
      i > 0 && log[i - 1].Check? && log[i - 1].placement == log[i].placement && !Skipped(count, seconds, log, i - 1)
  }

  ghost predicate Rising(stamps: seq<int>, limit: int) {
    && (forall i, j :: 0 <= i < j < |stamps| ==> stamps[i] <= stamps[j])
    && (forall i :: 0 <= i < |stamps| ==> stamps[i] <= limit)
  }

  lemma {:induction false} StreakRises(log: seq<Event>, p: Placement, now: int)
    requires Forward(log) && (log != [] ==> log[|log| - 1].now <= now)
    ensures Rising(Streak(log, p), now)
    decreases |log|
  {
    if log != [] { StreakRises(log[..|log| - 1], p, log[|log| - 1].now); }
  }

  /** When the stamp `count` places from the end is recent, so are all after it. */
  lemma {:induction false} RecentTail(stamps: seq<int>, k: nat, now: int, seconds: int)
    requires Rising(stamps, now) && k < |stamps| && now - stamps[k] < seconds
    ensures |Recent(stamps, now, seconds)| >= |stamps| - k
    decreases |stamps|
  {
    var n := |stamps| - 1;
    if k < n { RecentTail(stamps[..n], k, now, seconds); }
  }

  /** Any `count` + 1 consecutive failures of a placement without a success between them span
      at least `seconds`. */
  ghost predicate Spread(stamps: seq<int>, count: nat, seconds: int) {
    forall i :: 0 <= i && i + count < |stamps| ==> Apart(stamps, i, count, seconds)
  }

  predicate Apart(stamps: seq<int>, i: nat, count: nat, seconds: int)
    requires i + count < |stamps|
  {
    stamps[i + count] - stamps[i] >= seconds
  }

  lemma SpreadGrows(stamps: seq<int>, last: int, count: nat, seconds: int)
    requires Spread(stamps, count, seconds)
    requires |stamps| >= count ==> last - (stamps + [last])[|stamps| - count] >= seconds
    ensures Spread(stamps + [last], count, seconds)
  {
    var s := stamps + [last];
    forall i | 0 <= i && i + count < |s| ensures Apart(s, i, count, seconds) {
      if i + count < |stamps| { assert Apart(stamps, i, count, seconds); }
    }
  }

  /** The sliding-window bound: no window shorter than `seconds` holds more than `count` failed
      loads of one placement without a success between them, although old stamps are dropped
      only at the next check. */
  lemma {:induction false} FailuresAreSpread(count: nat, seconds: int, log: seq<Event>, p: Placement)
    requires count >= 1 && Forward(log) && Sequential(count, seconds, log)
    ensures Spread(Streak(log, p), count, seconds)
    decreases |log|
  {
    if log != [] {
      var n := |log| - 1;
      var e := log[n];
      SequentialPrefix(count, seconds, log, n);
      FailuresAreSpread(count, seconds, log[..n], p);
      if e.Result? && !e.ok && e.placement == p {
        LoadWasDue(count, seconds, log, p);
        SpreadGrows(Streak(log[..n], p), e.now, count, seconds);
      }
    }
  }

  lemma SequentialPrefix(count: int, seconds: int, log: seq<Event>, n: nat)
    requires Sequential(count, seconds, log) && n <= |log|
    ensures Sequential(count, seconds, log[..n])
  {
    forall i | 0 <= i < n ensures LetThrough(count, seconds, log[..n], i) {
      assert LetThrough(count, seconds, log, i);
      if i > 0 { assert log[..n][..i - 1] == log[..i - 1]; }
    }
  }

  lemma LoadWasDue(count: nat, seconds: int, log: seq<Event>, p: Placement)
    requires count >= 1 && Forward(log) && Sequential(count, seconds, log)
    requires log != [] && log[|log| - 1].Result? && !log[|log| - 1].ok && log[|log| - 1].placement == p
    ensures var stamps, last := Streak(log[..|log| - 1], p), log[|log| - 1].now;
            |stamps| >= count ==> last - stamps[|stamps| - count] >= seconds
  {
    var n := |log| - 1;
    assert LetThrough(count, seconds, log, n);
    var c := log[n - 1];
    SkippedExactly(count, seconds, log, n - 1);
    assert log[..n][..n - 1] == log[..n - 1];
    var stamps := Streak(log[..n], p);
    assert stamps == Streak(log[..n - 1], p);
    StreakRises(log[..n - 1], p, c.now);
    if |stamps| >= count && c.now - stamps[|stamps| - count] < seconds {
      RecentTail(stamps, |stamps| - count, c.now, seconds);
    }
  }

  // ---------------------------------------------------------------- reconciles are sequential

  ghost predicate NotAfter(log: seq<Event>, t: int) { log != [] ==> log[|log| - 1].now <= t }

  /** The clock does not go back between the visits of a reconcile that follows `log`. */
  ghost predicate Punctual(log: seq<Event>, visit: nat -> Visit, n: nat) {
    && Forward(log)
    && (forall i: nat :: i < n ==> NotAfter(log, visit(i).checkedAt) && visit(i).checkedAt <= visit(i).recordedAt)
    && (forall i: nat, j: nat :: i < j < n ==> visit(i).recordedAt <= visit(j).checkedAt)
  }

  lemma RunEndsWith(count: int, seconds: int, log: seq<Event>, e: Event)
    ensures Run(count, seconds, log + [e]) == Handled(count, seconds, Run(count, seconds, log), e).0
  {
    assert (log + [e])[..|log|] == log;
  }

  lemma ForwardGrows(log: seq<Event>, e: Event)
    requires Forward(log) && NotAfter(log, e.now)
    ensures Forward(log + [e])
  {
  }

  lemma SequentialGrows(count: int, seconds: int, log: seq<Event>, e: Event)
    requires Sequential(count, seconds, log)
    requires e.Check? || (log != [] && log[|log| - 1].Check? && log[|log| - 1].placement == e.placement
                          && !Skipped(count, seconds, log, |log| - 1))
    ensures Sequential(count, seconds, log + [e])
  {
    var longer := log + [e];
    forall i | 0 <= i < |longer| ensures LetThrough(count, seconds, longer, i) {
      if i < |log| { assert LetThrough(count, seconds, log, i); }
      if i > 0 { assert longer[..i - 1] == log[..i - 1]; }
    }
  }

  /** A sequential log on a clock that does not go back, and the table it leaves. */
  ghost predicate Leaves(count: int, seconds: int, log: seq<Event>, f: Failures) {
    Sequential(count, seconds, log) && Forward(log) && f == Run(count, seconds, log)
  }

  lemma CheckGrows(count: int, seconds: int, log: seq<Event>, f: Failures, p: Placement, at: int)
    requires Leaves(count, seconds, log, f) && NotAfter(log, at)
    ensures Leaves(count, seconds, log + [Check(p, at)], Handled(count, seconds, f, Check(p, at)).0)
    ensures Skipped(count, seconds, log + [Check(p, at)], |log|) == Handled(count, seconds, f, Check(p, at)).1
  {
    var check := Check(p, at);
    RunEndsWith(count, seconds, log, check);
    SequentialGrows(count, seconds, log, check);
    ForwardGrows(log, check);
    assert (log + [check])[..|log|] == log;
  }

  lemma LoadGrows(count: int, seconds: int, log: seq<Event>, f: Failures, p: Placement, ok: bool, at: int)
    requires Leaves(count, seconds, log, f) && NotAfter(log, at)
    requires log != [] && log[|log| - 1].Check? && log[|log| - 1].placement == p
    requires !Skipped(count, seconds, log, |log| - 1)
    ensures Leaves(count, seconds, log + [Result(p, ok, at)], Handled(count, seconds, f, Result(p, ok, at)).0)
  {
    var result := Result(p, ok, at);
    RunEndsWith(count, seconds, log, result);
    SequentialGrows(count, seconds, log, result);
    ForwardGrows(log, result);
  }

  predicate Due(l: Load, swappableOnly: bool) { l.known && (swappableOnly ==> l.swappable) && l.hasEndpoint }

  /** What the table sees of one visit. */
  function Seen(count: int, seconds: int, f: Failures, l: Load, v: Visit): seq<Event> {
    var check := Check(l.placement, v.checkedAt);
    if Handled(count, seconds, f, check).1 then [check] else [check, Result(l.placement, v.ok, v.recordedAt)]
  }

  /** The table one visit leaves. */
  function Left(count: int, seconds: int, f: Failures, l: Load, v: Visit): Failures {
    var (g, skip) := Handled(count, seconds, f, Check(l.placement, v.checkedAt));
    if skip then g else Handled(count, seconds, g, Result(l.placement, v.ok, v.recordedAt)).0
  }

  lemma {:induction false} VisitedSees(count: int, seconds: int, p: Pass, l: Load, swappableOnly: bool, v: Visit)
    ensures var after := Visited(count, seconds, p, l, swappableOnly, v);
            if Due(l, swappableOnly)
            then after.events == p.events + Seen(count, seconds, p.failures, l, v)
                 && after.failures == Left(count, seconds, p.failures, l, v)
            else after.events == p.events && after.failures == p.failures
  {
  }

  lemma LastIs(log: seq<Event>, e: Event, t: int)
    requires e.now <= t
    ensures NotAfter(log + [e], t)
  {
  }

  /** One visit: a check, and a load right after it if the check let it through. */
  lemma {:induction false} VisitGrows(count: int, seconds: int, log: seq<Event>, f: Failures, l: Load, v: Visit)
    requires Leaves(count, seconds, log, f) && NotAfter(log, v.checkedAt) && v.checkedAt <= v.recordedAt
    ensures var longer := log + Seen(count, seconds, f, l, v);
            Leaves(count, seconds, longer, Left(count, seconds, f, l, v)) && NotAfter(longer, v.recordedAt)
  {
    var check := Check(l.placement, v.checkedAt);
    CheckGrows(count, seconds, log, f, l.placement, v.checkedAt);
    LastIs(log, check, v.recordedAt);
    if !Handled(count, seconds, f, check).1 { LoadFollows(count, seconds, log, f, l, v); }
  }

  lemma {:induction false} LoadFollows(count: int, seconds: int, log: seq<Event>, f: Failures, l: Load, v: Visit)
    requires v.checkedAt <= v.recordedAt && !Handled(count, seconds, f, Check(l.placement, v.checkedAt)).1
    requires var (check, g) := (Check(l.placement, v.checkedAt),
                                Handled(count, seconds, f, Check(l.placement, v.checkedAt)).0);
             Leaves(count, seconds, log + [check], g) && !Skipped(count, seconds, log + [check], |log|)
    ensures var longer := log + Seen(count, seconds, f, l, v);
            Leaves(count, seconds, longer, Left(count, seconds, f, l, v)) && NotAfter(longer, v.recordedAt)
  {
    var (check, result) := (Check(l.placement, v.checkedAt), Result(l.placement, v.ok, v.recordedAt));
    var once := log + [check];
    LastIs(log, check, v.recordedAt);
    LoadGrows(count, seconds, once, Handled(count, seconds, f, check).0, l.placement, v.ok, v.recordedAt);
    LastIs(once, result, v.recordedAt);
    assert log + [check, result] == once + [result];
  }

  lemma {:induction false} NextVisit(count: int, seconds: int, log: seq<Event>, p: Pass, l: Load,
                                     swappableOnly: bool, v: Visit)
    requires Leaves(count, seconds, log + p.events, p.failures)
    requires NotAfter(log + p.events, v.checkedAt) && v.checkedAt <= v.recordedAt
    ensures var after := Visited(count, seconds, p, l, swappableOnly, v);
            && Leaves(count, seconds, log + after.events, after.failures)
            && NotAfter(log + after.events, v.recordedAt)
  {
    VisitedSees(count, seconds, p, l, swappableOnly, v);
    if Due(l, swappableOnly) {
      VisitGrows(count, seconds, log + p.events, p.failures, l, v);
      var seen := Seen(count, seconds, p.failures, l, v);
      assert log + (p.events + seen) == log + p.events + seen;
    }
  }

  /** A reconcile keeps the log sequential, so the bound holds of every series of reconciles. */
  lemma {:induction false} ReconcileIsSequential(count: int, seconds: int, log: seq<Event>, loads: seq<Load>,
                                                 swappableOnly: bool, visit: nat -> Visit, n: nat)
    requires n <= |loads| && Sequential(count, seconds, log) && Punctual(log, visit, n)
    ensures var pass := Reconciled(count, seconds, Run(count, seconds, log), loads, swappableOnly, visit, n);
            && Leaves(count, seconds, log + pass.events, pass.failures)
            && (n > 0 ==> NotAfter(log + pass.events, visit(n - 1).recordedAt))
    decreases n
  {
    assert log + [] == log;
    if n > 0 {
      ReconcileIsSequential(count, seconds, log, loads, swappableOnly, visit, n - 1);
      var p := Reconciled(count, seconds, Run(count, seconds, log), loads, swappableOnly, visit, n - 1);
      assert n > 1 ==> visit(n - 2).recordedAt <= visit(n - 1).checkedAt;
      assert NotAfter(log + p.events, visit(n - 1).checkedAt);
      NextVisit(count, seconds, log, p, loads[n - 1], swappableOnly, visit(n - 1));
    }
  }
}
