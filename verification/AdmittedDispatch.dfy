/** Dispatches as clients of the admission gate.

    Any number of tasks run `_admitted_dispatch` or `_admitted_dispatch_stream` against one
    gate, interleaved at their await points.  Each await may succeed, fail or be cancelled.
    A ghost log records grants, fence checks, provider calls and effective releases. */
module AdmittedDispatch {
  import opened Admission

  datatype Phase =
    | Waiting(waiter: nat)         // suspended in `acquire`
    | Fencing(lease: nat)          // rechecking the executor claim
    | Selecting(lease: nat)        // choosing an access path
    | Calling(lease: nat)          // the provider call is in flight
    | Streaming(lease: nat)        // the body is being iterated
    | Done

  datatype Task = Task(stream: bool, phase: Phase)

  datatype Event =
    | Leased(task: nat, lease: nat)
    | Fenced(task: nat, lease: nat)
    | Called(task: nat, lease: nat)
    | Released(lease: nat)

  datatype System = System(gate: State, tasks: map<nat, Task>, log: seq<Event>)

  datatype Move =
    | Begin(task: nat, current: bool, priority: Priority, stream: bool)
    | Awake(task: nat)             // the granted future resumes the task
    | Expire(task: nat)            // the queue timeout fires
    | Succeed(task: nat)           // the current await returns
    | Fail(task: nat)              // the current await raises
    | Abort(task: nat)             // the task is cancelled

  const START := System(INITIAL, map[], [])

  predicate HoldsLease(p: Phase) {
    p.Fencing? || p.Selecting? || p.Calling? || p.Streaming?
  }

  function WithTask(s: System, t: nat, p: Phase): System
    requires t in s.tasks
  {
    s.(tasks := s.tasks[t := s.tasks[t].(phase := p)])
  }

  /** The `finally` block: give the lease back and end. */
  function Finish(s: System, t: nat, lease: nat): System
    requires t in s.tasks
  {
    WithTask(s, t, Done).(
      gate := LeaseRelease(s.gate, lease),
      log := if lease in s.gate.live then s.log + [Released(lease)] else s.log)
  }

  function BeginTask(c: Config, s: System, t: nat, current: bool, p: Priority, stream: bool): System {
    if !current then s.(tasks := s.tasks[t := Task(stream, Done)])
    else
      var g := Enter(c, s.gate, p);
      if g.rejected > s.gate.rejected then
        s.(gate := g, tasks := s.tasks[t := Task(stream, Done)])
      else if g.acquired > s.gate.acquired then
        s.(gate := g,
           tasks := s.tasks[t := Task(stream, Fencing(s.gate.acquired))],
           log := s.log + [Leased(t, s.gate.acquired)])
      else
        s.(gate := g, tasks := s.tasks[t := Task(stream, Waiting(s.gate.sequence))])
  }

  function TakeGrant(s: System, t: nat, w: nat, lease: nat): System
    requires t in s.tasks
  {
    WithTask(s, t, Fencing(lease)).(
      gate := Resume(s.gate, w, lease),
      log := s.log + [Leased(t, lease)])
  }

  /** Waiting ends with a grant, a timeout or a cancellation. */
  function EndWait(s: System, move: Move, t: nat, w: nat): System
    requires t in s.tasks && w in s.gate.futures
  {
    var f := s.gate.futures[w];
    match move
    case Awake(_) => if f.Granted? then TakeGrant(s, t, w, f.lease) else s
    case Expire(_) =>
      if f.Granted? then TakeGrant(s, t, w, f.lease)
      else WithTask(s, t, Done).(gate := OnTimeout(s.gate, w))
    case Abort(_) =>
      WithTask(s, t, Done).(
        gate := OnCancel(s.gate, w),
        log := if f.Granted? then s.log + [Released(f.lease)] else s.log)
    case _ => s
  }

  /** What a task that holds its lease does next. */
  function Advance(s: System, move: Move, t: nat): System
    requires t in s.tasks && HoldsLease(s.tasks[t].phase)
  {
    var p := s.tasks[t].phase;
    if move.Fail? || move.Abort? then Finish(s, t, p.lease)
    else if !move.Succeed? then s
    else match p
      case Fencing(l) => WithTask(s, t, Selecting(l)).(log := s.log + [Fenced(t, l)])
      case Selecting(l) => WithTask(s, t, Calling(l)).(log := s.log + [Called(t, l)])
      case Calling(l) => if s.tasks[t].stream then WithTask(s, t, Streaming(l)) else Finish(s, t, l)
      case Streaming(l) => Finish(s, t, l)
  }

  function Act(c: Config, s: System, move: Move): System {
    var t := move.task;
    if t !in s.tasks then
      if move.Begin? then BeginTask(c, s, t, move.current, move.priority, move.stream) else s
    else if s.tasks[t].phase.Waiting? then
      if s.tasks[t].phase.waiter in s.gate.futures then EndWait(s, move, t, s.tasks[t].phase.waiter)
      else s
    else if HoldsLease(s.tasks[t].phase) then Advance(s, move, t)
    else s
  }

  function Perform(c: Config, s: System, moves: seq<Move>): System
    decreases |moves|
  {
    if moves == [] then s else Perform(c, Act(c, s, moves[0]), moves[1..])
  }

  // ---------------------------------------------------------------- invariants

  /** Each waiting task has a suspended waiter of its own. */
  ghost predicate WaitersAgree(s: System) {
    && (forall t :: t in s.tasks && s.tasks[t].phase.Waiting? ==>
          s.tasks[t].phase.waiter in s.gate.suspended)
    && (forall t, u ::
          (t in s.tasks && u in s.tasks && s.tasks[t].phase.Waiting?
           && s.tasks[t].phase == s.tasks[u].phase) ==> t == u)
  }

  /** Each task past admission has a live lease of its own. */
  ghost predicate HoldersAgree(s: System) {
    && (forall t :: t in s.tasks && HoldsLease(s.tasks[t].phase) ==>
          s.tasks[t].phase.lease in s.gate.live && s.tasks[t].phase.lease in s.gate.held)
    && (forall t, u ::
          (t in s.tasks && u in s.tasks && HoldsLease(s.tasks[t].phase)
           && HoldsLease(s.tasks[u].phase) && s.tasks[t].phase.lease == s.tasks[u].phase.lease)
          ==> t == u)
  }

  /** Tasks and the gate agree on who waits and who owns which lease. */
  ghost predicate Agree(s: System) { WaitersAgree(s) && HoldersAgree(s) }

  /** Nobody is forgotten: each suspended waiter and each live lease has its task. */
  ghost predicate Attended(s: System) {
    && (forall w :: w in s.gate.suspended ==>
          exists t :: t in s.tasks && s.tasks[t].phase == Waiting(w))
    && (forall l :: l in s.gate.live && l in s.gate.held ==>
          exists t :: t in s.tasks && HoldsLease(s.tasks[t].phase) && s.tasks[t].phase.lease == l)
  }

  /** A fence check that followed the grant of `l` to `t` is on record. */
  ghost predicate FencedAfterGrant(log: seq<Event>, t: nat, l: nat) {
    exists j, k :: 0 <= j < k < |log| && log[j] == Leased(t, l) && log[k] == Fenced(t, l)
  }

  /** Every provider call was made under a lease that was granted to that task, after a
      fence check that followed the grant, and before the lease was released. */
  ghost predicate CallsAreFenced(log: seq<Event>) {
    forall i :: 0 <= i < |log| && log[i].Called? ==>
      FencedAfterGrant(log[..i], log[i].task, log[i].lease) && Released(log[i].lease) !in log[..i]
  }

  /** Each issued lease was released once if it is no longer live, and never otherwise. */
  ghost predicate ReleasedOnce(s: System) {
    forall l: nat :: multiset(s.log)[Released(l)]
                == if l < s.gate.acquired && l !in s.gate.live then 1 else 0
  }

  ghost predicate OnRecord(s: System) {
    forall t :: t in s.tasks && HoldsLease(s.tasks[t].phase) ==>
      && Leased(t, s.tasks[t].phase.lease) in s.log
      && (!s.tasks[t].phase.Fencing? ==> FencedAfterGrant(s.log, t, s.tasks[t].phase.lease))
  }

  // ---------------------------------------------------------------- the log grows

  lemma FencedStays(log: seq<Event>, e: Event, t: nat, l: nat)
    requires FencedAfterGrant(log, t, l)
    ensures FencedAfterGrant(log + [e], t, l)
  {
    var j, k :| 0 <= j < k < |log| && log[j] == Leased(t, l) && log[k] == Fenced(t, l);
    assert (log + [e])[j] == Leased(t, l) && (log + [e])[k] == Fenced(t, l);
  }

  lemma FenceRecorded(log: seq<Event>, t: nat, l: nat)
    requires Leased(t, l) in log
    ensures FencedAfterGrant(log + [Fenced(t, l)], t, l)
  {
    var j :| 0 <= j < |log| && log[j] == Leased(t, l);
    var m := log + [Fenced(t, l)];
    assert m[j] == Leased(t, l) && m[|log|] == Fenced(t, l);
  }

  lemma CallsStayFenced(log: seq<Event>, e: Event)
    requires CallsAreFenced(log)
    requires e.Called? ==> FencedAfterGrant(log, e.task, e.lease) && Released(e.lease) !in log
    ensures CallsAreFenced(log + [e])
  {
    var m := log + [e];
    forall i | 0 <= i < |m| && m[i].Called?
      ensures FencedAfterGrant(m[..i], m[i].task, m[i].lease) && Released(m[i].lease) !in m[..i]
    {
      assert m[..i] == log[..i];
      if i == |log| { assert log[..i] == log; }
    }
  }

  lemma RecordsStay(s: System, e: Event)
    requires OnRecord(s)
    ensures OnRecord(s.(log := s.log + [e]))
  {
    var r := s.(log := s.log + [e]);
    forall t | t in r.tasks && HoldsLease(r.tasks[t].phase)
      ensures Leased(t, r.tasks[t].phase.lease) in r.log
      ensures !r.tasks[t].phase.Fencing? ==> FencedAfterGrant(r.log, t, r.tasks[t].phase.lease)
    {
      if !r.tasks[t].phase.Fencing? { FencedStays(s.log, e, t, r.tasks[t].phase.lease); }
    }
  }

  lemma NotReleased(s: System, l: nat)
    requires ReleasedOnce(s) && l in s.gate.live
    ensures Released(l) !in s.log
  {
    assert multiset(s.log)[Released(l)] == 0;
    assert Released(l) in s.log ==> Released(l) in multiset(s.log);
  }

  // ---------------------------------------------------------------- what a move changes

  /** Only task `t` moves; it is new, or it was waiting or holding a lease. */
  ghost predicate OnlyMoved(s: System, n: System, t: nat) {
    && n.tasks.Keys == s.tasks.Keys + {t}
    && (forall u :: u in s.tasks && u != t ==> n.tasks[u] == s.tasks[u])
  }

  /** Suspended waiters after `t` has left the queue, if it was in it. */
  ghost function StillSuspended(s: System, t: nat): set<nat> {
    if t in s.tasks && s.tasks[t].phase.Waiting? then s.gate.suspended - {s.tasks[t].phase.waiter}
    else s.gate.suspended
  }

  /** `t` becomes the owner of a lease that no task owned. */
  ghost predicate Takes(s: System, n: System, t: nat, l: nat) {
    && OnlyMoved(s, n, t) && (t in s.tasks ==> s.tasks[t].phase.Waiting?)
    && n.tasks[t].phase == Fencing(l) && n.log == s.log + [Leased(t, l)]
    && l !in s.gate.held && n.gate.held == s.gate.held + {l}
    && n.gate.live == s.gate.live + {l}
    && n.gate.suspended == StillSuspended(s, t)
    && (|| (n.gate.acquired == s.gate.acquired && l in s.gate.live)
        || (l == s.gate.acquired && n.gate.acquired == s.gate.acquired + 1))
  }

  /** `t` starts to wait. */
  ghost predicate Waits(s: System, n: System, t: nat) {
    && OnlyMoved(s, n, t) && t !in s.tasks
    && s.gate.sequence !in s.gate.suspended
    && n.tasks[t].phase == Waiting(s.gate.sequence)
    && n.gate.suspended == s.gate.suspended + {s.gate.sequence}
    && n.log == s.log && n.gate.live == s.gate.live && n.gate.held == s.gate.held
    && n.gate.acquired == s.gate.acquired
  }

  /** `t` ends without ever having had a lease. */
  ghost predicate Leaves(s: System, n: System, t: nat) {
    && OnlyMoved(s, n, t) && (t in s.tasks ==> s.tasks[t].phase.Waiting?)
    && n.tasks[t].phase.Done?
    && n.gate.suspended == StillSuspended(s, t)
    && n.log == s.log && n.gate.live == s.gate.live && n.gate.held == s.gate.held
    && n.gate.acquired == s.gate.acquired
  }

  /** `l`'s slot became free, or became the next lease. */
  ghost predicate SlotMoved(s: State, g: State, l: nat) {
    || (g.live == s.live - {l} && g.acquired == s.acquired)
    || (g.live == s.live - {l} + {s.acquired} && g.acquired == s.acquired + 1)
  }

  /** `t` ends and lease `l`, its own, comes back; its slot may become a new lease of a
      waiter that is still suspended. */
  ghost predicate GivesBack(s: System, n: System, t: nat, l: nat) {
    && OnlyMoved(s, n, t) && t in s.tasks
    && (|| (s.tasks[t].phase.Waiting? && l !in s.gate.held)
        || (HoldsLease(s.tasks[t].phase) && l == s.tasks[t].phase.lease))
    && n.tasks[t].phase.Done?
    && l in s.gate.live && n.log == s.log + [Released(l)]
    && n.gate.suspended == StillSuspended(s, t) && n.gate.held == s.gate.held
    && s.gate.acquired !in s.gate.held
    && SlotMoved(s.gate, n.gate, l)
  }

  /** `t` keeps its lease and moves on. */
  ghost predicate Advances(s: System, n: System, t: nat) {
    && OnlyMoved(s, n, t) && n.gate == s.gate && t in s.tasks
    && HoldsLease(s.tasks[t].phase) && HoldsLease(n.tasks[t].phase)
    && n.tasks[t].phase.lease == s.tasks[t].phase.lease
    && (var l := s.tasks[t].phase.lease;
        || (s.tasks[t].phase.Fencing? && n.log == s.log + [Fenced(t, l)])
        || (s.tasks[t].phase.Selecting? && n.log == s.log + [Called(t, l)])
        || (s.tasks[t].phase.Calling? && n.log == s.log))
  }

  ghost predicate Moved(s: System, n: System, t: nat) {
    || n == s
    || (exists l :: Takes(s, n, t, l))
    || Waits(s, n, t)
    || Leaves(s, n, t)
    || (exists l :: GivesBack(s, n, t, l))
    || Advances(s, n, t)
  }

  /** What a release changes in the gate. */
  lemma ReleaseFrame(c: Config, s: State, l: nat)
    requires Inv(c, s) && l in s.live && l in s.held
    ensures var g := LeaseRelease(s, l);
            && Inv(c, g) && g.held == s.held && g.suspended == s.suspended
            && SlotMoved(s, g, l)
  {
    LeaseReleaseInv(c, s, l);
    var m := s.(live := s.live - {l});
    AllPending(s.waiters, s.futures);
  }

  lemma CancelFrame(c: Config, s: State, w: nat)
    requires Inv(c, s) && w in s.suspended && w in s.futures && s.futures[w].Granted?
    ensures var l := s.futures[w].lease;
            var g := OnCancel(s, w);
            && Inv(c, g) && g.held == s.held && g.suspended == s.suspended - {w}
            && l in s.live && l !in s.held
            && SlotMoved(s, g, l)
  {
    CancelGrantedInv(c, s, w);
    AllPending(s.waiters, s.futures);
  }

  lemma FinishMoves(c: Config, s: System, t: nat)
    requires Inv(c, s.gate) && t in s.tasks && HoldsLease(s.tasks[t].phase)
    requires s.tasks[t].phase.lease in s.gate.live && s.tasks[t].phase.lease in s.gate.held
    ensures Moved(s, Finish(s, t, s.tasks[t].phase.lease), t)
  {
    var l := s.tasks[t].phase.lease;
    ReleaseFrame(c, s.gate, l);
    FreshNumbers(c, s.gate);
    assert GivesBack(s, Finish(s, t, l), t, l);
  }

  lemma AdvanceMoves(c: Config, s: System, move: Move, t: nat)
    requires Inv(c, s.gate) && t in s.tasks && HoldsLease(s.tasks[t].phase)
    requires s.tasks[t].phase.lease in s.gate.live && s.tasks[t].phase.lease in s.gate.held
    ensures Moved(s, Advance(s, move, t), t)
  {
    FinishMoves(c, s, t);
    var n := Advance(s, move, t);
    if n.gate == s.gate && n != s && !n.tasks[t].phase.Done? { assert Advances(s, n, t); }
  }

  lemma BeginMoves(c: Config, s: System, t: nat, current: bool, p: Priority, stream: bool)
    requires t !in s.tasks
    requires s.gate.acquired !in s.gate.held && s.gate.sequence !in s.gate.suspended
    ensures Moved(s, BeginTask(c, s, t, current, p, stream), t)
  {
    var n := BeginTask(c, s, t, current, p, stream);
    if n.log != s.log { assert Takes(s, n, t, s.gate.acquired); }
  }

  lemma TakeGrantMoves(s: System, t: nat, w: nat, l: nat)
    requires t in s.tasks && s.tasks[t].phase == Waiting(w)
    requires l in s.gate.live && l !in s.gate.held
    ensures Moved(s, TakeGrant(s, t, w, l), t)
  {
    assert s.gate.live + {l} == s.gate.live;
    assert Takes(s, TakeGrant(s, t, w, l), t, l);
  }

  lemma AbortMoves(c: Config, s: System, t: nat, w: nat)
    requires Inv(c, s.gate) && t in s.tasks && s.tasks[t].phase == Waiting(w)
    requires w in s.gate.suspended && w in s.gate.futures && s.gate.futures[w].Granted?
    ensures Moved(s, EndWait(s, Abort(t), t, w), t)
  {
    CancelFrame(c, s.gate, w);
    FreshNumbers(c, s.gate);
    assert GivesBack(s, EndWait(s, Abort(t), t, w), t, s.gate.futures[w].lease);
  }

  lemma EndWaitMoves(c: Config, s: System, move: Move, t: nat, w: nat)
    requires Inv(c, s.gate) && t in s.tasks && s.tasks[t].phase == Waiting(w)
    requires w in s.gate.suspended && w in s.gate.futures
    requires move.task == t
    ensures Moved(s, EndWait(s, move, t, w), t)
  {
    GrantIsPrivate(c, s.gate, w);
    if s.gate.futures[w].Granted? {
      TakeGrantMoves(s, t, w, s.gate.futures[w].lease);
      if move.Abort? { AbortMoves(c, s, t, w); }
    }
  }

  /** The step a move asks of the gate, if any. */
  ghost function GateStep(s: System, move: Move): seq<Step> {
    var t := move.task;
    if t !in s.tasks then
      if move.Begin? && move.current then [Arrive(move.priority)] else []
    else
      var Task(stream, p) := s.tasks[t];
      if p.Waiting? then
        if move.Awake? then [Wake(p.waiter)]
        else if move.Expire? then [Timeout(p.waiter)]
        else if move.Abort? then [Cancel(p.waiter)]
        else []
      else if HoldsLease(p)
              && (move.Fail? || move.Abort?
                  || (move.Succeed? && (p.Streaming? || (p.Calling? && !stream))))
      then [Release(p.lease)]
      else []
  }

  /** Tasks touch the gate only through its own steps. */
  lemma ActIsGateStep(c: Config, s: System, move: Move)
    requires Agree(s) && s.gate.suspended <= s.gate.futures.Keys
    ensures Act(c, s, move).gate == Run(c, s.gate, GateStep(s, move))
  {
    var steps := GateStep(s, move);
    if steps != [] {
      assert steps[1..] == [];
      assert Run(c, s.gate, steps) == Next(c, s.gate, steps[0]);
    }
  }

  lemma ActGate(c: Config, s: System, move: Move)
    requires Inv(c, s.gate) && Agree(s)
    ensures Inv(c, Act(c, s, move).gate)
  {
    ActIsGateStep(c, s, move);
    RunInv(c, s.gate, GateStep(s, move));
  }

  lemma ActMoves(c: Config, s: System, move: Move)
    requires Inv(c, s.gate) && Agree(s)
    ensures Moved(s, Act(c, s, move), move.task)
  {
    var t := move.task;
    FreshNumbers(c, s.gate);
    if t !in s.tasks {
      if move.Begin? { BeginMoves(c, s, t, move.current, move.priority, move.stream); }
    } else if s.tasks[t].phase.Waiting? {
      EndWaitMoves(c, s, move, t, s.tasks[t].phase.waiter);
    } else if HoldsLease(s.tasks[t].phase) {
      AdvanceMoves(c, s, move, t);
    }
  }

  // ---------------------------------------------------------------- moves keep it

  lemma MovesWaiters(s: System, n: System, t: nat)
    requires WaitersAgree(s) && Moved(s, n, t)
    ensures WaitersAgree(n)
  {
  }

  lemma TakesHolders(s: System, n: System, t: nat, l: nat)
    requires HoldersAgree(s) && Takes(s, n, t, l)
    ensures HoldersAgree(n)
  {
  }

  lemma GivesBackHolders(s: System, n: System, t: nat, l: nat)
    requires HoldersAgree(s) && GivesBack(s, n, t, l)
    ensures HoldersAgree(n)
  {
  }

  lemma MovesAgree(s: System, n: System, t: nat)
    requires Agree(s) && Moved(s, n, t)
    ensures Agree(n)
  {
    MovesWaiters(s, n, t);
    if l :| Takes(s, n, t, l) {
      TakesHolders(s, n, t, l);
    } else if l :| GivesBack(s, n, t, l) {
      GivesBackHolders(s, n, t, l);
    }
  }

  lemma MovesAttend(s: System, n: System, t: nat)
    requires Attended(s) && Moved(s, n, t)
    requires forall l :: l in s.gate.held ==> l < s.gate.acquired
    ensures Attended(n)
  {
    if n != s {
      forall w | w in n.gate.suspended
        ensures exists u :: u in n.tasks && n.tasks[u].phase == Waiting(w)
      {
        if w in s.gate.suspended {
          var u :| u in s.tasks && s.tasks[u].phase == Waiting(w);
          assert n.tasks[u] == s.tasks[u];
        }
      }
      forall k | k in n.gate.live && k in n.gate.held
        ensures exists u :: u in n.tasks && HoldsLease(n.tasks[u].phase) && n.tasks[u].phase.lease == k
      {
        if k in s.gate.held {
          var u :| u in s.tasks && HoldsLease(s.tasks[u].phase) && s.tasks[u].phase.lease == k;
          if u != t { assert n.tasks[u] == s.tasks[u]; }
        }
      }
    }
  }

  lemma TakesRelease(s: System, n: System, t: nat, l: nat)
    requires ReleasedOnce(s) && Takes(s, n, t, l)
    ensures ReleasedOnce(n)
  {
    assert multiset(n.log) == multiset(s.log) + multiset{Leased(t, l)};
  }

  lemma GivesBackRelease(s: System, n: System, t: nat, l: nat)
    requires ReleasedOnce(s) && GivesBack(s, n, t, l) && l < s.gate.acquired
    ensures ReleasedOnce(n)
  {
    assert multiset(n.log) == multiset(s.log) + multiset{Released(l)};
  }

  lemma MovesRelease(s: System, n: System, t: nat)
    requires ReleasedOnce(s) && Moved(s, n, t)
    requires forall l :: l in s.gate.live ==> l < s.gate.acquired
    ensures ReleasedOnce(n)
  {
    if l :| Takes(s, n, t, l) {
      TakesRelease(s, n, t, l);
    } else if l :| GivesBack(s, n, t, l) {
      GivesBackRelease(s, n, t, l);
    } else if n.log != s.log {
      assert multiset(n.log) == multiset(s.log) + multiset{n.log[|s.log|]};
    }
  }

  /** The lease of every holder is on record, and not as released. */
  ghost predicate LogOk(s: System) {
    CallsAreFenced(s.log) && OnRecord(s)
  }

  lemma MovesLog(s: System, n: System, t: nat)
    requires LogOk(s) && ReleasedOnce(s) && Agree(s) && Moved(s, n, t)
    ensures LogOk(n)
  {
    if n.log != s.log {
      var e := n.log[|s.log|];
      if e.Called? { NotReleased(s, e.lease); }
      CallsStayFenced(s.log, e);
      RecordsStay(s, e);
      assert e in n.log;
      if e.Fenced? { FenceRecorded(s.log, t, e.lease); }
    }
  }

  ghost predicate Good(c: Config, s: System) {
    Inv(c, s.gate) && Agree(s) && Attended(s) && ReleasedOnce(s) && LogOk(s)
  }

  lemma ActGood(c: Config, s: System, move: Move)
    requires Good(c, s)
    ensures Good(c, Act(c, s, move))
  {
    var n := Act(c, s, move);
    ActGate(c, s, move);
    ActMoves(c, s, move);
    MovesAgree(s, n, move.task);
    MovesAttend(s, n, move.task);
    MovesRelease(s, n, move.task);
    MovesLog(s, n, move.task);
  }

  lemma {:induction false} PerformGood(c: Config, s: System, moves: seq<Move>)
    requires Good(c, s)
    ensures Good(c, Perform(c, s, moves))
    decreases |moves|
  {
    if moves != [] {
      ActGood(c, s, moves[0]);
      PerformGood(c, Act(c, s, moves[0]), moves[1..]);
    }
  }

  lemma StartGood(c: Config)
    ensures Good(c, START)
  {
    NothingReleased(START);
  }

  lemma NothingReleased(s: System)
    requires s.log == [] && s.gate.acquired == 0
    ensures ReleasedOnce(s)
  {
    assert multiset(s.log) == multiset{};
  }

  // ---------------------------------------------------------------- main results

  /** For every interleaving of dispatches, failures and cancellations: the provider is
      called only under a granted lease, after a fence check that followed the grant, and
      never after that lease was released; a lease has no release as long as it is live, and
      exactly one once it is not. */
  lemma DispatchesAreFenced(c: Config, moves: seq<Move>)
    ensures var s := Perform(c, START, moves);
            && CallsAreFenced(s.log)
            && (forall l: nat :: multiset(s.log)[Released(l)]
                                 == if l < s.gate.acquired && l !in s.gate.live then 1 else 0)
            && (forall t :: t in s.tasks && s.tasks[t].phase.Calling? ==>
                  s.tasks[t].phase.lease in s.gate.live)
  {
    StartGood(c);
    PerformGood(c, START, moves);
  }

  lemma NobodyLeft(c: Config, s: System)
    requires Inv(c, s.gate) && Attended(s) && ReleasedOnce(s)
    requires forall t :: t in s.tasks ==> s.tasks[t].phase.Done?
    ensures s.gate.active == 0 && s.gate.waiters == [] && s.gate.acquired == s.gate.releases
    ensures forall l: nat :: l < s.gate.acquired ==> multiset(s.log)[Released(l)] == 1
  {
    FreshNumbers(c, s.gate);
    assert s.gate.suspended == {} && s.gate.live == {};
  }

  /** When every task has ended, the gate is idle: no slot is in use, nobody waits, and
      every lease ever issued was released exactly once. */
  lemma AllCallsEndedGateIdle(c: Config, moves: seq<Move>)
    ensures var s := Perform(c, START, moves);
            (forall t :: t in s.tasks ==> s.tasks[t].phase.Done?) ==>
              && s.gate.active == 0 && s.gate.waiters == [] && s.gate.acquired == s.gate.releases
              && (forall l: nat :: l < s.gate.acquired ==> multiset(s.log)[Released(l)] == 1)
  {
    StartGood(c);
    PerformGood(c, START, moves);
    var s := Perform(c, START, moves);
    if forall t :: t in s.tasks ==> s.tasks[t].phase.Done? { NobodyLeft(c, s); }
  }
}
