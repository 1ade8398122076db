/** Many failover loops at once, sharing the in-flight counts, the quota and the breaker.

    A loop gives way to the others at every await: between reserving quota and starting a
    dispatch, while the dispatch runs, and between its failure and the refund.  What the checks
    and the dispatch of each of its candidates come to is given by its own world, so any
    interference through quota and breaker is covered. */
module FailoverInterleaving {
  import opened Prelude
  import opened Failover

  datatype Phase =
    | Between                       // no candidate in hand
    | Reserved                      // quota held, dispatch not started
    | Dispatching
    | Refunding                     // dispatch failed, quota still held
    | Ended(outcome: Outcome)

  /** One request; in the middle phases it has the candidate in `place` in hand. */
  datatype Task = Task(flat: seq<Owner>, world: World, place: nat, phase: Phase, errors: seq<Rejection>)

  datatype Shared = Shared(tasks: seq<Task>, inflight: Account, held: Account, ledger: multiset<Entry>)

  datatype Move = Arrive(flat: seq<Owner>, world: World) | Advance(task: nat)

  const IDLE := Shared([], multiset{}, multiset{}, multiset{})

  predicate InHand(p: Phase) { p.Reserved? || p.Dispatching? || p.Refunding? }

  /** The next section of a request: it ends, passes over a candidate, or moves on with one. */
  function After(k: Task): Task
    requires InHand(k.phase) ==> k.place < |k.flat|
  {
    match k.phase
    case Between =>
      if k.place >= |k.flat| then k.(phase := Ended(AllFailed(k.errors)))
      else if Stops(k.world, k.place) then k.(phase := Ended(TimedOut(k.errors)))
      else if Dispatches(k.world.facts(k.place)) then k.(phase := Reserved)
      else Past(k)
    case Reserved => k.(phase := Dispatching)
    case Dispatching =>
      if k.world.facts(k.place).dispatch.Answered? then k.(phase := Ended(Served(k.flat[k.place])))
      else k.(phase := Refunding)
    case Refunding => Past(k).(phase := Between)
    case Ended(_) => k
  }

  function Past(k: Task): Task
    requires k.place < |k.flat|
  {
    k.(place := k.place + 1, errors := k.errors + Rejected(k.flat[k.place], k.world.facts(k.place)))
  }

  /** What that section writes to the shared books. */
  function Booked(s: Shared, k: Task): Shared
    requires InHand(k.phase) ==> k.place < |k.flat|
  {
    var x := After(k);
    match k.phase
    case Between => if x.phase.Reserved? then s.(held := s.held + multiset{k.flat[k.place]}) else s
    case Reserved => s.(inflight := s.inflight + multiset{k.flat[k.place]})
    case Dispatching =>
      var lowered := s.(inflight := s.inflight - multiset{k.flat[k.place]});
      if x.phase.Ended? then lowered.(ledger := s.ledger + multiset{SuccessFor(k.flat[k.place])}) else lowered
    case Refunding =>
      s.(held := s.held - multiset{k.flat[k.place]}, ledger := s.ledger + multiset{FailureFor(k.flat[k.place])})
    case Ended(_) => s
  }

  function Act(s: Shared, m: Move): Shared {
    match m
    case Arrive(flat, world) => s.(tasks := s.tasks + [Task(flat, world, 0, Between, [])])
    case Advance(t) =>
      if t < |s.tasks| && (InHand(s.tasks[t].phase) ==> s.tasks[t].place < |s.tasks[t].flat|)
      then Booked(s, s.tasks[t]).(tasks := s.tasks[t := After(s.tasks[t])])
      else s
  }

  function Perform(s: Shared, moves: seq<Move>): Shared
    decreases |moves|
  {
    if moves == [] then s else Perform(Act(s, moves[0]), moves[1..])
  }

  // ---------------------------------------------------------------- what a request owes the books

  predicate HasInHand(k: Task, o: Owner) { InHand(k.phase) && k.place < |k.flat| && k.flat[k.place] == o }

  /** Whether a request is dispatching to an owner, as a number. */
  function Flying(o: Owner): Task -> nat { (k: Task) => if k.phase.Dispatching? && HasInHand(k, o) then 1 else 0 }

  /** Whether it was won by an owner. */
  function WonBy(o: Owner): Task -> nat { (k: Task) => if k.phase == Ended(Served(o)) then 1 else 0 }

  /** Whether it holds quota of an owner. */
  function Holding(o: Owner): Task -> nat {
    (k: Task) => if HasInHand(k, o) || k.phase == Ended(Served(o)) then 1 else 0
  }

  /** How often it told the breaker something: once for each dispatch it is done with. */
  function Telling(e: Entry): Task -> nat { (k: Task) => multiset(EntriesOf(k))[e] }

  function EntriesOf(k: Task): seq<Entry> {
    if k.phase.Ended? then Entries(k.world, k.flat, Considered(k.world, k.flat))
    else if k.place <= |k.flat| then Entries(k.world, k.flat, k.place)
    else []
  }

  function Total(tasks: seq<Task>, of: Task -> nat): nat {
    if tasks == [] then 0 else Total(tasks[..|tasks| - 1], of) + of(tasks[|tasks| - 1])
  }

  lemma {:induction false} TotalChanges(tasks: seq<Task>, t: nat, x: Task, of: Task -> nat)
    requires t < |tasks|
    ensures Total(tasks[t := x], of) + of(tasks[t]) == Total(tasks, of) + of(x)
    decreases |tasks|
  {
    var n := |tasks| - 1;
    if t == n {
      assert tasks[t := x][..n] == tasks[..n];
    } else {
      assert tasks[t := x][..n] == tasks[..n][t := x];
      TotalChanges(tasks[..n], t, x, of);
    }
  }

  lemma {:induction false} TotalGrows(tasks: seq<Task>, x: Task, of: Task -> nat)
    ensures Total(tasks + [x], of) == Total(tasks, of) + of(x)
  {
    assert (tasks + [x])[..|tasks|] == tasks;
  }

  // ---------------------------------------------------------------- the invariant

  /** A request is where it would be if it were alone. */
  ghost predicate Alone(k: Task) {
    && k.place <= |k.flat|
    && (k.phase.Ended? ==> k.phase.outcome == Verdict(k.world, k.flat))
    && (!k.phase.Ended? ==> k.place <= Reach(k.world, |k.flat|, 0) && k.errors == Errors(k.world, k.flat, k.place))
    && (InHand(k.phase) ==>
          && k.place < |k.flat| && !Stops(k.world, k.place) && Dispatches(k.world.facts(k.place))
          && (k.phase.Refunding? ==> !Wins(k.world.facts(k.place))))
  }

  ghost predicate AllAlone(tasks: seq<Task>) { forall t :: 0 <= t < |tasks| ==> Alone(tasks[t]) }

  /** The books are the sum of what the requests owe them. */
  ghost predicate Balanced(s: Shared) {
    && (forall o :: s.inflight[o] == Total(s.tasks, Flying(o)))
    && (forall o :: s.held[o] == Total(s.tasks, Holding(o)))
    && (forall e :: s.ledger[e] == Total(s.tasks, Telling(e)))
  }

  ghost predicate Good(s: Shared) { AllAlone(s.tasks) && Balanced(s) }

  lemma AfterIsAlone(k: Task)
    requires Alone(k)
    ensures Alone(After(k))
  {
    if k.place < |k.flat| { ReachIsFirst(k.world, |k.flat|, 0, k.place); }
  }

  /** What a section tells the breaker. */
  function Told(k: Task): seq<Entry>
    requires InHand(k.phase) ==> k.place < |k.flat|
  {
    if k.phase.Dispatching? && After(k).phase.Ended? then [SuccessFor(k.flat[k.place])]
    else if k.phase.Refunding? then [FailureFor(k.flat[k.place])]
    else []
  }

  lemma {:induction false} AfterAddsEntries(k: Task)
    requires Alone(k)
    ensures EntriesOf(After(k)) == EntriesOf(k) + Told(k)
  {
    if k.place < |k.flat| { ReachIsFirst(k.world, |k.flat|, 0, k.place); }
  }

  predicate Faces(k: Task, o: Owner) { k.place < |k.flat| && k.flat[k.place] == o }

  /** How the next section of a request changes its dispatches to an owner. */
  function FlyingChange(k: Task, o: Owner): int {
    if !Faces(k, o) then 0 else if k.phase.Reserved? then 1 else if k.phase.Dispatching? then -1 else 0
  }

  /** How it changes what the request holds of an owner. */
  function HoldingChange(k: Task, o: Owner): int {
    if !Faces(k, o) then 0
    else if k.phase.Between? && After(k).phase.Reserved? then 1
    else if k.phase.Refunding? then -1
    else 0
  }

  lemma {:induction false} FlyingMoves(k: Task, o: Owner)
    requires Alone(k)
    ensures Flying(o)(After(k)) == Flying(o)(k) + FlyingChange(k, o)
  {
  }

  lemma {:induction false} HoldingMoves(k: Task, o: Owner)
    requires Alone(k)
    ensures Holding(o)(After(k)) == Holding(o)(k) + HoldingChange(k, o)
  {
    match k.phase
    case Between =>
    case Reserved =>
    case Dispatching => assert Holding(o)(k) == if Faces(k, o) then 1 else 0;
    case Refunding => assert Holding(o)(After(k)) == 0;
    case Ended(_) =>
  }

  lemma {:induction false} BookedFlying(s: Shared, k: Task, o: Owner)
    requires Alone(k) && s.inflight[o] + FlyingChange(k, o) >= 0
    ensures Booked(s, k).inflight[o] == s.inflight[o] + FlyingChange(k, o)
  {
  }

  lemma {:induction false} BookedHolding(s: Shared, k: Task, o: Owner)
    requires Alone(k) && s.held[o] + HoldingChange(k, o) >= 0
    ensures Booked(s, k).held[o] == s.held[o] + HoldingChange(k, o)
  {
  }

  /** The books after the next section of request `t`. */
  lemma {:induction false} FlyingBalances(s: Shared, t: nat, o: Owner)
    requires Good(s) && t < |s.tasks|
    ensures Booked(s, s.tasks[t]).inflight[o] == Total(s.tasks[t := After(s.tasks[t])], Flying(o))
  {
    TotalChanges(s.tasks, t, After(s.tasks[t]), Flying(o));
    FlyingMoves(s.tasks[t], o);
    BookedFlying(s, s.tasks[t], o);
  }

  lemma {:induction false} HoldingBalances(s: Shared, t: nat, o: Owner)
    requires Good(s) && t < |s.tasks|
    ensures Booked(s, s.tasks[t]).held[o] == Total(s.tasks[t := After(s.tasks[t])], Holding(o))
  {
    TotalChanges(s.tasks, t, After(s.tasks[t]), Holding(o));
    HoldingMoves(s.tasks[t], o);
    BookedHolding(s, s.tasks[t], o);
  }

  lemma {:induction false} TellingBalances(s: Shared, t: nat, e: Entry)
    requires Good(s) && t < |s.tasks|
    ensures Booked(s, s.tasks[t]).ledger[e] == Total(s.tasks[t := After(s.tasks[t])], Telling(e))
  {
    var k := s.tasks[t];
    AfterAddsEntries(k);
    TotalChanges(s.tasks, t, After(k), Telling(e));
    assert multiset(EntriesOf(k) + Told(k)) == multiset(EntriesOf(k)) + multiset(Told(k));
  }

  lemma {:induction false} AdvanceGood(s: Shared, t: nat)
    requires Good(s) && t < |s.tasks|
    ensures Good(Act(s, Advance(t)))
  {
    var x := Act(s, Advance(t));
    AfterIsAlone(s.tasks[t]);
    forall o ensures x.inflight[o] == Total(x.tasks, Flying(o)) { FlyingBalances(s, t, o); }
    forall o ensures x.held[o] == Total(x.tasks, Holding(o)) { HoldingBalances(s, t, o); }
    forall e ensures x.ledger[e] == Total(x.tasks, Telling(e)) { TellingBalances(s, t, e); }
  }

  lemma {:induction false} ArriveGood(s: Shared, flat: seq<Owner>, world: World)
    requires Good(s)
    ensures Good(Act(s, Arrive(flat, world)))
  {
    var k := Task(flat, world, 0, Between, []);
    forall o ensures s.inflight[o] == Total(s.tasks + [k], Flying(o)) { TotalGrows(s.tasks, k, Flying(o)); }
    forall o ensures s.held[o] == Total(s.tasks + [k], Holding(o)) { TotalGrows(s.tasks, k, Holding(o)); }
    forall e ensures s.ledger[e] == Total(s.tasks + [k], Telling(e)) {
      TotalGrows(s.tasks, k, Telling(e));
      assert EntriesOf(k) == [];
    }
  }

  lemma {:induction false} ActGood(s: Shared, m: Move)
    requires Good(s)
    ensures Good(Act(s, m))
  {
    match m
    case Arrive(flat, world) => ArriveGood(s, flat, world);
    case Advance(t) => if t < |s.tasks| { AdvanceGood(s, t); }
  }

  lemma {:induction false} PerformGood(s: Shared, moves: seq<Move>)
    requires Good(s)
    ensures Good(Perform(s, moves))
    decreases |moves|
  {
    if moves != [] {
      ActGood(s, moves[0]);
      PerformGood(Act(s, moves[0]), moves[1..]);
    }
  }

  // ---------------------------------------------------------------- main results

  /** Over every interleaving the in-flight counts are the owners being dispatched to, quota is
      held for those, for reservations and refunds under way and for winners, the breaker was
      told what each request is done with, and every request that ended got the answer it would
      have got alone. */
  lemma BooksFollowRequests(moves: seq<Move>)
    ensures Good(Perform(IDLE, moves))
  {
    PerformGood(IDLE, moves);
  }

  lemma {:induction false} EndedOweNothing(tasks: seq<Task>, o: Owner)
    requires forall k :: k in tasks ==> k.phase.Ended?
    ensures Total(tasks, Flying(o)) == 0 && Total(tasks, Holding(o)) == Total(tasks, WonBy(o))
    decreases |tasks|
  {
    if tasks != [] {
      var n := |tasks| - 1;
      assert tasks[n] in tasks && forall k :: k in tasks[..n] ==> k in tasks;
      EndedOweNothing(tasks[..n], o);
    }
  }

  /** When all requests have ended, nothing is in flight, and of each owner as much quota is held
      as requests were won by it. */
  lemma AllEndedBooksClose(moves: seq<Move>, o: Owner)
    ensures var s := Perform(IDLE, moves);
            (forall k :: k in s.tasks ==> k.phase.Ended?) ==>
              s.inflight[o] == 0 && s.held[o] == Total(s.tasks, WonBy(o))
  {
    PerformGood(IDLE, moves);
    var s := Perform(IDLE, moves);
    if forall k :: k in s.tasks ==> k.phase.Ended? { EndedOweNothing(s.tasks, o); }
  }

  /** Sections a request has before it, at most. */
  function Work(k: Task): nat {
    if k.phase.Ended? || k.place > |k.flat| then 0
    else
      4 * (|k.flat| - k.place) + match k.phase
        case Between => 4
        case Reserved => 3
        case Dispatching => 2
        case _ => 1
  }

  lemma SectionsCount(k: Task)
    requires Alone(k)
    ensures !k.phase.Ended? ==> Work(After(k)) < Work(k)
    ensures Work(k) == 0 <==> k.phase.Ended?
  {
  }

  /** How many of the moves are sections of request `t`. */
  function Sections(moves: seq<Move>, t: nat): nat {
    if moves == [] then 0 else (if moves[0] == Advance(t) then 1 else 0) + Sections(moves[1..], t)
  }

  lemma {:induction false} MoveCounts(s: Shared, m: Move, t: nat)
    requires Good(s) && t < |s.tasks|
    ensures var x := Act(s, m);
            && t < |x.tasks|
            && (m != Advance(t) ==> x.tasks[t] == s.tasks[t])
            && (m == Advance(t) ==> Work(x.tasks[t]) == 0 || Work(x.tasks[t]) < Work(s.tasks[t]))
  {
    SectionsCount(s.tasks[t]);
    AfterIsAlone(s.tasks[t]);
    SectionsCount(After(s.tasks[t]));
  }

  /** No request stalls: it ends within as many of its own sections as it has work, four for each
      candidate left and four more, whatever the others do in between. */
  lemma {:induction false} RequestsEnd(s: Shared, moves: seq<Move>, t: nat)
    requires Good(s) && t < |s.tasks|
    ensures var x := Perform(s, moves);
            t < |x.tasks| && (Sections(moves, t) >= Work(s.tasks[t]) ==> x.tasks[t].phase.Ended?)
    decreases |moves|
  {
    if moves == [] {
      SectionsCount(s.tasks[t]);
    } else {
      ActGood(s, moves[0]);
      MoveCounts(s, moves[0], t);
      RequestsEnd(Act(s, moves[0]), moves[1..], t);
    }
  }
}
