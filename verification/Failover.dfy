/** The failover loop: candidates are tried stage by stage until one answers.

    The environment is given by the number of candidates considered so far: whether the
    deadline has passed, and what the checks and the dispatch of that candidate come to.
    Only the dispatch may raise. */
module Failover {
  import opened Prelude

  /** A model at a provider; breaker, quota and load accounts are kept per owner. */
  datatype Owner = Owner(provider: string, model: string)

  datatype Stage = Stage(candidates: seq<Owner>, optional: bool)

  datatype Dispatch = Answered | ProviderError | UnexpectedError

  datatype Facts = Facts(permitted: bool, circuitClosed: bool, quotaGranted: bool, dispatch: Dispatch)

  datatype World = World(late: nat -> bool, facts: nat -> Facts, maxAttempts: int)

  datatype Reason = CircuitOpen | QuotaUnavailable | DispatchFailed(dispatch: Dispatch)

  datatype Rejection = Rejection(owner: Owner, reason: Reason)

  datatype Outcome =
    | Served(owner: Owner)
    | TimedOut(errors: seq<Rejection>)     // 504
    | AllFailed(errors: seq<Rejection>)    // 503

  /** What the breaker is told. */
  datatype Entry = SuccessFor(owner: Owner) | FailureFor(owner: Owner)

  /** A counter for each owner: raising adds an element, lowering takes one away if there is one. */
  type Account = multiset<Owner>

  // ---------------------------------------------------------------- what should happen

  predicate Stops(w: World, j: nat) { w.late(j) || j >= w.maxAttempts }

  predicate Dispatches(f: Facts) { f.permitted && f.circuitClosed && f.quotaGranted }

  predicate Wins(f: Facts) { Dispatches(f) && f.dispatch.Answered? }

  /** Whether the request ends at the candidate in place `j`, if it gets there. */
  predicate Ends(w: World, j: nat) { Stops(w, j) || Wins(w.facts(j)) }

  /** The candidates of the first `s` stages in the order they are tried. */
  function FlatTo(plan: seq<Stage>, s: nat): seq<Owner>
    requires s <= |plan|
  {
    if s == 0 then [] else FlatTo(plan, s - 1) + plan[s - 1].candidates
  }

  /** The candidates lie in `flat` from place `start` on. */
  predicate Lies(flat: seq<Owner>, start: nat, candidates: seq<Owner>) {
    start + |candidates| <= |flat| && forall c :: 0 <= c < |candidates| ==> flat[start + c] == candidates[c]
  }

  function Flat(plan: seq<Stage>): seq<Owner> { FlatTo(plan, |plan|) }

  /** The place at which the request ends: the first candidate, from `j` on, that meets the
      deadline or the attempt bound, or that answers; the number of candidates if there is none. */
  function Reach(w: World, n: nat, j: nat): (r: nat)
    requires j <= n
    ensures j <= r <= n
    decreases n - j
  {
    if j == n || Ends(w, j) then j else Reach(w, n, j + 1)
  }

  /** The place is the first at which the request could end. */
  lemma {:induction false} ReachIsFirst(w: World, n: nat, j: nat, i: nat)
    requires j <= i < n
    ensures i < Reach(w, n, j) ==> !Ends(w, i)
    ensures i == Reach(w, n, j) ==> Ends(w, i)
    decreases n - j
  {
    if j < i && !Ends(w, j) { ReachIsFirst(w, n, j + 1, i); }
  }

  function Rejected(o: Owner, f: Facts): seq<Rejection> {
    if !f.permitted then []
    else if !f.circuitClosed then [Rejection(o, CircuitOpen)]
    else if !f.quotaGranted then [Rejection(o, QuotaUnavailable)]
    else if f.dispatch.Answered? then []
    else [Rejection(o, DispatchFailed(f.dispatch))]
  }

  function Errors(w: World, flat: seq<Owner>, k: nat): seq<Rejection>
    requires k <= |flat|
  {
    if k == 0 then [] else Errors(w, flat, k - 1) + Rejected(flat[k - 1], w.facts(k - 1))
  }

  function Recorded(o: Owner, f: Facts): seq<Entry> {
    if !Dispatches(f) then [] else if f.dispatch.Answered? then [SuccessFor(o)] else [FailureFor(o)]
  }

  /** The breaker's entries after `k` candidates: one for each dispatch. */
  function Entries(w: World, flat: seq<Owner>, k: nat): seq<Entry>
    requires k <= |flat|
  {
    if k == 0 then [] else Entries(w, flat, k - 1) + Recorded(flat[k - 1], w.facts(k - 1))
  }

  function Verdict(w: World, flat: seq<Owner>): Outcome {
    var r := Reach(w, |flat|, 0);
    if r == |flat| then AllFailed(Errors(w, flat, r))
    else if Stops(w, r) then TimedOut(Errors(w, flat, r))
    else Served(flat[r])
  }

  /** How many candidates were considered. */
  function Considered(w: World, flat: seq<Owner>): nat {
    var r := Reach(w, |flat|, 0);
    if r < |flat| && !Stops(w, r) then r + 1 else r
  }

  /** The place of the first candidate of stage `s`. */
  function Place(plan: seq<Stage>, s: nat): nat
    requires s <= |plan|
  {
    |FlatTo(plan, s)|
  }

  /** A stage is entered when it has candidates and the request did not end before them. */
  predicate Entered(plan: seq<Stage>, s: nat, r: nat)
    requires s < |plan|
  {
    plan[s].candidates != [] && Place(plan, s) <= r
  }

  /** The reservations after the first `s` stages: each one entered gives its top candidate back. */
  function Remaining(planned: Account, plan: seq<Stage>, s: nat, r: nat): Account
    requires s <= |plan|
  {
    if s == 0 then planned
    else
      var before := Remaining(planned, plan, s - 1, r);
      if Entered(plan, s - 1, r) then before - multiset{plan[s - 1].candidates[0]} else before
  }

  /** The top candidates of the first `s` stages. */
  function Tops(plan: seq<Stage>, s: nat): Account
    requires s <= |plan|
  {
    if s == 0 then multiset{}
    else if plan[s - 1].candidates == [] then Tops(plan, s - 1)
    else Tops(plan, s - 1) + multiset{plan[s - 1].candidates[0]}
  }

  function Winner(outcome: Outcome): Account {
    if outcome.Served? then multiset{outcome.owner} else multiset{}
  }

  /** How far the candidates before place `upTo` take a request. */
  predicate Ended(w: World, flat: seq<Owner>, upTo: nat, attempts: nat, timedOut: bool, winner: Option<Owner>) {
    && attempts <= |flat|
    && var r := Reach(w, |flat|, 0);
       if upTo <= r then attempts == upTo && !timedOut && winner == None
       else if Stops(w, r) then attempts == r && timedOut && winner == None
       else attempts == r + 1 && !timedOut && winner == Some(flat[r])
  }

  datatype Books = Books(inflight: Account, planned: Account, held: Account, ledger: seq<Entry>)

  class Router {
    var inflight: Account
    var planned: Account
    var held: Account       // quota reservations
    var ledger: seq<Entry>

    constructor ()
    {
      inflight, planned, held, ledger := multiset{}, multiset{}, multiset{}, [];
    }

    /** Reserves the top candidate of each stage; an exact-model plan reserves nothing. */
    method Reserve(plan: seq<Stage>, exact: bool)
      modifies this`planned
      ensures planned == old(planned) + if exact then multiset{} else Tops(plan, |plan|)
    {
      if exact { return; }
      for s := 0 to |plan|
        invariant planned == old(planned) + Tops(plan, s)
      {
        if plan[s].candidates != [] { planned := planned + multiset{plan[s].candidates[0]}; }
      }
    }

    /** One candidate that may be tried: checks, quota, dispatch and the books. */
    method Try(o: Owner, f: Facts) returns (served: bool, rejected: seq<Rejection>)
      modifies this`inflight, this`held, this`ledger
      ensures served == Wins(f)
      ensures rejected == Rejected(o, f)
      ensures ledger == old(ledger) + Recorded(o, f)
      ensures inflight == old(inflight)
      ensures held == old(held) + if served then multiset{o} else multiset{}
    {
      if !f.permitted { return false, []; }
      if !f.circuitClosed { return false, [Rejection(o, CircuitOpen)]; }
      if !f.quotaGranted { return false, [Rejection(o, QuotaUnavailable)]; }
      held := held + multiset{o};
      inflight := inflight + multiset{o};
      if f.dispatch.Answered? {
        inflight := inflight - multiset{o};
        ledger := ledger + [SuccessFor(o)];
        return true, [];
      }
      inflight := inflight - multiset{o};
      held := held - multiset{o};
      ledger := ledger + [FailureFor(o)];
      return false, [Rejection(o, DispatchFailed(f.dispatch))];
    }

    /** The books after the candidates before place `upTo`, when they were `base` before. */
    ghost predicate Tried(w: World, flat: seq<Owner>, upTo: nat, base: Books,
                          attempts: nat, timedOut: bool, winner: Option<Owner>, errors: seq<Rejection>)
      reads this`inflight, this`held, this`ledger
    {
      && Ended(w, flat, upTo, attempts, timedOut, winner)
      && errors == Errors(w, flat, attempts)
      && ledger == base.ledger + Entries(w, flat, attempts)
      && inflight == base.inflight
      && held == base.held + (if winner.Some? then multiset{winner.value} else multiset{})
    }

    /** The next candidate, unless the deadline has passed or the attempts are used up. */
    method TryNext(o: Owner, w: World, before: nat, rejected: seq<Rejection>, ghost flat: seq<Owner>, ghost base: Books)
      returns (attempts: nat, timedOut: bool, winner: Option<Owner>, errors: seq<Rejection>)
      requires before < |flat| && flat[before] == o
      requires Tried(w, flat, before, base, before, false, None, rejected)
      modifies this`inflight, this`held, this`ledger
      ensures Tried(w, flat, before + 1, base, attempts, timedOut, winner, errors)
    {
      ReachIsFirst(w, |flat|, 0, before);
      if w.late(before) || before >= w.maxAttempts { return before, true, None, rejected; }
      EntriesGrow(base.ledger, w, flat, before);
      var served, more := Try(o, w.facts(before));
      return before + 1, false, if served then Some(o) else None, rejected + more;
    }

    /** The candidates of one stage, from place `start` of the plan on. */
    method TryStage(candidates: seq<Owner>, w: World, start: nat, rejected: seq<Rejection>,
                    ghost flat: seq<Owner>, ghost base: Books)
      returns (attempts: nat, timedOut: bool, winner: Option<Owner>, errors: seq<Rejection>)
      requires Lies(flat, start, candidates)
      requires Tried(w, flat, start, base, start, false, None, rejected)
      modifies this`inflight, this`held, this`ledger
      ensures Tried(w, flat, start + |candidates|, base, attempts, timedOut, winner, errors)
    {
      attempts, timedOut, winner, errors := start, false, None, rejected;
      var c := 0;
      while c < |candidates| && !timedOut && winner.None?
        invariant c <= |candidates|
        invariant Tried(w, flat, start + c, base, attempts, timedOut, winner, errors)
      {
        attempts, timedOut, winner, errors := TryNext(candidates[c], w, attempts, errors, flat, base);
        c := c + 1;
      }
    }

    /** The books after the first `s` stages. */
    ghost predicate Progress(plan: seq<Stage>, w: World, s: nat, base: Books,
                             attempts: nat, timedOut: bool, winner: Option<Owner>, errors: seq<Rejection>)
      requires s <= |plan|
      reads this
    {
      && Tried(w, Flat(plan), Place(plan, s), base, attempts, timedOut, winner, errors)
      && planned == Remaining(base.planned, plan, s, Reach(w, |Flat(plan)|, 0))
    }

    method EnterStage(plan: seq<Stage>, s: nat, w: World, ghost base: Books, before: nat, rejected: seq<Rejection>)
      returns (attempts: nat, timedOut: bool, winner: Option<Owner>, errors: seq<Rejection>)
      requires s < |plan| && Progress(plan, w, s, base, before, false, None, rejected)
      modifies this
      ensures Progress(plan, w, s + 1, base, attempts, timedOut, winner, errors)
    {
      StageAt(plan, s, |plan|);
      var candidates := plan[s].candidates;
      if candidates == [] && plan[s].optional { return before, false, None, rejected; }
      if candidates != [] { planned := planned - multiset{candidates[0]}; }
      assert planned == Remaining(base.planned, plan, s + 1, Reach(w, |Flat(plan)|, 0));
      attempts, timedOut, winner, errors := TryStage(candidates, w, before, rejected, Flat(plan), base);
    }

    /** The stages in order, until one ends the request. */
    method TryStages(plan: seq<Stage>, w: World, ghost base: Books)
      returns (attempts: nat, timedOut: bool, winner: Option<Owner>, errors: seq<Rejection>)
      requires base == Books(inflight, planned, held, ledger)
      modifies this
      ensures Progress(plan, w, |plan|, base, attempts, timedOut, winner, errors)
    {
      attempts, timedOut, winner, errors := 0, false, None, [];
      var s := 0;
      while s < |plan| && !timedOut && winner.None?
        invariant s <= |plan|
        invariant Progress(plan, w, s, base, attempts, timedOut, winner, errors)
      {
        attempts, timedOut, winner, errors := EnterStage(plan, s, w, base, attempts, errors);
        s := s + 1;
      }
      if timedOut || winner.Some? {
        PlacesRise(plan, s, |plan|);
        LaterStagesWait(base.planned, plan, s, |plan|, Reach(w, |Flat(plan)|, 0));
      }
    }

    method Execute(plan: seq<Stage>, w: World) returns (outcome: Outcome)
      modifies this
      ensures outcome == Verdict(w, Flat(plan))
      ensures ledger == old(ledger) + Entries(w, Flat(plan), Considered(w, Flat(plan)))
      ensures inflight == old(inflight)
      ensures held == old(held) + Winner(outcome)
      ensures planned == Remaining(old(planned), plan, |plan|, Reach(w, |Flat(plan)|, 0))
    {
      ghost var base := Books(inflight, planned, held, ledger);
      var attempts, timedOut, winner, errors := TryStages(plan, w, base);
      if winner.Some? { return Served(winner.value); }
      if timedOut { return TimedOut(errors); }
      return AllFailed(errors);
    }
  }

  lemma EntriesGrow(base: seq<Entry>, w: World, flat: seq<Owner>, k: nat)
    requires k < |flat|
    ensures base + Entries(w, flat, k + 1) == base + Entries(w, flat, k) + Recorded(flat[k], w.facts(k))
    ensures Errors(w, flat, k + 1) == Errors(w, flat, k) + Rejected(flat[k], w.facts(k))
  {
  }

  /** The candidates of a stage lie in the plan from the place of the stage on. */
  lemma {:induction false} StageAt(plan: seq<Stage>, s: nat, k: nat)
    requires s < k <= |plan|
    ensures Place(plan, s + 1) == Place(plan, s) + |plan[s].candidates|
    ensures Lies(FlatTo(plan, k), Place(plan, s), plan[s].candidates)
    decreases k
  {
    if s + 1 < k { StageAt(plan, s, k - 1); }
  }

  lemma {:induction false} PlacesRise(plan: seq<Stage>, s: nat, k: nat)
    requires s <= k <= |plan|
    ensures Place(plan, s) <= Place(plan, k)
  {
    if s < k {
      PlacesRise(plan, s, k - 1);
    }
  }

  /** Stages behind the place at which the request ends give nothing back. */
  lemma {:induction false} LaterStagesWait(planned: Account, plan: seq<Stage>, s: nat, k: nat, r: nat)
    requires s <= k <= |plan| && r < Place(plan, s)
    ensures Remaining(planned, plan, k, r) == Remaining(planned, plan, s, r)
    decreases k
  {
    if s < k {
      PlacesRise(plan, s, k - 1);
      LaterStagesWait(planned, plan, s, k - 1, r);
    }
  }

  // ---------------------------------------------------------------- what it guarantees

  /** The winner is the first candidate in plan order that could be dispatched and answered,
      provided that neither deadline nor attempt bound came first. */
  lemma WinnerIsFirst(w: World, flat: seq<Owner>, i: nat)
    ensures Verdict(w, flat).Served? && Reach(w, |flat|, 0) == i <==>
              && i < |flat|
              && Wins(w.facts(i)) && !Stops(w, i)
              && forall j: nat :: j < i ==> !Ends(w, j)
  {
    ReachExactly(w, |flat|);
    assert Wins(w.facts(i)) ==> Ends(w, i);
  }

  lemma ReachExactly(w: World, n: nat)
    ensures var r := Reach(w, n, 0);
            (r < n ==> Ends(w, r)) && forall j: nat :: j < r ==> !Ends(w, j)
  {
    var r := Reach(w, n, 0);
    if r < n { ReachIsFirst(w, n, 0, r); }
    forall j: nat | j < r ensures !Ends(w, j) { ReachIsFirst(w, n, 0, j); }
  }

  /** The answer is 504 exactly when the deadline or the attempt bound is met with a candidate
      left and none before it answered; 503 exactly when every candidate was tried in vain. */
  lemma RefusalIsExact(w: World, flat: seq<Owner>)
    ensures Verdict(w, flat).TimedOut? <==>
              exists i: nat :: i < |flat| && Stops(w, i) && forall j: nat :: j < i ==> !Ends(w, j)
    ensures Verdict(w, flat).AllFailed? <==> forall j: nat :: j < |flat| ==> !Ends(w, j)
  {
    ReachExactly(w, |flat|);
    forall i: nat | i < |flat| && Stops(w, i) && forall j: nat :: j < i ==> !Ends(w, j)
      ensures i == Reach(w, |flat|, 0)
    {
      assert Ends(w, i);
    }
  }

  /** No more candidates are considered than the attempt bound allows. */
  lemma AttemptsAreBounded(w: World, flat: seq<Owner>)
    ensures Considered(w, flat) <= if w.maxAttempts < 0 then 0 else w.maxAttempts
  {
    var r := Reach(w, |flat|, 0);
    if r > 0 { ReachIsFirst(w, |flat|, 0, r - 1); }
  }

  function Successes(entries: seq<Entry>): nat {
    if entries == [] then 0
    else Successes(entries[..|entries| - 1]) + if entries[|entries| - 1].SuccessFor? then 1 else 0
  }

  lemma {:induction false} NoSuccessBefore(w: World, flat: seq<Owner>, k: nat)
    requires k <= Reach(w, |flat|, 0)
    ensures Successes(Entries(w, flat, k)) == 0
  {
    if k > 0 {
      ReachIsFirst(w, |flat|, 0, k - 1);
      NoSuccessBefore(w, flat, k - 1);
      var e := Entries(w, flat, k);
      if Dispatches(w.facts(k - 1)) {
        assert e[..|e| - 1] == Entries(w, flat, k - 1);
      } else {
        assert e == Entries(w, flat, k - 1);
      }
    }
  }

  /** The breaker hears of one success, the last thing it hears, if the request was served, and
      of none otherwise; everything else it hears is a failure. */
  lemma OneSuccess(w: World, flat: seq<Owner>)
    ensures var entries := Entries(w, flat, Considered(w, flat));
            && Successes(entries) == (if Verdict(w, flat).Served? then 1 else 0)
            && (Verdict(w, flat).Served? ==>
                  entries != [] && entries[|entries| - 1] == SuccessFor(Verdict(w, flat).owner))
  {
    var r := Reach(w, |flat|, 0);
    NoSuccessBefore(w, flat, r);
    if r < |flat| && !Stops(w, r) {
      ReachIsFirst(w, |flat|, 0, r);
      var e := Entries(w, flat, r + 1);
      assert e == Entries(w, flat, r) + [SuccessFor(flat[r])];
      assert e[..|e| - 1] == Entries(w, flat, r);
    }
  }

  /** The reservations of stages that were not entered. */
  function Leaked(plan: seq<Stage>, s: nat, r: nat): Account
    requires s <= |plan|
  {
    if s == 0 then multiset{}
    else if plan[s - 1].candidates == [] || Entered(plan, s - 1, r) then Leaked(plan, s - 1, r)
    else Leaked(plan, s - 1, r) + multiset{plan[s - 1].candidates[0]}
  }

  lemma {:induction false} TopsRise(plan: seq<Stage>, s: nat, k: nat)
    requires s <= k <= |plan|
    ensures Tops(plan, s) <= Tops(plan, k)
  {
    if s < k { TopsRise(plan, s, k - 1); }
  }

  /** After `s` stages: the first reservations, those of the stages to come, and the leaks. */
  lemma {:induction false} ReservationsBalance(planned: Account, plan: seq<Stage>, s: nat, r: nat)
    requires s <= |plan|
    ensures Remaining(planned + Tops(plan, |plan|), plan, s, r)
         == planned + Leaked(plan, s, r) + (Tops(plan, |plan|) - Tops(plan, s))
    decreases s
  {
    var all := Tops(plan, |plan|);
    if s == 0 {
      Nothing(planned, all);
    } else {
      ReservationsBalance(planned, plan, s - 1, r);
      TopsRise(plan, s, |plan|);
      if plan[s - 1].candidates != [] {
        TakeOne(planned, Leaked(plan, s - 1, r), all, Tops(plan, s - 1), plan[s - 1].candidates[0]);
      }
    }
  }

  lemma Nothing(a: Account, b: Account)
    ensures a + b == a + multiset{} + (b - multiset{})
  {
  }

  lemma TakeOne(a: Account, leaked: Account, all: Account, done: Account, o: Owner)
    requires done + multiset{o} <= all
    ensures a + leaked + (all - done) - multiset{o} == a + leaked + (all - (done + multiset{o}))
    ensures a + leaked + (all - done) == a + (leaked + multiset{o}) + (all - (done + multiset{o}))
  {
    assert (done + multiset{o})[o] <= all[o];
  }

  /** Planning a request and executing it leaves behind the reservations of the stages it never
      entered, and no others. */
  lemma UnenteredStagesStayReserved(planned: Account, plan: seq<Stage>, r: nat)
    ensures Remaining(planned + Tops(plan, |plan|), plan, |plan|, r) == planned + Leaked(plan, |plan|, r)
  {
    ReservationsBalance(planned, plan, |plan|, r);
    Nothing(planned + Leaked(plan, |plan|, r), multiset{});
  }

  lemma {:induction false} LeaksNothingExactly(plan: seq<Stage>, s: nat, r: nat)
    requires s <= |plan|
    ensures Leaked(plan, s, r) == multiset{} <==>
              forall k: nat :: k < s && plan[k].candidates != [] ==> Entered(plan, k, r)
    decreases s
  {
    if s > 0 {
      LeaksNothingExactly(plan, s - 1, r);
      if plan[s - 1].candidates != [] && !Entered(plan, s - 1, r) {
        assert plan[s - 1].candidates[0] in Leaked(plan, s, r);
      }
    }
  }

  lemma ReturnsIffAllEntered(planned: Account, plan: seq<Stage>, r: nat)
    ensures Remaining(planned + Tops(plan, |plan|), plan, |plan|, r) == planned <==>
              forall k: nat :: k < |plan| && plan[k].candidates != [] ==> Entered(plan, k, r)
  {
    UnenteredStagesStayReserved(planned, plan, r);
    LeaksNothingExactly(plan, |plan|, r);
    var leaked := Leaked(plan, |plan|, r);
    if planned + leaked == planned {
      assert |planned + leaked| == |planned| + |leaked|;
    } else {
      assert planned + multiset{} == planned;
    }
  }

  /** No candidate before stage `k` answers, and none meets the deadline or the attempt bound. */
  ghost predicate NothingEndsBefore(w: World, plan: seq<Stage>, k: nat)
    requires k <= |plan|
  {
    forall j: nat :: j < Place(plan, k) ==> !Ends(w, j)
  }

  lemma EnteredExactly(w: World, plan: seq<Stage>, k: nat)
    requires k < |plan| && plan[k].candidates != []
    ensures Entered(plan, k, Reach(w, |Flat(plan)|, 0)) <==> NothingEndsBefore(w, plan, k)
  {
    ReachExactly(w, |Flat(plan)|);
    PlacesRise(plan, k, |plan|);
  }

  /** The reservation counts return to what they were before the plan if and only if no
      candidate ahead of a stage with candidates answers, meets the deadline or meets the
      attempt bound. */
  lemma ReservationsReturnExactly(planned: Account, plan: seq<Stage>, w: World)
    ensures Remaining(planned + Tops(plan, |plan|), plan, |plan|, Reach(w, |Flat(plan)|, 0)) == planned <==>
              forall k: nat :: k < |plan| && plan[k].candidates != [] ==> NothingEndsBefore(w, plan, k)
  {
    ReturnsIffAllEntered(planned, plan, Reach(w, |Flat(plan)|, 0));
    forall k: nat | k < |plan| && plan[k].candidates != []
      ensures Entered(plan, k, Reach(w, |Flat(plan)|, 0)) <==> NothingEndsBefore(w, plan, k)
    {
      EnteredExactly(w, plan, k);
    }
  }

  /** The plan of a request for one exact model, for which nothing is reserved. */
  function ExactPlan(o: Owner): seq<Stage> { [Stage([o], false)] }

  /** Executing an exact-model plan leaves the reservation counts alone if and only if nobody
      has a reservation of that model; otherwise it takes one away. */
  lemma ExactPlanReturnsExactly(planned: Account, o: Owner, w: World)
    ensures var after := Remaining(planned, ExactPlan(o), 1, Reach(w, |Flat(ExactPlan(o))|, 0));
            after == planned - multiset{o} && (after == planned <==> o !in planned)
  {
    ExactPlanTakesOne(planned, o, Reach(w, |Flat(ExactPlan(o))|, 0));
    TakingChangesExactly(planned, o);
  }

  lemma ExactPlanTakesOne(planned: Account, o: Owner, r: nat)
    ensures Remaining(planned, ExactPlan(o), 1, r) == planned - multiset{o}
  {
    var plan := ExactPlan(o);
    assert Place(plan, 0) == 0 && Remaining(planned, plan, 0, r) == planned;
  }

  lemma TakingChangesExactly(a: Account, o: Owner)
    ensures a - multiset{o} == a <==> o !in a
  {
    if o in a { assert (a - multiset{o})[o] == a[o] - 1; }
  }

  /** So it can take away the reservation that another request has just made. */
  lemma ExactPlanTakesAnothers(o: Owner, rest: seq<Owner>, w: World)
    ensures var other := [Stage([o] + rest, false)];
            && Tops(other, 1) == multiset{o}
            && Remaining(Tops(other, 1), ExactPlan(o), 1, Reach(w, |Flat(ExactPlan(o))|, 0)) == multiset{}
  {
    var other := [Stage([o] + rest, false)];
    assert Tops(other, 0) == multiset{} && Tops(other, 1) == multiset{o};
    ExactPlanReturnsExactly(multiset{o}, o, w);
    assert multiset{o} - multiset{o} == multiset{};
  }

  /** A request answered by the first of two stages leaves the second one reserved. */
  lemma AnsweredEarlyLeaks(first: Owner, second: Owner, facts: Facts)
    requires Wins(facts)
    ensures var plan := [Stage([first], false), Stage([second], false)];
            var w := World((_: nat) => false, (_: nat) => facts, 5);
            && Verdict(w, Flat(plan)) == Served(first)
            && Remaining(multiset{first, second}, plan, 2, Reach(w, |Flat(plan)|, 0)) == multiset{second}
  {
    var plan := [Stage([first], false), Stage([second], false)];
    assert FlatTo(plan, 1) == [first] && Flat(plan) == [first, second];
    assert Remaining(multiset{first, second}, plan, 1, 0) == multiset{second};
  }
}
