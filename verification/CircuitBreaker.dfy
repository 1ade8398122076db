/** The circuit breaker: an owner is refused for a while after repeated failures. */
module CircuitBreaker {
  import opened Prelude

  datatype Circuit = Circuit(failures: nat, openedUntil: Option<int>, lastError: Option<string>)

  const CLOSED := Circuit(0, None, None)

  type States = map<string, Circuit>

  datatype Event =
    | Allowed(owner: string, now: int)
    | Succeeded(owner: string)
    | Failed(owner: string, error: string, retryAfter: Option<int>, now: int)
    | Reset(owner: string)
    | ResetAll

  datatype Settings = Settings(threshold: int, cooldown: int)

  /** `retry_after or cooldown`: zero and absent both mean the cooldown. */
  function Delay(s: Settings, e: Event): int
    requires e.Failed?
  {
    if e.retryAfter.Some? && e.retryAfter.value != 0 then e.retryAfter.value else s.cooldown
  }

  /** The states after one event. */
  function Handled(s: Settings, states: States, e: Event): States {
    match e
    case Allowed(owner, now) =>
      if owner in states && states[owner].openedUntil.Some? && now >= states[owner].openedUntil.value
      then states[owner := CLOSED] else states
    case Succeeded(owner) => states[owner := CLOSED]
    case Failed(owner, error, _, now) =>
      var c := if owner in states then states[owner] else CLOSED;
      states[owner := Circuit(c.failures + 1,
                              if c.failures + 1 >= s.threshold then Some(now + Delay(s, e)) else c.openedUntil,
                              Some(error))]
    case Reset(owner) => states - {owner}
    case ResetAll => map[]
  }

  /** What `allowed` answers. */
  predicate Permits(states: States, owner: string, now: int) {
    !(owner in states && states[owner].openedUntil.Some? && now < states[owner].openedUntil.value)
  }

  class Breaker {
    const settings: Settings
    var states: States

    constructor (settings: Settings)
      ensures this.settings == settings && states == map[]
    {
      this.settings, states := settings, map[];
    }

    method IsAllowed(owner: string, now: int) returns (yes: bool)
      modifies this`states
      ensures states == Handled(settings, old(states), Allowed(owner, now))
      ensures yes == Permits(old(states), owner, now)
    {
      if owner !in states { return true; }
      var c := states[owner];
      if c.openedUntil.Some? && now < c.openedUntil.value { return false; }
      if c.openedUntil.Some? && now >= c.openedUntil.value {
        states := states[owner := c.(failures := 0, openedUntil := None, lastError := None)];
      }
      return true;
    }

    method RecordSuccess(owner: string)
      modifies this`states
      ensures states == Handled(settings, old(states), Succeeded(owner))
    {
      states := states[owner := CLOSED];
    }

    method RecordFailure(owner: string, error: string, retryAfter: Option<int>, now: int)
      modifies this`states
      ensures states == Handled(settings, old(states), Failed(owner, error, retryAfter, now))
    {
      if owner !in states { states := states[owner := CLOSED]; }
      var c := states[owner];
      c := c.(failures := c.failures + 1, lastError := Some(error));
      if c.failures >= settings.threshold {
        c := c.(openedUntil := Some(now + Delay(settings, Failed(owner, error, retryAfter, now))));
      }
      states := states[owner := c];
    }

    method ResetCircuits(owner: Option<string>) returns (cleared: nat)
      modifies this`states
      ensures states == Handled(settings, old(states), if owner.Some? then Reset(owner.value) else ResetAll)
      ensures cleared == |old(states)| - |states|
    {
      if owner.None? {
        cleared := |states|;
        states := map[];
      } else if owner.value in states {
        ghost var before := states;
        states := states - {owner.value};
        assert before.Keys == states.Keys + {owner.value};
        assert |before| == |before.Keys| && |states| == |states.Keys|;
        cleared := 1;
      } else {
        cleared := 0;
        assert states - {owner.value} == states;
      }
    }
  }

  // ---------------------------------------------------------------- runs

  function Run(s: Settings, log: seq<Event>): States {
    if log == [] then map[] else Handled(s, Run(s, log[..|log| - 1]), log[|log| - 1])
  }

  /** A failure and when the refusal it may cause ends. */
  datatype Strike = Strike(at: int, until: int)

  /** Enough failures to refuse: a threshold below one acts as one. */
  predicate Enough(s: Settings, strikes: seq<Strike>) { |strikes| >= 1 && |strikes| >= s.threshold }

  /** Whether the failures counted so far refuse an owner at a time. */
  predicate Refuses(s: Settings, strikes: seq<Strike>, now: int) {
    Enough(s, strikes) && now < strikes[|strikes| - 1].until
  }

  predicate Clears(s: Settings, strikes: seq<Strike>, e: Event, owner: string) {
    match e
    case Allowed(o, now) => o == owner && Enough(s, strikes) && !Refuses(s, strikes, now)
    case Succeeded(o) => o == owner
    case Failed(_, _, _, _) => false
    case Reset(o) => o == owner
    case ResetAll => true
  }

  /** The owner's failures since its last success, reset or cooldown clearing. */
  function Strikes(s: Settings, log: seq<Event>, owner: string): seq<Strike> {
    if log == [] then []
    else
      var (before, e) := (Strikes(s, log[..|log| - 1], owner), log[|log| - 1]);
      if Clears(s, before, e, owner) then []
      else if e.Failed? && e.owner == owner then before + [Strike(e.now, e.now + Delay(s, e))]
      else before
  }

  /** The circuit of an owner is a summary of its strikes. */
  lemma {:induction false} CircuitSummarizes(s: Settings, log: seq<Event>, owner: string)
    ensures var states := Run(s, log);
            var c := if owner in states then states[owner] else CLOSED;
            var strikes := Strikes(s, log, owner);
            && c.failures == |strikes|
            && c.openedUntil == if Enough(s, strikes) then Some(strikes[|strikes| - 1].until) else None
    decreases |log|
  {
    if log != [] { CircuitSummarizes(s, log[..|log| - 1], owner); }
  }

  /** For every history an owner is refused exactly when at least the threshold of failures was
      recorded since its last success, reset or clearing, and the time is before the latest
      failure plus that failure's own delay. */
  lemma RefusedExactly(s: Settings, log: seq<Event>, owner: string, now: int)
    ensures !Permits(Run(s, log), owner, now) <==> Refuses(s, Strikes(s, log, owner), now)
  {
    CircuitSummarizes(s, log, owner);
  }

  function FailuresOf(log: seq<Event>, owner: string): nat {
    if log == [] then 0
    else FailuresOf(log[..|log| - 1], owner) + if log[|log| - 1].Failed? && log[|log| - 1].owner == owner then 1 else 0
  }

  lemma {:induction false} StrikesAreNew(s: Settings, log: seq<Event>, more: seq<Event>, owner: string)
    requires Strikes(s, log, owner) == []
    ensures |Strikes(s, log + more, owner)| <= FailuresOf(more, owner)
    decreases |more|
  {
    if more == [] {
      assert log + more == log;
    } else {
      var n := |more| - 1;
      assert (log + more)[..|log| + n] == log + more[..n];
      StrikesAreNew(s, log, more[..n], owner);
    }
  }

  /** After a clearing a full threshold of new failures is needed before the next refusal. */
  lemma FullThresholdAfterClearing(s: Settings, log: seq<Event>, e: Event, more: seq<Event>, owner: string, now: int)
    requires Clears(s, Strikes(s, log, owner), e, owner)
    requires !Permits(Run(s, log + [e] + more), owner, now)
    ensures FailuresOf(more, owner) >= s.threshold && FailuresOf(more, owner) >= 1
  {
    assert (log + [e])[..|log|] == log;
    StrikesAreNew(s, log + [e], more, owner);
    RefusedExactly(s, log + [e] + more, owner, now);
  }
}
