/** The executor's inference-attempt budget: how often one token may be used. */
module AttemptLedger {
  import opened Prelude

  datatype Record = Record(count: nat, expires: int)

  datatype Error = BudgetExhausted

  datatype Call = Call(jti: string, expires: int, maximum: int, now: int)

  type Records = map<string, Record>

  /** The records that have not expired. */
  function Live(records: Records, now: int): Records {
    map k | k in records && records[k].expires > now :: records[k]
  }

  function Count(records: Records, jti: string): nat {
    if jti in records then records[jti].count else 0
  }

  /** One acquire: the new records and the attempt number, or a refusal. */
  function Acquired(records: Records, c: Call): (Records, Result<nat, Error>) {
    var live := Live(records, c.now);
    var count := Count(live, c.jti);
    if count >= c.maximum then (live, Failure(BudgetExhausted))
    else (live[c.jti := Record(count + 1, c.expires)], Success(count + 1))
  }

  class Ledger {
    var records: Records

    constructor ()
      ensures records == map[]
    {
      records := map[];
    }

    method Acquire(c: Call) returns (r: Result<nat, Error>)
      modifies this
      ensures (records, r) == Acquired(old(records), c)
    {
      records := map k | k in records && records[k].expires > c.now :: records[k];
      var count := if c.jti in records then records[c.jti].count else 0;
      if count >= c.maximum { return Failure(BudgetExhausted); }
      count := count + 1;
      records := records[c.jti := Record(count, c.expires)];
      return Success(count);
    }
  }

  // ---------------------------------------------------------------- runs

  function Run(calls: seq<Call>): Records {
    if calls == [] then map[] else Acquired(Run(calls[..|calls| - 1]), calls[|calls| - 1]).0
  }

  function Answer(calls: seq<Call>, i: nat): Result<nat, Error>
    requires i < |calls|
  {
    Acquired(Run(calls[..i]), calls[i]).1
  }

  /** How often a token was granted an attempt. */
  function Granted(calls: seq<Call>, jti: string): nat {
    if calls == [] then 0
    else
      var n := |calls| - 1;
      Granted(calls[..n], jti) + if calls[n].jti == jti && Answer(calls, n).Success? then 1 else 0
  }

  /** The clock does not go back, and every use of a token carries the token's expiry. */
  ghost predicate Orderly(calls: seq<Call>) {
    && (forall i, j :: 0 <= i < j < |calls| ==> calls[i].now <= calls[j].now)
    && (forall i, j :: 0 <= i < j < |calls| && calls[i].jti == calls[j].jti ==> calls[i].expires == calls[j].expires)
  }

  lemma OrderlyPrefix(calls: seq<Call>, n: nat)
    requires Orderly(calls) && n <= |calls|
    ensures Orderly(calls[..n])
  {
  }

  /** Until a token expires its record counts its grants, although other calls drop records. */
  lemma {:induction false} RecordsCountGrants(calls: seq<Call>, c: Call)
    requires Orderly(calls + [c]) && c.now < c.expires
    ensures Count(Live(Run(calls), c.now), c.jti) == Granted(calls, c.jti)
    ensures Count(Run(calls), c.jti) == Granted(calls, c.jti)
    ensures c.jti in Run(calls) ==> Run(calls)[c.jti].expires == c.expires
    decreases |calls|
  {
    var all := calls + [c];
    if calls != [] {
      var n := |calls| - 1;
      var last := calls[n];
      assert all[n] == last && all[n + 1] == c;
      var d := Call(c.jti, c.expires, c.maximum, last.now);
      assert Orderly(calls[..n] + [d]) by {
        var shorter := calls[..n] + [d];
        assert forall i :: 0 <= i < n ==> shorter[i] == all[i];
      }
      RecordsCountGrants(calls[..n], d);
    }
  }

  /** While a token lives, its successful acquires are numbered 1, 2, 3, ... and one succeeds
      exactly when fewer than the maximum did before it.  From its expiry on nothing that was
      spent is remembered: every acquire is numbered 1. */
  lemma AttemptsAreNumbered(calls: seq<Call>, i: nat)
    requires Orderly(calls) && i < |calls|
    ensures var c := calls[i];
            var spent := if c.now < c.expires then Granted(calls[..i], c.jti) else 0;
            Answer(calls, i) == if spent < c.maximum then Success(spent + 1) else Failure(BudgetExhausted)
  {
    var c := calls[i];
    assert calls[..i + 1] == calls[..i] + [c];
    OrderlyPrefix(calls, i + 1);
    if c.now < c.expires {
      RecordsCountGrants(calls[..i], c);
    } else {
      RecordsKeepExpiry(calls[..i], c);
    }
  }

  lemma {:induction false} RecordsKeepExpiry(calls: seq<Call>, c: Call)
    requires Orderly(calls + [c])
    ensures c.jti in Run(calls) ==> Run(calls)[c.jti].expires == c.expires
    decreases |calls|
  {
    if calls != [] {
      var n := |calls| - 1;
      var all := calls + [c];
      assert all[n] == calls[n] && all[n + 1] == c;
      assert Orderly(calls[..n] + [c]) by {
        var shorter := calls[..n] + [c];
        assert forall i :: 0 <= i < n ==> shorter[i] == all[i];
      }
      RecordsKeepExpiry(calls[..n], c);
    }
  }

  /** A token that lives through a run is granted no more attempts than its largest maximum. */
  lemma {:induction false} NeverMoreThanMaximum(calls: seq<Call>, jti: string, maximum: nat)
    requires Orderly(calls)
    requires forall c :: c in calls && c.jti == jti ==> c.now < c.expires && c.maximum <= maximum
    ensures Granted(calls, jti) <= maximum
    decreases |calls|
  {
    if calls != [] {
      var n := |calls| - 1;
      OrderlyPrefix(calls, n);
      NeverMoreThanMaximum(calls[..n], jti, maximum);
      assert calls[n] in calls;
      AttemptsAreNumbered(calls, n);
    }
  }

  /** A token for one attempt that expires at ten: the second use is refused, and from its expiry
      on it may be used again. */
  lemma ExpiredTokenStartsOver()
    ensures var calls := [Call("t", 10, 1, 0), Call("t", 10, 1, 5), Call("t", 10, 1, 10)];
            && Answer(calls, 0) == Success(1)
            && Answer(calls, 1) == Failure(BudgetExhausted)
            && Answer(calls, 2) == Success(1)
  {
    var calls := [Call("t", 10, 1, 0), Call("t", 10, 1, 5), Call("t", 10, 1, 10)];
    assert calls[..0] == [] && calls[..1] == [calls[0]] && calls[..2] == [calls[0], calls[1]];
    AttemptsAreNumbered(calls, 0);
    AttemptsAreNumbered(calls, 1);
    AttemptsAreNumbered(calls, 2);
    assert Granted([], "t") == 0;
    assert calls[..1][..0] == [];
  }
}
