/** One-use reservation of a receipt, with a high-water mark of generations per principal. */
module ReceiptStore {
  import opened Prelude

  datatype Receipt = Receipt(principal: string, task: string, claim: string, generation: nat,
                             expires: nat, request: string)

  /** Verified claims, with the digest of the request body they are reserved for. */
  datatype Claims = Claims(jti: string, receipt: Receipt)

  datatype Denial = GenerationRegressed | Replayed | StoreUnavailable

  datatype Tables = Tables(receipts: map<string, Receipt>, highwater: map<string, nat>)

  /** The statement at which the database fails, if it does. */
  datatype Outage = Nowhere | AtLookup | AtInsert | AtMark | AtCommit

  datatype Request = Request(claims: Claims, outage: Outage)

  predicate Regressed(t: Tables, r: Receipt) {
    r.principal in t.highwater && t.highwater[r.principal] > r.generation
  }

  function Raised(t: Tables, r: Receipt): map<string, nat> {
    t.highwater[r.principal :=
      if r.principal in t.highwater && t.highwater[r.principal] > r.generation
      then t.highwater[r.principal] else r.generation]
  }

  /** The statements: look up the mark, insert the receipt, raise the mark, commit. */
  function Reserved(t: Tables, q: Request): (Tables, Option<Denial>) {
    var c := q.claims;
    if q.outage == AtLookup then (t, Some(StoreUnavailable))
    else if Regressed(t, c.receipt) then (t, Some(GenerationRegressed))
    else if q.outage == AtInsert then (t, Some(StoreUnavailable))
    else if c.jti in t.receipts then (t, Some(Replayed))
    else if q.outage == AtMark || q.outage == AtCommit then (t, Some(StoreUnavailable))
    else (Tables(t.receipts[c.jti := c.receipt], Raised(t, c.receipt)), None)
  }

  class Store {
    var receipts: map<string, Receipt>
    var highwater: map<string, nat>

    constructor ()
      ensures receipts == map[] && highwater == map[]
    {
      receipts, highwater := map[], map[];
    }

    /** Every way out but the last rolls both tables back. */
    method ReserveOneUse(q: Request) returns (denial: Option<Denial>)
      modifies this
      ensures (Tables(receipts, highwater), denial) == Reserved(old(Tables(receipts, highwater)), q)
    {
      var (before, beforeMarks) := (receipts, highwater);
      var r := q.claims.receipt;
      if q.outage == AtLookup { return Some(StoreUnavailable); }
      if r.principal in highwater && highwater[r.principal] > r.generation {
        return Some(GenerationRegressed);
      }
      if q.outage == AtInsert { return Some(StoreUnavailable); }
      if q.claims.jti in receipts { return Some(Replayed); }
      receipts := receipts[q.claims.jti := r];
      if q.outage == AtMark {
        receipts := before;
        return Some(StoreUnavailable);
      }
      highwater := Raised(Tables(receipts, highwater), r);
      if q.outage == AtCommit {
        receipts, highwater := before, beforeMarks;
        return Some(StoreUnavailable);
      }
      return None;
    }
  }

  // ---------------------------------------------------------------- runs

  const EMPTY := Tables(map[], map[])

  function Run(log: seq<Request>): Tables {
    if log == [] then EMPTY else Reserved(Run(log[..|log| - 1]), log[|log| - 1]).0
  }

  function Answer(log: seq<Request>, i: nat): Option<Denial>
    requires i < |log|
  {
    Reserved(Run(log[..i]), log[i]).1
  }

  /** The mark of a principal is the greatest generation among its receipts, and there is one
      exactly when there are receipts. */
  ghost predicate MarksAreMaxima(t: Tables) {
    && (forall j :: j in t.receipts ==>
          t.receipts[j].principal in t.highwater && t.receipts[j].generation <= t.highwater[t.receipts[j].principal])
    && (forall p :: p in t.highwater ==>
          exists j :: j in t.receipts && t.receipts[j].principal == p && t.receipts[j].generation == t.highwater[p])
  }

  lemma ReservedKeepsMaxima(t: Tables, q: Request)
    requires MarksAreMaxima(t)
    ensures MarksAreMaxima(Reserved(t, q).0)
  {
    var (u, denial) := Reserved(t, q);
    if denial == None {
      var c := q.claims;
      assert u.receipts[c.jti] == c.receipt;
      forall p | p in u.highwater
        ensures exists j :: j in u.receipts && u.receipts[j].principal == p
                            && u.receipts[j].generation == u.highwater[p]
      {
        if p != c.receipt.principal {
          var j :| j in t.receipts && t.receipts[j].principal == p && t.receipts[j].generation == t.highwater[p];
          assert j in u.receipts && u.receipts[j] == t.receipts[j];
        }
      }
    }
  }

  lemma {:induction false} RunKeepsMaxima(log: seq<Request>)
    ensures MarksAreMaxima(Run(log))
    decreases |log|
  {
    if log != [] {
      RunKeepsMaxima(log[..|log| - 1]);
      ReservedKeepsMaxima(Run(log[..|log| - 1]), log[|log| - 1]);
    }
  }

  /** A receipt was accepted at some point of the log. */
  ghost predicate Accepted(log: seq<Request>, jti: string, r: Receipt) {
    exists i: nat :: AcceptedAt(log, i, jti, r)
  }

  predicate AcceptedAt(log: seq<Request>, i: nat, jti: string, r: Receipt) {
    i < |log| && Answer(log, i) == None && log[i].claims == Claims(jti, r)
  }

  /** The receipt table is the record of what was accepted. */
  lemma {:induction false} TableRecordsAccepted(log: seq<Request>, jti: string, r: Receipt)
    ensures Accepted(log, jti, r) <==> jti in Run(log).receipts && Run(log).receipts[jti] == r
    decreases |log|
  {
    if log != [] {
      var n := |log| - 1;
      TableRecordsAccepted(log[..n], jti, r);
      forall i: nat | i < n ensures AcceptedAt(log[..n], i, jti, r) <==> AcceptedAt(log, i, jti, r) {
        assert log[..n][..i] == log[..i];
      }
      if jti in Run(log).receipts && Run(log).receipts[jti] == r {
        if jti !in Run(log[..n]).receipts {
          assert AcceptedAt(log, n, jti, r);
        } else {
          var i: nat :| AcceptedAt(log[..n], i, jti, r);
          assert AcceptedAt(log, i, jti, r);
        }
      }
      if Accepted(log, jti, r) {
        var i: nat :| AcceptedAt(log, i, jti, r);
        if i < n { assert AcceptedAt(log[..n], i, jti, r); }
      }
    }
  }

  lemma ReplayedExactly(log: seq<Request>, jti: string)
    ensures jti in Run(log).receipts <==> exists r :: Accepted(log, jti, r)
  {
    forall r | Accepted(log, jti, r) ensures jti in Run(log).receipts { TableRecordsAccepted(log, jti, r); }
    if jti in Run(log).receipts { TableRecordsAccepted(log, jti, Run(log).receipts[jti]); }
  }

  lemma RegressedExactly(log: seq<Request>, receipt: Receipt)
    ensures Regressed(Run(log), receipt) <==>
              exists jti, r :: Accepted(log, jti, r) && r.principal == receipt.principal
                               && r.generation > receipt.generation
  {
    var t := Run(log);
    RunKeepsMaxima(log);
    if Regressed(t, receipt) {
      var j :| j in t.receipts && t.receipts[j].principal == receipt.principal
               && t.receipts[j].generation == t.highwater[receipt.principal];
      TableRecordsAccepted(log, j, t.receipts[j]);
    }
    forall jti, r | Accepted(log, jti, r) && r.principal == receipt.principal && r.generation > receipt.generation
      ensures Regressed(t, receipt)
    {
      TableRecordsAccepted(log, jti, r);
    }
  }

  /** A reservation is accepted exactly when the database answers, its token was not accepted
      before, and no greater generation was accepted for its principal. */
  lemma AcceptedExactly(log: seq<Request>, i: nat)
    requires i < |log|
    ensures var c := log[i].claims;
            Answer(log, i) == None <==>
              && log[i].outage == Nowhere
              && (forall r :: !Accepted(log[..i], c.jti, r))
              && (forall jti, r :: Accepted(log[..i], jti, r) && r.principal == c.receipt.principal
                                   ==> r.generation <= c.receipt.generation)
  {
    ReplayedExactly(log[..i], log[i].claims.jti);
    RegressedExactly(log[..i], log[i].claims.receipt);
  }

  /** Over every run a token is accepted at most once and the generations accepted for a
      principal never decrease. */
  lemma OnceAndForward(log: seq<Request>, i: nat, j: nat)
    requires i < j < |log| && Answer(log, i) == None && Answer(log, j) == None
    ensures log[i].claims.jti != log[j].claims.jti
    ensures log[i].claims.receipt.principal == log[j].claims.receipt.principal ==>
              log[i].claims.receipt.generation <= log[j].claims.receipt.generation
  {
    var c := log[i].claims;
    AcceptedExactly(log, j);
    assert log[..j][..i] == log[..i];
    assert AcceptedAt(log[..j], i, c.jti, c.receipt);
    assert Accepted(log[..j], c.jti, c.receipt);
  }
}
