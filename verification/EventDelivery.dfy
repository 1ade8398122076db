/** What holds over every run of the outbox and its dispatcher. */
module EventDelivery {
  import opened Prelude
  import opened EventOutbox
  import opened EventDispatcher
  import Sorting

  // ---------------------------------------------------------------- the invariant

  ghost predicate Ascending(rows: seq<Row>, nextId: nat) {
    && (forall i, j :: 0 <= i < j < |rows| ==> rows[i].id < rows[j].id)
    && (forall r :: r in rows ==> r.id < nextId)
  }

  /** Row identifiers, event identifiers and keys are unique. */
  ghost predicate Unique(rows: seq<Row>) {
    forall a, b :: a in rows && b in rows && (a.id == b.id || a.eventId == b.eventId || a.key == b.key) ==> a == b
  }

  /** An active row counts its own posts and may still be posted. */
  ghost predicate Counted(maxAttempts: int, w: World) {
    forall r :: r in w.rows && Active(r) ==>
      r.attempts == w.posts[r.id] && r.attempts < Allowance(maxAttempts)
  }

  ghost predicate Capped(maxAttempts: int, w: World) {
    forall id: nat :: w.posts[id] <= (if id < w.nextId then Allowance(maxAttempts) else 0)
  }

  ghost predicate Distinct(rows: seq<Row>) {
    forall i, j :: 0 <= i < j < |rows| ==> rows[i].id != rows[j].id
  }

  /** The cycle in flight holds distinct active rows, as they still are in the table. */
  ghost predicate Current(w: World) {
    && (forall e :: e in w.batch ==> e in w.rows && Active(e))
    && Distinct(w.batch)
  }

  ghost predicate Inv(maxAttempts: int, w: World) {
    && Ascending(w.rows, w.nextId)
    && Unique(w.rows)
    && Counted(maxAttempts, w)
    && Capped(maxAttempts, w)
    && Current(w)
  }

  /** A row after it was posted. */
  function After(e: Row, maxAttempts: int, reply: Reply): Row {
    Posted([e], e, maxAttempts, reply)[0]
  }

  lemma PostedOnly(rows: seq<Row>, e: Row, maxAttempts: int, reply: Reply)
    requires Unique(rows) && e in rows
    ensures var p := Posted(rows, e, maxAttempts, reply);
            && |p| == |rows|
            && forall i :: 0 <= i < |rows| ==> p[i] == if rows[i] == e then After(e, maxAttempts, reply) else rows[i]
  {
    forall i | 0 <= i < |rows| ensures rows[i].eventId == e.eventId <==> rows[i] == e {
      assert rows[i] in rows;
    }
  }

  lemma AfterKeepsIdentity(e: Row, maxAttempts: int, reply: Reply)
    ensures var a := After(e, maxAttempts, reply);
            && a.id == e.id && a.eventId == e.eventId && a.key == e.key && a.createdAt == e.createdAt
            && (Active(a) ==> a.attempts == e.attempts + 1 < Allowance(maxAttempts))
  {
  }

  lemma PostedMembers(rows: seq<Row>, e: Row, maxAttempts: int, reply: Reply, r: Row)
    requires Unique(rows) && e in rows
    ensures r in Posted(rows, e, maxAttempts, reply) <==>
              r == After(e, maxAttempts, reply) || (r in rows && r != e)
  {
    PostedOnly(rows, e, maxAttempts, reply);
    var p := Posted(rows, e, maxAttempts, reply);
    if r == After(e, maxAttempts, reply) {
      var i :| 0 <= i < |rows| && rows[i] == e;
      assert p[i] == r;
    } else if r in rows && r != e {
      var i :| 0 <= i < |rows| && rows[i] == r;
      assert p[i] == r;
    }
  }

  lemma PostedUnique(rows: seq<Row>, nextId: nat, e: Row, maxAttempts: int, reply: Reply)
    requires Ascending(rows, nextId) && Unique(rows) && e in rows
    ensures Ascending(Posted(rows, e, maxAttempts, reply), nextId)
    ensures Unique(Posted(rows, e, maxAttempts, reply))
  {
    PostedOnly(rows, e, maxAttempts, reply);
    AfterKeepsIdentity(e, maxAttempts, reply);
    var p := Posted(rows, e, maxAttempts, reply);
    forall r | r in p ensures r == After(e, maxAttempts, reply) || (r in rows && r != e) {
      PostedMembers(rows, e, maxAttempts, reply, r);
    }
  }

  lemma {:induction false} PostKeeps(maxAttempts: int, w: World, reply: Reply)
    requires Inv(maxAttempts, w) && w.batch != []
    ensures Inv(maxAttempts, Next(maxAttempts, w, Post(reply)))
  {
    var e := w.batch[0];
    assert e in w.batch;
    var x := Next(maxAttempts, w, Post(reply));
    PostedUnique(w.rows, w.nextId, e, maxAttempts, reply);
    AfterKeepsIdentity(e, maxAttempts, reply);
    forall r | r in x.rows && Active(r)
      ensures r.attempts == x.posts[r.id] && r.attempts < Allowance(maxAttempts)
    {
      PostedMembers(w.rows, e, maxAttempts, reply, r);
    }
    forall b | b in x.batch ensures b in x.rows && Active(b) {
      var i :| 0 <= i < |x.batch| && x.batch[i] == b;
      assert w.batch[i + 1] == b && b in w.batch;
      PostedMembers(w.rows, e, maxAttempts, reply, b);
    }
  }

  lemma EnqueueKeeps(maxAttempts: int, w: World, step: Step)
    requires Inv(maxAttempts, w) && step.Enqueue?
    ensures Inv(maxAttempts, Next(maxAttempts, w, step))
  {
    var x := Next(maxAttempts, w, step);
    if !Collides(w.rows, step.eventId, step.key) {
      var n := x.rows[|w.rows|];
      assert forall r :: r in x.rows ==> r in w.rows || r == n;
      assert Unique(x.rows) by { assert forall r :: r in w.rows ==> r.id != n.id; }
    }
  }

  lemma TailAscends(rows: seq<Row>, nextId: nat)
    requires Ascending(rows, nextId) && rows != []
    ensures rows[0].id < nextId && Ascending(rows[1..], nextId)
    ensures forall r :: r in rows[1..] ==> rows[0].id < r.id
  {
    assert rows[0] in rows && forall r :: r in rows[1..] ==> r in rows;
  }

  lemma PrependInOrder(x: Row, rows: seq<Row>, nextId: nat, i: nat, j: nat)
    requires Ascending(rows, nextId) && (forall r :: r in rows ==> x.id < r.id)
    requires i < j <= |rows|
    ensures ([x] + rows)[i].id < ([x] + rows)[j].id
  {
    assert ([x] + rows)[j] == rows[j - 1] && rows[j - 1] in rows;
    if i > 0 { assert ([x] + rows)[i] == rows[i - 1]; }
  }

  lemma PrependAscends(x: Row, keep: bool, rows: seq<Row>, nextId: nat)
    requires Ascending(rows, nextId) && x.id < nextId
    requires forall r :: r in rows ==> x.id < r.id
    ensures Ascending((if keep then [x] else []) + rows, nextId)
  {
    if keep {
      forall i, j | 0 <= i < j < |[x] + rows| ensures ([x] + rows)[i].id < ([x] + rows)[j].id {
        PrependInOrder(x, rows, nextId, i, j);
      }
    } else {
      assert [] + rows == rows;
    }
  }

  lemma {:induction false} DroppingAscends(rows: seq<Row>, nextId: nat, status: Status, kept: seq<Row>)
    requires Ascending(rows, nextId)
    ensures Ascending(Dropping(rows, status, kept), nextId)
    decreases |rows|
  {
    if rows != [] {
      TailAscends(rows, nextId);
      DroppingAscends(rows[1..], nextId, status, kept);
      var d := Dropping(rows[1..], status, kept);
      forall r | r in d ensures r in rows[1..] { DroppingMembers(rows[1..], status, kept, r); }
      PrependAscends(rows[0], rows[0].status != status || rows[0] in kept, d, nextId);
    }
  }

  lemma TrimmedMembers(rows: seq<Row>, status: Status, keep: int, r: Row)
    ensures r in Trimmed(rows, status, keep) ==> r in rows
    ensures r in rows && r.status != status ==> r in Trimmed(rows, status, keep)
  {
    PruneKeepsNewest(rows, status, keep, r);
  }

  lemma PrunedMembers(rows: seq<Row>, d: int, l: int, r: Row)
    ensures r in Pruned(rows, d, l) ==> r in rows
    ensures r in rows && Active(r) ==> r in Pruned(rows, d, l)
  {
    TrimmedMembers(rows, Delivered, d, r);
    TrimmedMembers(Trimmed(rows, Delivered, d), DeadLetter, l, r);
  }

  lemma PruneKeeps(maxAttempts: int, w: World, d: int, l: int)
    requires Inv(maxAttempts, w)
    ensures Inv(maxAttempts, Next(maxAttempts, w, Prune(d, l)))
  {
    var x := Next(maxAttempts, w, Prune(d, l));
    if d >= 0 { DroppingAscends(w.rows, w.nextId, Delivered, Newest(w.rows, Delivered, d)); }
    var t := Trimmed(w.rows, Delivered, d);
    if l >= 0 { DroppingAscends(t, w.nextId, DeadLetter, Newest(t, DeadLetter, l)); }
    forall r ensures r in x.rows ==> r in w.rows {
      PrunedMembers(w.rows, d, l, r);
    }
    forall e | e in x.batch ensures e in x.rows {
      PrunedMembers(w.rows, d, l, e);
    }
  }

  lemma {:induction false} ActiveMembers(rows: seq<Row>, r: Row)
    ensures r in ActiveRows(rows) <==> r in rows && Active(r)
  {
    if rows != [] { ActiveMembers(rows[1..], r); }
  }

  lemma {:induction false} ActiveAscends(rows: seq<Row>, nextId: nat)
    requires Ascending(rows, nextId)
    ensures Ascending(ActiveRows(rows), nextId)
    decreases |rows|
  {
    if rows != [] {
      TailAscends(rows, nextId);
      ActiveAscends(rows[1..], nextId);
      var d := ActiveRows(rows[1..]);
      forall r | r in d ensures r in rows[1..] { ActiveMembers(rows[1..], r); }
      PrependAscends(rows[0], Active(rows[0]), d, nextId);
    }
  }

  lemma {:induction false} InsertDistinct(x: Row, s: seq<Row>)
    requires Distinct(s) && forall r :: r in s ==> r.id != x.id
    ensures Distinct(Sorting.Insert(x, s, NotNewer))
  {
    if s != [] && !NotNewer(x, s[0]) {
      InsertDistinct(x, s[1..]);
      var t := Sorting.Insert(x, s[1..], NotNewer);
      Sorting.InsertKeeps(x, s[1..], NotNewer);
      forall j | 0 <= j < |t| ensures t[j].id != s[0].id {
        assert t[j] in multiset(t);
        assert t[j] in [x] + s[1..];
      }
    }
  }

  lemma {:induction false} SortDistinct(s: seq<Row>)
    requires Distinct(s)
    ensures Distinct(Sorting.Sort(s, NotNewer))
  {
    if s != [] {
      SortDistinct(s[1..]);
      Sorting.SortKeeps(s[1..], NotNewer);
      InsertDistinct(s[0], Sorting.Sort(s[1..], NotNewer));
    }
  }

  /** The active rows in dispatch order. */
  function Backlog(rows: seq<Row>): seq<Row> { Sorting.Sort(ActiveRows(rows), NotNewer) }

  lemma BacklogIs(rows: seq<Row>, nextId: nat)
    requires Ascending(rows, nextId)
    ensures forall r :: r in Backlog(rows) <==> r in rows && Active(r)
    ensures Distinct(Backlog(rows))
    ensures forall i, j :: 0 <= i < j < |Backlog(rows)| ==> NotNewer(Backlog(rows)[i], Backlog(rows)[j])
  {
    var all := ActiveRows(rows);
    ActiveAscends(rows, nextId);
    Sorting.SortKeeps(all, NotNewer);
    Sorting.SortDescends(all, NotNewer);
    SortDistinct(all);
    forall r ensures r in Backlog(rows) <==> r in rows && Active(r) { ActiveMembers(rows, r); }
  }

  lemma TakenOrLeft(s: seq<Row>, n: nat, r: Row)
    requires n <= |s| && r in s
    ensures r in s[..n] || r in s[n..]
  {
    assert s == s[..n] + s[n..];
  }

  /** A batch holds distinct active rows, the oldest ones, in order, and as many as the limit
      lets it. */
  lemma BatchIsOldest(rows: seq<Row>, nextId: nat, limit: int)
    requires Ascending(rows, nextId)
    ensures var b := Batch(rows, limit);
            && (forall r :: r in b ==> r in rows && Active(r))
            && Distinct(b)
            && (forall r, k :: r in rows && Active(r) && r !in b && k in b ==> NotNewer(k, r))
            && (forall r :: r in rows && Active(r) && r !in b ==> 0 <= limit == |b|)
  {
    BacklogIs(rows, nextId);
    var all := Backlog(rows);
    var b := Batch(rows, limit);
    assert b == Limited(all, limit);
    forall r | r in b ensures r in all {
      var i :| 0 <= i < |b| && b[i] == r;
      assert all[i] == r;
    }
    forall r, k | r in all && r !in b && k in b ensures NotNewer(k, r) {
      var i :| 0 <= i < |b| && b[i] == k;
      TakenOrLeft(all, |b|, r);
      var j :| 0 <= j < |all[|b|..]| && all[|b|..][j] == r;
      assert all[i] == k;
    }
  }

  lemma StepKeeps(maxAttempts: int, w: World, step: Step)
    requires Inv(maxAttempts, w)
    ensures Inv(maxAttempts, Next(maxAttempts, w, step))
  {
    match step
    case Begin(limit) => BatchIsOldest(w.rows, w.nextId, limit);
    case Post(reply) => if w.batch != [] { PostKeeps(maxAttempts, w, reply); }
    case Enqueue(_, _, _, _) => EnqueueKeeps(maxAttempts, w, step);
    case Prune(d, l) => PruneKeeps(maxAttempts, w, d, l);
  }

  lemma {:induction false} RunKeeps(maxAttempts: int, w: World, steps: seq<Step>)
    requires Inv(maxAttempts, w)
    ensures Inv(maxAttempts, Run(maxAttempts, w, steps))
    decreases |steps|
  {
    if steps != [] {
      StepKeeps(maxAttempts, w, steps[0]);
      RunKeeps(maxAttempts, Next(maxAttempts, w, steps[0]), steps[1..]);
    }
  }

  /** However enqueues, cycles, failures and prunes interleave, no event is posted more often
      than it is allowed. */
  lemma PostsAreCapped(maxAttempts: int, steps: seq<Step>, id: nat)
    ensures Run(maxAttempts, START, steps).posts[id] <= Allowance(maxAttempts)
  {
    RunKeeps(maxAttempts, START, steps);
  }

  function AsPosts(replies: seq<Reply>): seq<Step> {
    if replies == [] then [] else [Post(replies[0])] + AsPosts(replies[1..])
  }

  /** The loop of one uninterrupted cycle is the run of its posts. */
  lemma {:induction false} DispatchIsARun(maxAttempts: int, w: World, replies: seq<Reply>)
    requires |replies| == |w.batch|
    ensures var x := Run(maxAttempts, w, AsPosts(replies));
            x.rows == AllPosted(w.rows, w.batch, maxAttempts, replies) && x.batch == []
    decreases |replies|
  {
    if replies != [] {
      assert AsPosts(replies)[1..] == AsPosts(replies[1..]);
      DispatchIsARun(maxAttempts, Next(maxAttempts, w, Post(replies[0])), replies[1..]);
    }
  }

  // ---------------------------------------------------------------- terminal states, keys

  /** A row with the same identity, changed only by being posted. */
  predicate Successor(r: Row, x: Row) {
    && x.id == r.id && x.eventId == r.eventId && x.key == r.key && x.createdAt == r.createdAt
    && (!Active(r) ==> x == r)
  }

  predicate Survives(r: Row, rows: seq<Row>) {
    exists x :: x in rows && Successor(r, x)
  }

  ghost predicate Gone(r: Row, w: World) {
    r.id < w.nextId && forall x :: x in w.rows ==> x.id != r.id
  }

  lemma StepSurvives(maxAttempts: int, w: World, step: Step, r: Row)
    requires Inv(maxAttempts, w) && r in w.rows
    ensures var x := Next(maxAttempts, w, step);
            Survives(r, x.rows) || (!Active(r) && step.Prune? && Gone(r, x))
  {
    var x := Next(maxAttempts, w, step);
    match step
    case Begin(_) => assert r in x.rows && Successor(r, r);
    case Enqueue(_, _, _, _) => assert r in x.rows && Successor(r, r);
    case Post(reply) =>
      if w.batch == [] {
        assert r in x.rows && Successor(r, r);
      } else {
        var e := w.batch[0];
        assert e in w.batch;
        AfterKeepsIdentity(e, maxAttempts, reply);
        var s := if r == e then After(e, maxAttempts, reply) else r;
        PostedMembers(w.rows, e, maxAttempts, reply, s);
        assert s in x.rows && Successor(r, s);
      }
    case Prune(d, l) =>
      PrunedMembers(w.rows, d, l, r);
      if r in x.rows {
        assert Successor(r, r);
      } else {
        forall y | y in x.rows ensures y.id != r.id { PrunedMembers(w.rows, d, l, y); }
      }
  }

  lemma StaysGone(maxAttempts: int, w: World, step: Step, r: Row)
    requires Inv(maxAttempts, w) && Gone(r, w)
    ensures Gone(r, Next(maxAttempts, w, step))
  {
    var x := Next(maxAttempts, w, step);
    match step
    case Begin(_) =>
    case Enqueue(_, _, _, _) =>
    case Post(reply) =>
      if w.batch != [] {
        var e := w.batch[0];
        assert e in w.batch;
        AfterKeepsIdentity(e, maxAttempts, reply);
        forall y | y in x.rows ensures y.id != r.id { PostedMembers(w.rows, e, maxAttempts, reply, y); }
      }
    case Prune(d, l) =>
      forall y | y in x.rows ensures y.id != r.id { PrunedMembers(w.rows, d, l, y); }
  }

  /** Step `i` of the run is a prune, and it finds `r` in a terminal state. */
  ghost predicate PrunedWhenTerminal(maxAttempts: int, w: World, steps: seq<Step>, i: nat, r: Row) {
    && i < |steps| && steps[i].Prune?
    && exists y :: y in Run(maxAttempts, w, steps[..i]).rows && Successor(r, y) && !Active(y)
  }

  lemma LaterPrune(maxAttempts: int, w: World, steps: seq<Step>, i: nat, r: Row, s: Row)
    requires steps != [] && Successor(r, s)
    requires PrunedWhenTerminal(maxAttempts, Next(maxAttempts, w, steps[0]), steps[1..], i, s)
    ensures PrunedWhenTerminal(maxAttempts, w, steps, i + 1, r)
  {
    var before := Run(maxAttempts, Next(maxAttempts, w, steps[0]), steps[1..][..i]).rows;
    var y :| y in before && Successor(s, y) && !Active(y);
    assert steps[..i + 1][1..] == steps[1..][..i];
    assert Successor(r, y);
  }

  lemma {:induction false} StaysGoneInRun(maxAttempts: int, w: World, steps: seq<Step>, r: Row)
    requires Inv(maxAttempts, w) && Gone(r, w)
    ensures Gone(r, Run(maxAttempts, w, steps))
    decreases |steps|
  {
    if steps != [] {
      StepKeeps(maxAttempts, w, steps[0]);
      StaysGone(maxAttempts, w, steps[0], r);
      StaysGoneInRun(maxAttempts, Next(maxAttempts, w, steps[0]), steps[1..], r);
    }
  }

  /** Terminal states are never left: over any run a row keeps its identity, and once it is
      delivered or dead it stays exactly as it is, until a prune that finds it delivered or
      dead removes it; its identifier is not used again.  So an active row is never removed. */
  lemma {:induction false} TerminalIsFinal(maxAttempts: int, w: World, steps: seq<Step>, r: Row)
    requires Inv(maxAttempts, w) && r in w.rows
    ensures var x := Run(maxAttempts, w, steps);
            Survives(r, x.rows)
            || (Gone(r, x) && exists i: nat :: PrunedWhenTerminal(maxAttempts, w, steps, i, r))
    decreases |steps|
  {
    if steps == [] {
      assert Successor(r, r);
    } else {
      var x := Next(maxAttempts, w, steps[0]);
      StepKeeps(maxAttempts, w, steps[0]);
      StepSurvives(maxAttempts, w, steps[0], r);
      if Survives(r, x.rows) {
        var s :| s in x.rows && Successor(r, s);
        TerminalIsFinal(maxAttempts, x, steps[1..], s);
        SurvivorsRun(maxAttempts, w, steps, r, s);
      } else {
        assert steps[..0] == [] && Successor(r, r);
        assert PrunedWhenTerminal(maxAttempts, w, steps, 0, r);
        StaysGoneInRun(maxAttempts, x, steps[1..], r);
      }
    }
  }

  lemma SurvivorsRun(maxAttempts: int, w: World, steps: seq<Step>, r: Row, s: Row)
    requires steps != [] && Successor(r, s)
    requires var (x, rest) := (Next(maxAttempts, w, steps[0]), steps[1..]);
             Survives(s, Run(maxAttempts, x, rest).rows)
             || (Gone(s, Run(maxAttempts, x, rest)) && exists i: nat :: PrunedWhenTerminal(maxAttempts, x, rest, i, s))
    ensures var x := Run(maxAttempts, w, steps);
            Survives(r, x.rows)
            || (Gone(r, x) && exists i: nat :: PrunedWhenTerminal(maxAttempts, w, steps, i, r))
  {
    var (x, rest) := (Next(maxAttempts, w, steps[0]), steps[1..]);
    if Survives(s, Run(maxAttempts, x, rest).rows) {
      var y :| y in Run(maxAttempts, x, rest).rows && Successor(s, y);
      assert Successor(r, y);
    } else {
      var i: nat :| PrunedWhenTerminal(maxAttempts, x, rest, i, s);
      LaterPrune(maxAttempts, w, steps, i, r, s);
    }
  }

  /** No row but that of `r` has its key. */
  ghost predicate OnlyHolder(r: Row, rows: seq<Row>) {
    forall x :: x in rows && x.key == r.key ==> x.id == r.id
  }

  lemma StepKeepsHolder(maxAttempts: int, w: World, step: Step, r: Row)
    requires Inv(maxAttempts, w) && OnlyHolder(r, w.rows)
    requires step.Enqueue? ==> step.key != r.key
    ensures OnlyHolder(r, Next(maxAttempts, w, step).rows)
  {
    var x := Next(maxAttempts, w, step);
    match step
    case Begin(_) =>
    case Enqueue(_, _, _, _) =>
    case Post(reply) =>
      if w.batch != [] {
        var e := w.batch[0];
        assert e in w.batch;
        AfterKeepsIdentity(e, maxAttempts, reply);
        forall y | y in x.rows && y.key == r.key ensures y.id == r.id {
          PostedMembers(w.rows, e, maxAttempts, reply, y);
        }
      }
    case Prune(d, l) =>
      forall y | y in x.rows && y.key == r.key ensures y.id == r.id { PrunedMembers(w.rows, d, l, y); }
  }

  lemma {:induction false} RunKeepsHolder(maxAttempts: int, w: World, steps: seq<Step>, r: Row)
    requires Inv(maxAttempts, w) && OnlyHolder(r, w.rows)
    requires forall i :: 0 <= i < |steps| && steps[i].Enqueue? ==> steps[i].key != r.key
    ensures OnlyHolder(r, Run(maxAttempts, w, steps).rows)
    decreases |steps|
  {
    if steps != [] {
      StepKeeps(maxAttempts, w, steps[0]);
      StepKeepsHolder(maxAttempts, w, steps[0], r);
      RunKeepsHolder(maxAttempts, Next(maxAttempts, w, steps[0]), steps[1..], r);
    }
  }

  /** A key is suppressed exactly as long as its row is in the table.  After any run that does
      not itself enqueue the key, a second event with the key and a new identifier is stored if
      and only if the first one was pruned, and then it is delivered again. */
  lemma KeyReturnsIffPruned(maxAttempts: int, w: World, steps: seq<Step>, r: Row, again: Step)
    requires Inv(maxAttempts, w) && r in w.rows
    requires forall i :: 0 <= i < |steps| && steps[i].Enqueue? ==> steps[i].key != r.key
    requires again.Enqueue? && again.key == r.key
    requires forall x :: x in Run(maxAttempts, w, steps).rows ==> x.eventId != again.eventId
    ensures var u := Run(maxAttempts, w, steps);
            Next(maxAttempts, u, again).rows != u.rows <==> Gone(r, u)
  {
    var u := Run(maxAttempts, w, steps);
    TerminalIsFinal(maxAttempts, w, steps, r);
    RunKeepsHolder(maxAttempts, w, steps, r);
    if Gone(r, u) {
      assert !Collides(u.rows, again.eventId, again.key);
      assert |Next(maxAttempts, u, again).rows| == |u.rows| + 1;
    }
  }

  /** An event that was delivered and pruned, and enqueued once more under its key. */
  const TWICE: seq<Step> := [
    Enqueue("a", "key", 1, 1), Begin(-1), Post(Reply(Http(200), 2)), Prune(0, 0), Enqueue("b", "key", 3, 3)]

  /** It is in the table again, as if it were new. */
  lemma PrunedKeyIsStoredAgain()
    ensures Run(5, START, TWICE).rows == [Row(2, "b", "key", Pending, 0, None, 3, 3)]
  {
    var first := Row(1, "a", "key", Pending, 0, None, 1, 1);
    var sent := first.(status := Delivered, updatedAt := 2);
    var w1 := Next(5, START, TWICE[0]);
    assert w1.rows == [first];
    assert ActiveRows([first]) == [first] && Sorting.Sort([first], NotNewer) == [first];
    var w2 := Next(5, w1, TWICE[1]);
    assert w2.batch == [first];
    var w3 := Next(5, w2, TWICE[2]);
    assert w3.rows == [sent];
    PruneEmpties(sent);
    var w4 := Next(5, w3, TWICE[3]);
    assert w4.rows == [];
    var w5 := Next(5, w4, TWICE[4]);
    assert w5.rows == [Row(2, "b", "key", Pending, 0, None, 3, 3)];
    assert TWICE[1..][1..][1..][1..][1..] == [];
    assert Run(5, w4, TWICE[4..]) == w5 && TWICE[1..][1..][1..][1..] == TWICE[4..];
  }

  lemma PruneEmpties(r: Row)
    requires r.status == Delivered
    ensures Pruned([r], 0, 0) == []
  {
    assert Newest([r], Delivered, 0) == [];
    assert Dropping([r], Delivered, []) == [];
    assert Dropping([], DeadLetter, Newest([], DeadLetter, 0)) == [];
  }

  // ---------------------------------------------------------------- the drain measure

  predicate Older(a: Row, e: Row) {
    a.createdAt < e.createdAt || (a.createdAt == e.createdAt && a.id < e.id)
  }

  /** The posts a row may still take; with a horizon, only rows older than it weigh. */
  function Weight(maxAttempts: int, horizon: Option<Row>, r: Row): nat {
    if Active(r) && r.attempts < Allowance(maxAttempts) && (horizon.Some? ==> Older(r, horizon.value))
    then Allowance(maxAttempts) - r.attempts
    else 0
  }

  function Budget(maxAttempts: int, horizon: Option<Row>, rows: seq<Row>): nat {
    if rows == [] then 0
    else Budget(maxAttempts, horizon, rows[..|rows| - 1]) + Weight(maxAttempts, horizon, rows[|rows| - 1])
  }

  lemma {:induction false} BudgetOfOneChange(maxAttempts: int, horizon: Option<Row>, a: seq<Row>, b: seq<Row>, k: nat)
    requires |a| == |b| && k < |a|
    requires forall i :: 0 <= i < |a| && i != k ==> a[i] == b[i]
    ensures Budget(maxAttempts, horizon, b) - Weight(maxAttempts, horizon, b[k])
         == Budget(maxAttempts, horizon, a) - Weight(maxAttempts, horizon, a[k])
    decreases |a|
  {
    var n := |a| - 1;
    if k == n {
      assert a[..n] == b[..n];
    } else {
      BudgetOfOneChange(maxAttempts, horizon, a[..n], b[..n], k);
    }
  }

  lemma {:induction false} BudgetJoins(maxAttempts: int, horizon: Option<Row>, a: seq<Row>, b: seq<Row>)
    ensures Budget(maxAttempts, horizon, a + b) == Budget(maxAttempts, horizon, a) + Budget(maxAttempts, horizon, b)
    decreases |b|
  {
    if b == [] {
      assert a + b == a;
    } else {
      var n := |b| - 1;
      assert (a + b)[..|a| + n] == a + b[..n];
      BudgetJoins(maxAttempts, horizon, a, b[..n]);
    }
  }

  lemma {:induction false} DroppingIsFree(maxAttempts: int, horizon: Option<Row>, rows: seq<Row>, status: Status,
                                          kept: seq<Row>)
    requires status == Delivered || status == DeadLetter
    ensures Budget(maxAttempts, horizon, Dropping(rows, status, kept)) == Budget(maxAttempts, horizon, rows)
    decreases |rows|
  {
    if rows != [] {
      DroppingIsFree(maxAttempts, horizon, rows[1..], status, kept);
      var head := if rows[0].status != status || rows[0] in kept then [rows[0]] else [];
      BudgetJoins(maxAttempts, horizon, head, Dropping(rows[1..], status, kept));
      BudgetJoins(maxAttempts, horizon, [rows[0]], rows[1..]);
      assert [rows[0]] + rows[1..] == rows;
      assert [rows[0]][..0] == [];
    }
  }

  lemma PruneIsFree(maxAttempts: int, horizon: Option<Row>, rows: seq<Row>, d: int, l: int)
    ensures Budget(maxAttempts, horizon, Pruned(rows, d, l)) == Budget(maxAttempts, horizon, rows)
  {
    if d >= 0 { DroppingIsFree(maxAttempts, horizon, rows, Delivered, Newest(rows, Delivered, d)); }
    var t := Trimmed(rows, Delivered, d);
    if l >= 0 { DroppingIsFree(maxAttempts, horizon, t, DeadLetter, Newest(t, DeadLetter, l)); }
  }

  lemma PostLightens(maxAttempts: int, horizon: Option<Row>, e: Row, reply: Reply)
    requires Active(e) && e.attempts < Allowance(maxAttempts)
    ensures Weight(maxAttempts, horizon, After(e, maxAttempts, reply))
            <= Weight(maxAttempts, horizon, e) - (if horizon.None? || Older(e, horizon.value) then 1 else 0)
  {
    AfterKeepsIdentity(e, maxAttempts, reply);
  }

  /** A post lowers the budget it counts towards and leaves any other as it is. */
  lemma PostCosts(maxAttempts: int, horizon: Option<Row>, w: World, reply: Reply)
    requires Inv(maxAttempts, w) && w.batch != []
    ensures var x := Next(maxAttempts, w, Post(reply));
            Budget(maxAttempts, horizon, x.rows)
            <= Budget(maxAttempts, horizon, w.rows)
               - (if horizon.None? || Older(w.batch[0], horizon.value) then 1 else 0)
  {
    var e := w.batch[0];
    assert e in w.batch;
    PostLightens(maxAttempts, horizon, e, reply);
    PostChangesOne(w.rows, w.nextId, e, maxAttempts, reply, horizon);
  }

  lemma PostChangesOne(rows: seq<Row>, nextId: nat, e: Row, maxAttempts: int, reply: Reply, horizon: Option<Row>)
    requires Ascending(rows, nextId) && Unique(rows) && e in rows
    ensures Budget(maxAttempts, horizon, Posted(rows, e, maxAttempts, reply))
            - Weight(maxAttempts, horizon, After(e, maxAttempts, reply))
         == Budget(maxAttempts, horizon, rows) - Weight(maxAttempts, horizon, e)
  {
    PostedOnly(rows, e, maxAttempts, reply);
    var p := Posted(rows, e, maxAttempts, reply);
    var k :| 0 <= k < |rows| && rows[k] == e;
    forall i | 0 <= i < |rows| && i != k ensures rows[i] == p[i] {
      assert rows[i].id != rows[k].id;
    }
    BudgetOfOneChange(maxAttempts, horizon, rows, p, k);
  }

  lemma EnqueueCosts(maxAttempts: int, horizon: Option<Row>, w: World, step: Step)
    requires Inv(maxAttempts, w) && step.Enqueue?
    ensures var x := Next(maxAttempts, w, step);
            && Budget(maxAttempts, horizon, x.rows) <= Budget(maxAttempts, horizon, w.rows) + Allowance(maxAttempts)
            && (horizon.Some? && horizon.value in w.rows
                && OrNow(Some(step.createdAt), step.now) >= horizon.value.createdAt
                ==> Budget(maxAttempts, horizon, x.rows) == Budget(maxAttempts, horizon, w.rows))
  {
    var x := Next(maxAttempts, w, step);
    if x.rows != w.rows {
      assert x.rows[..|x.rows| - 1] == w.rows;
    }
  }

  function Arrivals(steps: seq<Step>): nat
  {
    if steps == [] then 0 else (if steps[0].Enqueue? then 1 else 0) + Arrivals(steps[1..])
  }

  lemma StepIsPaidFor(maxAttempts: int, w: World, step: Step)
    requires Inv(maxAttempts, w)
    ensures var x := Next(maxAttempts, w, step);
            |x.posts| + Budget(maxAttempts, None, x.rows)
            <= |w.posts| + Budget(maxAttempts, None, w.rows)
               + Allowance(maxAttempts) * (if step.Enqueue? then 1 else 0)
  {
    match step
    case Begin(_) =>
    case Post(reply) => if w.batch != [] { PostCosts(maxAttempts, None, w, reply); }
    case Enqueue(_, _, _, _) => EnqueueCosts(maxAttempts, None, w, step);
    case Prune(d, l) => PruneIsFree(maxAttempts, None, w.rows, d, l);
  }

  /** Posts are paid for: over any run the posts made and the budget left are together at most
      the budget there was and one allowance for each arrival. */
  lemma {:induction false} PostsArePaidFor(maxAttempts: int, w: World, steps: seq<Step>)
    requires Inv(maxAttempts, w)
    ensures var x := Run(maxAttempts, w, steps);
            |x.posts| + Budget(maxAttempts, None, x.rows)
            <= |w.posts| + Budget(maxAttempts, None, w.rows) + Allowance(maxAttempts) * Arrivals(steps)
    decreases |steps|
  {
    if steps != [] {
      StepIsPaidFor(maxAttempts, w, steps[0]);
      StepKeeps(maxAttempts, w, steps[0]);
      PostsArePaidFor(maxAttempts, Next(maxAttempts, w, steps[0]), steps[1..]);
      ArrivalsCost(maxAttempts, steps);
    }
  }

  lemma ArrivalsCost(maxAttempts: int, steps: seq<Step>)
    requires steps != []
    ensures Allowance(maxAttempts) * Arrivals(steps)
         == Allowance(maxAttempts) * (if steps[0].Enqueue? then 1 else 0)
            + Allowance(maxAttempts) * Arrivals(steps[1..])
  {
    Distribute(Allowance(maxAttempts), if steps[0].Enqueue? then 1 else 0, Arrivals(steps[1..]));
  }

  lemma Distribute(m: nat, a: nat, b: nat)
    ensures m * (a + b) == m * a + m * b
  {
  }

  lemma {:induction false} InFlight(maxAttempts: int, w: World, steps: seq<Step>)
    ensures var x := Run(maxAttempts, w, steps);
            && w.cycles <= x.cycles
            && (w.cycles == x.cycles ==> |x.posts| + |x.batch| == |w.posts| + |w.batch|)
    decreases |steps|
  {
    if steps != [] { InFlight(maxAttempts, Next(maxAttempts, w, steps[0]), steps[1..]); }
  }

  /** A cycle lowers the budget by at least the size of its batch, so the budget strictly
      falls in every cycle that finds work. */
  lemma CycleDrains(maxAttempts: int, w: World, limit: int, steps: seq<Step>)
    requires Inv(maxAttempts, w) && w.batch == []
    requires Arrivals(steps) == 0
    ensures var x := Run(maxAttempts, Next(maxAttempts, w, Begin(limit)), steps);
            x.batch == [] && x.cycles == w.cycles + 1 ==>
              && |x.posts| == |w.posts| + |Batch(w.rows, limit)|
              && Budget(maxAttempts, None, x.rows) + |Batch(w.rows, limit)| <= Budget(maxAttempts, None, w.rows)
  {
    var b := Next(maxAttempts, w, Begin(limit));
    StepKeeps(maxAttempts, w, Begin(limit));
    InFlight(maxAttempts, b, steps);
    PostsArePaidFor(maxAttempts, b, steps);
  }

  lemma {:induction false} NoBudgetNoBacklog(maxAttempts: int, w: World, r: Row)
    requires Inv(maxAttempts, w) && Budget(maxAttempts, None, w.rows) == 0
    ensures r in w.rows ==> !Active(r)
  {
    if r in w.rows {
      var k :| 0 <= k < |w.rows| && w.rows[k] == r;
      WeighsIn(maxAttempts, None, w.rows, k);
    }
  }

  lemma {:induction false} WeighsIn(maxAttempts: int, horizon: Option<Row>, rows: seq<Row>, k: nat)
    requires k < |rows|
    ensures Weight(maxAttempts, horizon, rows[k]) <= Budget(maxAttempts, horizon, rows)
    decreases |rows|
  {
    var n := |rows| - 1;
    if k < n { WeighsIn(maxAttempts, horizon, rows[..n], k); }
  }

  // ---------------------------------------------------------------- no starvation

  /** Cycles take at least `least` rows, and arrivals are no older than `e`. */
  predicate Patient(e: Row, least: nat, step: Step) {
    match step
    case Begin(limit) => limit < 0 || limit >= least
    case Enqueue(_, _, createdAt, now) => OrNow(Some(createdAt), now) >= e.createdAt
    case _ => true
  }

  ghost predicate OnlyOlder(batch: seq<Row>, e: Row) {
    forall b :: b in batch ==> Older(b, e)
  }

  /** While `e` waits: it is in the cycle in flight, or everything ahead of it is being paid off. */
  ghost predicate Waiting(maxAttempts: int, w: World, e: Row, least: nat, bound: int) {
    && e in w.rows && Active(e)
    && (e in w.batch
        || (OnlyOlder(w.batch, e)
            && Budget(maxAttempts, Some(e), w.rows) - |w.batch| + least * w.cycles <= bound))
  }

  lemma {:induction false} BeginWaits(maxAttempts: int, w: World, limit: int, e: Row, least: nat, bound: int)
    requires Inv(maxAttempts, w) && Waiting(maxAttempts, w, e, least, bound)
    requires limit < 0 || limit >= least
    ensures Waiting(maxAttempts, Next(maxAttempts, w, Begin(limit)), e, least, bound)
  {
    if w.batch == [] {
      BatchIsOldest(w.rows, w.nextId, limit);
      var x := Next(maxAttempts, w, Begin(limit));
      if e !in x.batch {
        forall b | b in x.batch ensures Older(b, e) {
          assert NotNewer(b, e);
          assert b in w.rows && b.id != e.id;
        }
        assert least * x.cycles == least * w.cycles + least;
      }
    }
  }

  lemma PostWaits(maxAttempts: int, w: World, reply: Reply, e: Row, least: nat, bound: int)
    requires Inv(maxAttempts, w) && Waiting(maxAttempts, w, e, least, bound) && w.batch != [] && w.batch[0] != e
    ensures Waiting(maxAttempts, Next(maxAttempts, w, Post(reply)), e, least, bound)
  {
    var x := Next(maxAttempts, w, Post(reply));
    assert w.batch[0] in w.batch;
    PostedMembers(w.rows, w.batch[0], maxAttempts, reply, e);
    PostCosts(maxAttempts, Some(e), w, reply);
    if e in w.batch {
      var i :| 0 <= i < |w.batch| && w.batch[i] == e;
      assert x.batch[i - 1] == e;
    }
    assert forall b :: b in x.batch ==> b in w.batch;
  }

  lemma StepWaits(maxAttempts: int, w: World, step: Step, e: Row, least: nat, bound: int)
    requires Inv(maxAttempts, w) && Waiting(maxAttempts, w, e, least, bound) && Patient(e, least, step)
    ensures var x := Next(maxAttempts, w, step);
            || x.posts[e.id] == w.posts[e.id] + 1
            || (x.posts[e.id] == w.posts[e.id] && Waiting(maxAttempts, x, e, least, bound))
  {
    match step
    case Begin(limit) => BeginWaits(maxAttempts, w, limit, e, least, bound);
    case Post(reply) =>
      if w.batch != [] && w.batch[0] != e {
        assert w.batch[0] in w.batch;
        assert w.batch[0].id != e.id;
        PostWaits(maxAttempts, w, reply, e, least, bound);
      }
    case Enqueue(_, _, _, _) => EnqueueCosts(maxAttempts, Some(e), w, step);
    case Prune(d, l) =>
      PruneIsFree(maxAttempts, Some(e), w.rows, d, l);
      PrunedMembers(w.rows, d, l, e);
  }

  lemma {:induction false} PostsGrow(maxAttempts: int, w: World, steps: seq<Step>, id: nat)
    ensures w.posts[id] <= Run(maxAttempts, w, steps).posts[id]
    decreases |steps|
  {
    if steps != [] { PostsGrow(maxAttempts, Next(maxAttempts, w, steps[0]), steps[1..], id); }
  }

  lemma {:induction false} RunWaits(maxAttempts: int, w: World, steps: seq<Step>, e: Row, least: nat, bound: int)
    requires Inv(maxAttempts, w) && Waiting(maxAttempts, w, e, least, bound)
    requires forall i :: 0 <= i < |steps| ==> Patient(e, least, steps[i])
    ensures var x := Run(maxAttempts, w, steps);
            x.posts[e.id] > w.posts[e.id] || Waiting(maxAttempts, x, e, least, bound)
    decreases |steps|
  {
    if steps != [] {
      var x := Next(maxAttempts, w, steps[0]);
      StepWaits(maxAttempts, w, steps[0], e, least, bound);
      StepKeeps(maxAttempts, w, steps[0]);
      if x.posts[e.id] > w.posts[e.id] {
        PostsGrow(maxAttempts, x, steps[1..], e.id);
      } else {
        RunWaits(maxAttempts, x, steps[1..], e, least, bound);
      }
    }
  }

  /** No starvation: with batches of at least `least` and arrivals no older than it, an active
      event is posted within 1 + (budget of the older events) / least cycles. */
  lemma NoStarvation(maxAttempts: int, w: World, steps: seq<Step>, e: Row, least: nat)
    requires Inv(maxAttempts, w) && w.batch == [] && e in w.rows && Active(e) && least >= 1
    requires forall i :: 0 <= i < |steps| ==> Patient(e, least, steps[i])
    ensures var x := Run(maxAttempts, w, steps);
            x.batch == [] && x.cycles >= w.cycles + 1 + Budget(maxAttempts, Some(e), w.rows) / least ==>
              x.posts[e.id] > w.posts[e.id]
  {
    var x := Run(maxAttempts, w, steps);
    var ahead := Budget(maxAttempts, Some(e), w.rows);
    RunWaits(maxAttempts, w, steps, e, least, ahead + least * w.cycles);
    if x.batch == [] && x.posts[e.id] <= w.posts[e.id] {
      CyclesBounded(ahead, least, w.cycles, x.cycles);
    }
  }

  lemma CyclesBounded(ahead: nat, least: nat, before: nat, after: nat)
    requires least >= 1
    ensures after >= before + 1 + ahead / least ==> least * after > ahead + least * before
  {
    var q := ahead / least;
    assert ahead < least * (q + 1) by { assert ahead == least * q + ahead % least; }
    if after >= before + 1 + q {
      assert least * after >= least * (before + 1 + q) == least * before + least * (q + 1);
    }
  }
}
