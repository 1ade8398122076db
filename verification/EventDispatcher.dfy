/** The dispatcher that drains the outbox, one cycle in flight at a time.

    A cycle reads a batch and then posts its events one by one; enqueues and prunes may
    happen between any two posts.  Every event of a run is enqueued as the outbox's
    clients do: pending, with no attempts. */
module EventDispatcher {
  import opened Prelude
  import opened EventOutbox

  /** What came back from the sink. */
  datatype Response = TransportError | Http(status: nat)

  /** A response and the time it is recorded. */
  datatype Reply = Reply(response: Response, at: int)

  datatype Verdict = Deliver | Again | Dead

  const RETRYABLE: set<int> := {408, 409, 425, 429, 500, 502, 503, 504}

  function Judge(attempts: nat, maxAttempts: int, r: Response): Verdict {
    match r
    case TransportError => if attempts + 1 < maxAttempts then Again else Dead
    case Http(code) =>
      if 200 <= code < 300 || code == 409 then Deliver
      else if code in RETRYABLE && attempts + 1 < maxAttempts then Again
      else Dead
  }

  function Decimal(n: nat): string {
    (if n < 10 then "" else Decimal(n / 10)) + ["0123456789"[n % 10]]
  }

  /** A post is repeated exactly when the sink could not be reached or answered with a retryable
      status other than 409, and an attempt is left. */
  lemma RepeatedExactly(attempts: nat, maxAttempts: int, r: Response)
    ensures Judge(attempts, maxAttempts, r).Again? <==>
              attempts + 1 < maxAttempts && (r.TransportError? || r.status in RETRYABLE - {409})
  {
  }

  /** The text recorded for a failure: never anything the sink said. */
  function Reason(r: Response): string {
    match r
    case TransportError => "AssistX event delivery transport failure"
    case Http(code) => "AssistX returned HTTP " + Decimal(code)
  }

  /** The table after one event was posted; `seen` is the row as the batch read it. */
  function Posted(rows: seq<Row>, seen: Row, maxAttempts: int, reply: Reply): seq<Row> {
    match Judge(seen.attempts, maxAttempts, reply.response)
    case Deliver => MarkedDelivered(rows, seen.eventId, reply.at)
    case Again => MarkedFailed(rows, seen.eventId, Reason(reply.response), true, reply.at)
    case Dead => MarkedFailed(rows, seen.eventId, Reason(reply.response), false, reply.at)
  }

  datatype Report = DryRun | NotConfigured | Done(verdict: Verdict)

  datatype Outcome = Outcome(eventId: string, report: Report)

  function Told(event: Row, maxAttempts: int, reply: Reply): Outcome {
    Outcome(event.eventId, Done(Judge(event.attempts, maxAttempts, reply.response)))
  }

  class Dispatcher {
    const outbox: Outbox
    const configured: bool
    const maxAttempts: int

    constructor (outbox: Outbox, configured: bool, maxAttempts: int)
      ensures this.outbox == outbox && this.configured == configured && this.maxAttempts == maxAttempts
    {
      this.outbox := outbox;
      this.configured := configured;
      this.maxAttempts := maxAttempts;
    }

    /** Posts one event and records what happened. */
    method DispatchOne(event: Row, reply: Reply) returns (o: Outcome)
      modifies outbox`rows
      ensures outbox.rows == Posted(old(outbox.rows), event, maxAttempts, reply)
      ensures o == Told(event, maxAttempts, reply)
    {
      var (r, now) := (reply.response, reply.at);
      if r.TransportError? {
        var retry := event.attempts + 1 < maxAttempts;
        outbox.MarkFailed(event.eventId, Reason(r), retry, now);
        return Outcome(event.eventId, Done(if retry then Again else Dead));
      }
      if 200 <= r.status < 300 || r.status == 409 {
        outbox.MarkDelivered(event.eventId, now);
        return Outcome(event.eventId, Done(Deliver));
      }
      var retry := r.status in RETRYABLE;
      if event.attempts + 1 >= maxAttempts { retry := false; }
      outbox.MarkFailed(event.eventId, Reason(r), retry, now);
      return Outcome(event.eventId, Done(if retry then Again else Dead));
    }

    /** A whole cycle, with the replies of the sink in the order of the posts. */
    method DispatchPending(limit: int, dryRun: bool, replies: seq<Reply>) returns (outcomes: seq<Outcome>)
      requires |replies| >= |Batch(outbox.rows, limit)|
      modifies outbox`rows
      ensures dryRun || !configured ==>
                && outbox.rows == old(outbox.rows)
                && outcomes == Skipped(Batch(old(outbox.rows), limit), if dryRun then DryRun else NotConfigured)
      ensures !dryRun && configured ==>
                && outbox.rows == AllPosted(old(outbox.rows), Batch(old(outbox.rows), limit), maxAttempts, replies)
                && outcomes == AllTold(Batch(old(outbox.rows), limit), maxAttempts, replies)
    {
      var events := outbox.PendingBatch(limit);
      if dryRun { return Skipped(events, DryRun); }
      if !configured { return Skipped(events, NotConfigured); }
      outcomes := DispatchBatch(events, replies);
    }

    /** Posts the events of a batch one after the other. */
    method DispatchBatch(events: seq<Row>, replies: seq<Reply>) returns (outcomes: seq<Outcome>)
      requires |replies| >= |events|
      modifies outbox`rows
      ensures outbox.rows == AllPosted(old(outbox.rows), events, maxAttempts, replies)
      ensures outcomes == AllTold(events, maxAttempts, replies)
    {
      outcomes := [];
      assert events[0..] == events && replies[0..] == replies;
      for i := 0 to |events|
        invariant |outcomes| == i
        invariant AllPosted(outbox.rows, events[i..], maxAttempts, replies[i..])
                  == AllPosted(old(outbox.rows), events, maxAttempts, replies)
        invariant forall j :: 0 <= j < i ==> outcomes[j] == Told(events[j], maxAttempts, replies[j])
      {
        var o := DispatchNext(events, i, replies);
        outcomes := outcomes + [o];
      }
    }

    /** The `i`th event of a batch: what is left to post leads to the same table. */
    method DispatchNext(events: seq<Row>, i: nat, replies: seq<Reply>) returns (o: Outcome)
      requires i < |events| <= |replies|
      modifies outbox`rows
      ensures AllPosted(outbox.rows, events[i + 1..], maxAttempts, replies[i + 1..])
           == AllPosted(old(outbox.rows), events[i..], maxAttempts, replies[i..])
      ensures o == Told(events[i], maxAttempts, replies[i])
    {
      PostsPeel(outbox.rows, events, i, maxAttempts, replies);
      o := DispatchOne(events[i], replies[i]);
    }
  }

  /** The results of a cycle that posts nothing. */
  function Skipped(events: seq<Row>, report: Report): seq<Outcome> {
    seq(|events|, i requires 0 <= i < |events| => Outcome(events[i].eventId, report))
  }

  function AllTold(events: seq<Row>, maxAttempts: int, replies: seq<Reply>): seq<Outcome>
    requires |replies| >= |events|
  {
    seq(|events|, i requires 0 <= i < |events| => Told(events[i], maxAttempts, replies[i]))
  }

  /** The table after the posts of a batch, in order. */
  function AllPosted(rows: seq<Row>, batch: seq<Row>, maxAttempts: int, replies: seq<Reply>): seq<Row>
    requires |replies| >= |batch|
    decreases |batch|
  {
    if batch == [] then rows
    else AllPosted(Posted(rows, batch[0], maxAttempts, replies[0]), batch[1..], maxAttempts, replies[1..])
  }

  lemma PostsPeel(rows: seq<Row>, batch: seq<Row>, i: nat, maxAttempts: int, replies: seq<Reply>)
    requires i < |batch| <= |replies|
    ensures AllPosted(rows, batch[i..], maxAttempts, replies[i..])
         == AllPosted(Posted(rows, batch[i], maxAttempts, replies[i]), batch[i + 1..], maxAttempts, replies[i + 1..])
  {
    assert batch[i..][1..] == batch[i + 1..] && replies[i..][1..] == replies[i + 1..];
  }

  // ---------------------------------------------------------------- runs

  datatype World = World(
    rows: seq<Row>,
    nextId: nat,
    batch: seq<Row>,          // rest of the cycle in flight
    posts: multiset<nat>,     // row identifiers, once for each post
    cycles: nat)

  datatype Step =
    | Begin(limit: int)
    | Post(reply: Reply)
    | Enqueue(eventId: string, key: string, createdAt: int, now: int)
    | Prune(keepDelivered: int, keepDeadLetter: int)

  const START := World([], 1, [], multiset{}, 0)

  function NewEvent(eventId: string, key: string, createdAt: int): Event {
    Event(Some(eventId), key, Pending, 0, None, Some(createdAt), None)
  }

  function Next(maxAttempts: int, w: World, step: Step): World {
    match step
    case Begin(limit) =>
      if w.batch != [] then w else w.(batch := Batch(w.rows, limit), cycles := w.cycles + 1)
    case Post(reply) =>
      if w.batch == [] then w
      else w.(rows := Posted(w.rows, w.batch[0], maxAttempts, reply),
              batch := w.batch[1..],
              posts := w.posts + multiset{w.batch[0].id})
    case Enqueue(eventId, key, createdAt, now) =>
      w.(rows := Inserted(w.rows, w.nextId, eventId, NewEvent(eventId, key, createdAt), now),
         nextId := w.nextId + (if Collides(w.rows, eventId, key) then 0 else 1))
    case Prune(d, l) => w.(rows := Pruned(w.rows, d, l))
  }

  function Run(maxAttempts: int, w: World, steps: seq<Step>): World
    decreases |steps|
  {
    if steps == [] then w else Run(maxAttempts, Next(maxAttempts, w, steps[0]), steps[1..])
  }

  /** The posts an event is allowed: one even when the configured maximum is not positive. */
  function Allowance(maxAttempts: int): nat { if maxAttempts < 1 then 1 else maxAttempts }
}
