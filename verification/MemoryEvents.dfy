/** The router-local memory store: accepted events, and the memories derived from them.

    The three event tables are one map here, keyed by table, source and event identifier.
    A digest stands for its input, so two events have one digest exactly when they agree on
    everything that is hashed. */
module MemoryEvents {
  import opened Prelude

  datatype Kind = Observation | Lapse | Resolution | Lesson

  datatype Evidence = Evidence(reference: string, trusted: bool)

  datatype Record = Record(
    memoryId: string,
    kind: Kind,
    summary: string,
    repository: Option<string>,
    taskId: Option<string>,
    commitSha: Option<string>,
    confidence: real,
    successfulReuses: nat,
    contradictions: nat,
    active: bool,
    tags: seq<string>,
    evidence: seq<Evidence>,
    createdAt: string,
    metadata: map<string, string>)

  /** A row of the memories table: filter columns beside the full record. */
  datatype Memory = Memory(
    kind: Kind,
    repository: Option<string>,
    taskId: Option<string>,
    commitSha: Option<string>,
    summary: string,
    confidence: real,
    active: bool,
    tags: seq<string>,
    payload: Record)

  datatype Action = Reused | Contradicted | Deactivated | Superseded

  /** `details` stands for the fields that are hashed and stored but never read. */
  datatype Request =
    | Ingest(source: string, eventId: string, record: Record)
    | Lifecycle(source: string, eventId: string, memoryId: string, action: Action,
                supersededBy: Option<string>, details: string, createdAt: string)
    | Outcome(source: string, eventId: string, success: bool, validationPassed: Option<bool>,
              memoryIds: seq<string>, details: string, createdAt: string)

  datatype Table = IngestEvents | LifecycleEvents | OutcomeEvents

  datatype EventKey = EventKey(table: Table, source: string, eventId: string)

  datatype Error = DifferentContent | UnknownMemory(memoryId: string)

  datatype Tables = Tables(events: map<EventKey, Request>, memories: map<string, Memory>)

  const EMPTY := Tables(map[], map[])

  function KeyOf(q: Request): EventKey {
    EventKey(if q.Ingest? then IngestEvents else if q.Lifecycle? then LifecycleEvents else OutcomeEvents,
             q.source, q.eventId)
  }

  /** The hashed content: everything but the creation time. */
  function Digest(q: Request): Request {
    match q
    case Ingest(source, eventId, r) => Ingest(source, eventId, r.(createdAt := ""))
    case Lifecycle(source, eventId, id, action, successor, details, _) =>
      Lifecycle(source, eventId, id, action, successor, details, "")
    case Outcome(source, eventId, success, passed, ids, details, _) =>
      Outcome(source, eventId, success, passed, ids, details, "")
  }

  /** What request validation guarantees. */
  predicate Wellformed(q: Request) {
    q.Ingest? ==> 0.0 <= q.record.confidence <= 1.0
  }

  function Columns(r: Record): Memory {
    Memory(r.kind, r.repository, r.taskId, r.commitSha, r.summary, r.confidence, r.active, r.tags, r)
  }

  function Raised(c: real): real { if c + 0.03 <= 1.0 then c + 0.03 else 1.0 }

  function Lowered(c: real): real { if c - 0.15 >= 0.0 then c - 0.15 else 0.0 }

  function Confirm(r: Record): Record {
    r.(successfulReuses := r.successfulReuses + 1, confidence := Raised(r.confidence))
  }

  function Contradict(r: Record): Record {
    r.(contradictions := r.contradictions + 1, confidence := Lowered(r.confidence))
  }

  function ActionName(a: Action): string {
    match a
    case Reused => "reused"
    case Contradicted => "contradicted"
    case Deactivated => "deactivated"
    case Superseded => "superseded"
  }

  predicate Given(s: Option<string>) { s.Some? && s.value != "" }

  function AfterLifecycle(r: Record, q: Request): Record
    requires q.Lifecycle?
  {
    var acted := match q.action
      case Reused => Confirm(r)
      case Contradicted => Contradict(r)
      case _ => r.(active := false);
    var noted := acted.metadata["last_lifecycle_action" := ActionName(q.action)];
    acted.(metadata := if Given(q.supersededBy) then noted["superseded_by" := q.supersededBy.value] else noted)
  }

  predicate Confirmed(q: Request)
    requires q.Outcome?
  {
    q.success && q.validationPassed != Some(false)
  }

  function AfterOutcome(r: Record, q: Request): Record
    requires q.Outcome?
  {
    var judged := if Confirmed(q) then Confirm(r) else Contradict(r);
    judged.(metadata := judged.metadata["last_outcome_event_id" := q.eventId])
  }

  /** `UPDATE memories SET confidence, active, payload`: the other columns stay. */
  function Updated(memories: map<string, Memory>, r: Record): map<string, Memory> {
    if r.memoryId in memories
    then memories[r.memoryId := memories[r.memoryId].(confidence := r.confidence, active := r.active, payload := r)]
    else memories
  }

  /** Every memory the outcome names, adjusted once; names of unknown memories are skipped. */
  function AllAdjusted(memories: map<string, Memory>, q: Request, named: set<string>): map<string, Memory>
    requires q.Outcome?
  {
    map id | id in memories ::
      if id in named
      then var r := AfterOutcome(memories[id].payload, q);
           memories[id].(confidence := r.confidence, active := r.active, payload := r)
      else memories[id]
  }

  function Named(ids: seq<string>): set<string> { set id | id in ids }

  /** The effect of a new event on the memories, if it is allowed. */
  function Effect(memories: map<string, Memory>, q: Request): Option<map<string, Memory>> {
    match q
    case Ingest(_, _, r) => Some(memories[r.memoryId := Columns(r)])
    case Lifecycle(_, _, id, _, _, _, _) =>
      if id !in memories then None else Some(Updated(memories, AfterLifecycle(memories[id].payload, q)))
    case Outcome(_, _, _, _, ids, _, _) => Some(AllAdjusted(memories, q, Named(ids)))
  }

  /** One request against the tables: the new tables and what the caller is told. */
  function Apply(t: Tables, q: Request): (Tables, Result<bool, Error>) {
    if KeyOf(q) in t.events then
      (t, if t.events[KeyOf(q)] == Digest(q) then Success(false) else Failure(DifferentContent))
    else
      var effect := Effect(t.memories, q);
      if effect.None? && q.Lifecycle? then (t, Failure(UnknownMemory(q.memoryId)))
      else (Tables(t.events[KeyOf(q) := Digest(q)], if effect.Some? then effect.value else t.memories), Success(true))
  }

  // ---------------------------------------------------------------- agreement

  predicate MemoryAgrees(id: string, m: Memory) {
    && m.payload.memoryId == id
    && m == Columns(m.payload)
    && 0.0 <= m.confidence <= 1.0
  }

  /** Filter columns agree with the stored record, and confidence is a fraction. */
  ghost predicate Agrees(memories: map<string, Memory>) {
    forall id :: id in memories ==> MemoryAgrees(id, memories[id])
  }

  lemma AdjustOne(memories: map<string, Memory>, q: Request, done: set<string>, id: string)
    requires q.Outcome? && Agrees(memories) && id !in done
    ensures var now := AllAdjusted(memories, q, done);
            AllAdjusted(memories, q, done + {id})
            == if id in now then Updated(now, AfterOutcome(now[id].payload, q)) else now
  {
    if id in memories { assert MemoryAgrees(id, memories[id]); }
  }

  class MemoryStore {
    var events: map<EventKey, Request>
    var memories: map<string, Memory>

    ghost function State(): Tables
      reads this
    {
      Tables(events, memories)
    }

    constructor ()
      ensures State() == EMPTY
    {
      events, memories := map[], map[];
    }

    method InsertEvent(q: Request) returns (r: Result<bool, Error>)
      modifies this`events
      ensures KeyOf(q) in old(events) ==>
                events == old(events)
                && r == (if old(events)[KeyOf(q)] == Digest(q) then Success(false) else Failure(DifferentContent))
      ensures KeyOf(q) !in old(events) ==>
                events == old(events)[KeyOf(q) := Digest(q)] && r == Success(true)
    {
      var key := KeyOf(q);
      if key in events {
        if events[key] != Digest(q) { return Failure(DifferentContent); }
        return Success(false);
      }
      events := events[key := Digest(q)];
      return Success(true);
    }

    method UpdateRecord(r: Record)
      modifies this`memories
      ensures memories == Updated(old(memories), r)
    {
      if r.memoryId in memories {
        memories := memories[r.memoryId := memories[r.memoryId].(confidence := r.confidence, active := r.active,
                                                                 payload := r)];
      }
    }

    method IngestRecord(q: Request) returns (r: Result<bool, Error>)
      requires q.Ingest?
      modifies this
      ensures (State(), r) == Apply(old(State()), q)
    {
      r := InsertEvent(q);
      if r != Success(true) { return; }
      memories := memories[q.record.memoryId := Columns(q.record)];
    }

    /** A raise rolls the whole transaction back, the inserted event with it. */
    method RecordLifecycle(q: Request) returns (r: Result<bool, Error>)
      requires q.Lifecycle?
      modifies this
      ensures (State(), r) == Apply(old(State()), q)
    {
      var before := events;
      r := InsertEvent(q);
      if r != Success(true) { return; }
      if q.memoryId !in memories {
        events := before;
        return Failure(UnknownMemory(q.memoryId));
      }
      var record := memories[q.memoryId].payload;
      match q.action {
        case Reused =>
          record := record.(successfulReuses := record.successfulReuses + 1,
                            confidence := Raised(record.confidence));
        case Contradicted =>
          record := record.(contradictions := record.contradictions + 1,
                            confidence := Lowered(record.confidence));
        case _ => record := record.(active := false);
      }
      record := record.(metadata := record.metadata["last_lifecycle_action" := ActionName(q.action)]);
      if Given(q.supersededBy) {
        record := record.(metadata := record.metadata["superseded_by" := q.supersededBy.value]);
      }
      UpdateRecord(record);
    }

    /** Each named memory is adjusted once, however often the request repeats it. */
    method RecordOutcome(q: Request) returns (r: Result<bool, Error>)
      requires q.Outcome? && Agrees(memories)
      modifies this
      ensures (State(), r) == Apply(old(State()), q)
    {
      r := InsertEvent(q);
      if r != Success(true) { return; }
      var done: set<string> := {};
      for i := 0 to |q.memoryIds|
        invariant done == Named(q.memoryIds[..i])
        invariant memories == AllAdjusted(old(memories), q, done)
        invariant events == old(events)[KeyOf(q) := Digest(q)]
      {
        var id := q.memoryIds[i];
        assert q.memoryIds[..i + 1] == q.memoryIds[..i] + [id];
        if id !in done {
          AdjustOne(old(memories), q, done, id);
          done := done + {id};
          if id in memories {
            var record := memories[id].payload;
            record := if q.success && q.validationPassed != Some(false) then Confirm(record) else Contradict(record);
            record := record.(metadata := record.metadata["last_outcome_event_id" := q.eventId]);
            UpdateRecord(record);
          }
        }
      }
      assert q.memoryIds[..|q.memoryIds|] == q.memoryIds;
    }
  }

  lemma {:induction false} UpdateAgrees(memories: map<string, Memory>, r: Record)
    requires Agrees(memories) && r.memoryId in memories && 0.0 <= r.confidence <= 1.0
    requires Columns(r) == memories[r.memoryId].(confidence := r.confidence, active := r.active, payload := r)
    ensures Agrees(Updated(memories, r))
  {
    var after := Updated(memories, r);
    forall id | id in after ensures MemoryAgrees(id, after[id]) {
      if id != r.memoryId { assert MemoryAgrees(id, memories[id]); }
    }
  }

  lemma {:induction false} OutcomeAgrees(memories: map<string, Memory>, q: Request, named: set<string>)
    requires Agrees(memories) && q.Outcome?
    ensures Agrees(AllAdjusted(memories, q, named))
  {
    var after := AllAdjusted(memories, q, named);
    forall id | id in after ensures MemoryAgrees(id, after[id]) { assert MemoryAgrees(id, memories[id]); }
  }

  lemma {:induction false} EffectAgrees(memories: map<string, Memory>, q: Request)
    requires Agrees(memories) && Wellformed(q) && Effect(memories, q).Some?
    ensures Agrees(Effect(memories, q).value)
  {
    match q
    case Ingest(_, _, r) =>
      var after := memories[r.memoryId := Columns(r)];
      forall id | id in after ensures MemoryAgrees(id, after[id]) {
        if id != r.memoryId { assert MemoryAgrees(id, memories[id]); }
      }
    case Lifecycle(_, _, id, _, _, _, _) =>
      assert MemoryAgrees(id, memories[id]);
      UpdateAgrees(memories, AfterLifecycle(memories[id].payload, q));
    case Outcome(_, _, _, _, ids, _, _) => OutcomeAgrees(memories, q, Named(ids));
  }

  lemma {:induction false} ApplyAgrees(t: Tables, q: Request)
    requires Agrees(t.memories) && Wellformed(q)
    ensures Agrees(Apply(t, q).0.memories)
  {
    if Effect(t.memories, q).Some? { EffectAgrees(t.memories, q); }
  }

  // ---------------------------------------------------------------- runs

  function Run(t: Tables, log: seq<Request>): Tables {
    if log == [] then t else Apply(Run(t, log[..|log| - 1]), log[|log| - 1]).0
  }

  /** What the caller of the `i`th request is told. */
  function Answer(t: Tables, log: seq<Request>, i: nat): Result<bool, Error>
    requires i < |log|
  {
    Apply(Run(t, log[..i]), log[i]).1
  }

  /** Over every log, columns agree with records and confidence stays between 0 and 1. */
  lemma {:induction false} RunAgrees(t: Tables, log: seq<Request>)
    requires Agrees(t.memories) && forall q :: q in log ==> Wellformed(q)
    ensures Agrees(Run(t, log).memories)
    decreases |log|
  {
    if log != [] {
      RunAgrees(t, log[..|log| - 1]);
      ApplyAgrees(Run(t, log[..|log| - 1]), log[|log| - 1]);
    }
  }

  /** The event is in its table. */
  predicate Recorded(t: Tables, q: Request) {
    KeyOf(q) in t.events && t.events[KeyOf(q)] == Digest(q)
  }

  lemma {:induction false} RecordedStays(t: Tables, log: seq<Request>, i: nat, q: Request)
    requires i < |log| && Answer(t, log, i).Success? && Digest(log[i]) == Digest(q)
    ensures Recorded(Run(t, log), q)
    decreases |log|
  {
    var n := |log| - 1;
    if i < n {
      assert log[..n][..i] == log[..i];
      RecordedStays(t, log[..n], i, q);
    }
  }

  /** A request of a log and whether it is a redelivery. */
  datatype Item = Item(request: Request, copy: bool)

  function All(items: seq<Item>): (log: seq<Request>)
    ensures |log| == |items|
    ensures forall i :: 0 <= i < |items| ==> log[i] == items[i].request
  {
    seq(|items|, i requires 0 <= i < |items| => items[i].request)
  }

  function Originals(items: seq<Item>): seq<Request> {
    if items == [] then []
    else
      var n := |items| - 1;
      if items[n].copy then Originals(items[..n]) else Originals(items[..n]) + [items[n].request]
  }

  /** The redelivery at `i` repeats, up to its creation time, an event accepted before it. */
  ghost predicate Late(t: Tables, items: seq<Item>, i: nat)
    requires i < |items|
  {
    exists j: nat :: j < i && Answer(t, All(items), j).Success?
                     && Digest(items[j].request) == Digest(items[i].request)
  }

  lemma LatePrefix(t: Tables, items: seq<Item>, n: nat, i: nat)
    requires i < n <= |items| && Late(t, items, i)
    ensures Late(t, items[..n], i)
  {
    var j: nat :| j < i && Answer(t, All(items), j).Success?
                  && Digest(items[j].request) == Digest(items[i].request);
    assert All(items[..n])[..j] == All(items)[..j];
    assert Answer(t, All(items[..n]), j).Success?;
  }

  lemma CopyIsIgnored(t: Tables, items: seq<Item>, i: nat)
    requires i < |items| && Late(t, items, i)
    ensures Apply(Run(t, All(items)[..i]), items[i].request) == (Run(t, All(items)[..i]), Success(false))
  {
    var log := All(items);
    var j: nat :| j < i && Answer(t, log, j).Success? && Digest(items[j].request) == Digest(items[i].request);
    assert log[..i][..j] == log[..j];
    RecordedStays(t, log[..i], j, items[i].request);
  }

  lemma AllOfPrefix(items: seq<Item>, n: nat)
    requires n <= |items|
    ensures All(items[..n]) == All(items)[..n]
  {
  }

  lemma RunEndsWith(t: Tables, log: seq<Request>, q: Request)
    ensures Run(t, log + [q]) == Apply(Run(t, log), q).0
  {
    assert (log + [q])[..|log|] == log;
  }

  ghost predicate AllLate(t: Tables, items: seq<Item>) {
    forall i: nat :: i < |items| && items[i].copy ==> Late(t, items, i)
  }

  lemma AllLatePrefix(t: Tables, items: seq<Item>, n: nat)
    requires n <= |items| && AllLate(t, items)
    ensures AllLate(t, items[..n])
  {
    forall i: nat | i < n && items[..n][i].copy ensures Late(t, items[..n], i) {
      LatePrefix(t, items, n, i);
    }
  }

  lemma LastStep(t: Tables, items: seq<Item>)
    requires items != []
    ensures var p, q := items[..|items| - 1], items[|items| - 1].request;
            && Run(t, All(items)) == Apply(Run(t, All(p)), q).0
            && Run(t, Originals(items))
               == if items[|items| - 1].copy then Run(t, Originals(p)) else Apply(Run(t, Originals(p)), q).0
  {
    var n := |items| - 1;
    assert All(items) == All(items[..n]) + [items[n].request];
    RunEndsWith(t, All(items[..n]), items[n].request);
    RunEndsWith(t, Originals(items[..n]), items[n].request);
  }

  /** At-least-once delivery is exactly-once: redeliver accepted events, any number of them,
      anywhere later in the log, and the tables are those of the log without them. */
  lemma {:induction false} RedeliveryChangesNothing(t: Tables, items: seq<Item>)
    requires AllLate(t, items)
    ensures Run(t, All(items)) == Run(t, Originals(items))
    decreases |items|
  {
    if items != [] {
      var n := |items| - 1;
      AllLatePrefix(t, items, n);
      RedeliveryChangesNothing(t, items[..n]);
      LastStep(t, items);
      if items[n].copy {
        AllOfPrefix(items, n);
        CopyIsIgnored(t, items, n);
      }
    }
  }

  /** Each original is answered as in the log without the redeliveries, and each redelivery is
      answered that it is not new. */
  lemma RedeliveryAnswers(t: Tables, items: seq<Item>, i: nat)
    requires AllLate(t, items) && i < |items|
    ensures Answer(t, All(items), i) ==
              if items[i].copy then Success(false) else Apply(Run(t, Originals(items[..i])), items[i].request).1
  {
    AllLatePrefix(t, items, i);
    RedeliveryChangesNothing(t, items[..i]);
    AllOfPrefix(items, i);
    if items[i].copy { CopyIsIgnored(t, items, i); }
  }

  /** The requests of a log that were accepted as new. */
  function News(t: Tables, log: seq<Request>): seq<Request> {
    if log == [] then []
    else
      var n := |log| - 1;
      if Answer(t, log, n) == Success(true) then News(t, log[..n]) + [log[n]] else News(t, log[..n])
  }

  /** A request that is refused, or known already, leaves no trace: the tables of any log are
      those of its new requests alone. */
  lemma {:induction false} OnlyNewsCount(t: Tables, log: seq<Request>)
    ensures Run(t, News(t, log)) == Run(t, log)
    decreases |log|
  {
    if log != [] {
      var n := |log| - 1;
      OnlyNewsCount(t, log[..n]);
      RunEndsWith(t, News(t, log[..n]), log[n]);
    }
  }

  /** The `j`th request of a log was accepted as new under a key. */
  predicate NewAt(log: seq<Request>, j: nat, key: EventKey) {
    j < |log| && Answer(EMPTY, log, j) == Success(true) && KeyOf(log[j]) == key
  }

  /** The `j`th request of a log was accepted as new and ingested a memory. */
  predicate IngestedAt(log: seq<Request>, j: nat, id: string) {
    j < |log| && Answer(EMPTY, log, j) == Success(true) && log[j].Ingest? && log[j].record.memoryId == id
  }

  lemma NewsOfPrefix(log: seq<Request>, n: nat, j: nat)
    requires j < n <= |log|
    ensures Answer(EMPTY, log[..n], j) == Answer(EMPTY, log, j)
  {
    assert log[..n][..j] == log[..j];
  }

  lemma ApplyKeepsMemories(t: Tables, q: Request, id: string)
    requires Agrees(t.memories)
    ensures var (u, answer) := Apply(t, q);
            id in u.memories <==>
              id in t.memories || (answer == Success(true) && q.Ingest? && q.record.memoryId == id)
  {
    if q.Lifecycle? && q.memoryId in t.memories { assert MemoryAgrees(q.memoryId, t.memories[q.memoryId]); }
  }

  lemma ApplyKeepsEvents(t: Tables, q: Request, key: EventKey)
    ensures var (u, answer) := Apply(t, q);
            && (key in t.events ==> key in u.events && u.events[key] == t.events[key])
            && (key in u.events <==> key in t.events || (answer == Success(true) && KeyOf(q) == key))
            && (answer == Success(true) && KeyOf(q) == key ==> key !in t.events && u.events[key] == Digest(q))
  {
  }

  /** The table after a log holds a key as some request said that was accepted as new under it. */
  ghost predicate Records(log: seq<Request>, key: EventKey) {
    var events := Run(EMPTY, log).events;
    && (key in events ==> exists j: nat :: NewAt(log, j, key))
    && forall j: nat :: NewAt(log, j, key) ==> key in events && events[key] == Digest(log[j])
  }

  /** A key that is held after one more request has a source in the log. */
  lemma {:induction false} KeyHasSource(log: seq<Request>, key: EventKey)
    requires log != [] && Records(log[..|log| - 1], key) && key in Run(EMPTY, log).events
    ensures exists j: nat :: NewAt(log, j, key)
  {
    var n := |log| - 1;
    ApplyKeepsEvents(Run(EMPTY, log[..n]), log[n], key);
    if key in Run(EMPTY, log[..n]).events {
      var j: nat :| NewAt(log[..n], j, key);
      NewsOfPrefix(log, n, j);
      assert NewAt(log, j, key);
    } else {
      assert NewAt(log, n, key);
    }
  }

  /** What a source said is still held after one more request. */
  lemma {:induction false} SourceIsKept(log: seq<Request>, key: EventKey, j: nat)
    requires log != [] && Records(log[..|log| - 1], key) && NewAt(log, j, key)
    ensures key in Run(EMPTY, log).events && Run(EMPTY, log).events[key] == Digest(log[j])
  {
    var n := |log| - 1;
    ApplyKeepsEvents(Run(EMPTY, log[..n]), log[n], key);
    if j < n {
      NewsOfPrefix(log, n, j);
      assert NewAt(log[..n], j, key);
    }
  }

  lemma {:induction false} EventsAreNews(log: seq<Request>, key: EventKey)
    ensures Records(log, key)
    decreases |log|
  {
    if log != [] {
      EventsAreNews(log[..|log| - 1], key);
      if key in Run(EMPTY, log).events { KeyHasSource(log, key); }
      forall j: nat | NewAt(log, j, key)
        ensures key in Run(EMPTY, log).events && Run(EMPTY, log).events[key] == Digest(log[j])
      {
        SourceIsKept(log, key, j);
      }
    }
  }

  /** A memory is stored exactly when some request was accepted that ingested it. */
  lemma {:induction false} MemoriesAreIngested(log: seq<Request>, id: string)
    requires forall q :: q in log ==> Wellformed(q)
    ensures id in Run(EMPTY, log).memories <==> exists j: nat :: IngestedAt(log, j, id)
    decreases |log|
  {
    if log != [] {
      var n := |log| - 1;
      MemoriesAreIngested(log[..n], id);
      RunAgrees(EMPTY, log[..n]);
      ApplyKeepsMemories(Run(EMPTY, log[..n]), log[n], id);
      forall j: nat | j < n ensures IngestedAt(log[..n], j, id) <==> IngestedAt(log, j, id) {
        NewsOfPrefix(log, n, j);
      }
      if id in Run(EMPTY, log).memories {
        if id in Run(EMPTY, log[..n]).memories {
          var j: nat :| IngestedAt(log[..n], j, id);
          assert IngestedAt(log, j, id);
        } else {
          assert IngestedAt(log, n, id);
        }
      }
    }
  }

  lemma EventsBefore(log: seq<Request>, i: nat)
    requires i < |log|
    ensures var (key, events) := (KeyOf(log[i]), Run(EMPTY, log[..i]).events);
            && (key in events <==> exists j: nat :: j < i && NewAt(log, j, key))
            && forall j: nat :: j < i && NewAt(log, j, key) ==> key in events && events[key] == Digest(log[j])
  {
    var key := KeyOf(log[i]);
    EventsAreNews(log[..i], key);
    forall j: nat | j < i ensures NewAt(log[..i], j, key) <==> NewAt(log, j, key) { NewsOfPrefix(log, i, j); }
    if key in Run(EMPTY, log[..i]).events {
      var j: nat :| NewAt(log[..i], j, key);
      assert NewAt(log, j, key);
    }
  }

  lemma MemoriesBefore(log: seq<Request>, i: nat, id: string)
    requires i <= |log| && forall q :: q in log ==> Wellformed(q)
    ensures id in Run(EMPTY, log[..i]).memories <==> exists j: nat :: j < i && IngestedAt(log, j, id)
  {
    MemoriesAreIngested(log[..i], id);
    forall j: nat | j < i ensures IngestedAt(log[..i], j, id) <==> IngestedAt(log, j, id) { NewsOfPrefix(log, i, j); }
    if id in Run(EMPTY, log[..i]).memories {
      var j: nat :| IngestedAt(log[..i], j, id);
      assert IngestedAt(log, j, id);
    }
  }

  /** What a caller is told, from the history alone: a request is new exactly when none was new
      under its key before it and, if it is a lifecycle event, its memory was ingested before
      it; so one refused for an unknown memory is new as soon as the memory is there.  Under a
      key that is taken, a request is answered by whether it says the same. */
  lemma AnswersExactly(log: seq<Request>, i: nat)
    requires i < |log| && forall q :: q in log ==> Wellformed(q)
    ensures var q := log[i];
            && (Answer(EMPTY, log, i) == Success(true) <==>
                  && (forall j: nat :: j < i ==> !NewAt(log, j, KeyOf(q)))
                  && (q.Lifecycle? ==> exists j: nat :: j < i && IngestedAt(log, j, q.memoryId)))
            && (Answer(EMPTY, log, i) == Success(false) <==>
                  exists j: nat :: j < i && NewAt(log, j, KeyOf(q)) && Digest(log[j]) == Digest(q))
            && (Answer(EMPTY, log, i) == Failure(DifferentContent) <==>
                  exists j: nat :: j < i && NewAt(log, j, KeyOf(q)) && Digest(log[j]) != Digest(q))
  {
    EventsBefore(log, i);
    if log[i].Lifecycle? { MemoriesBefore(log, i, log[i].memoryId); }
  }

  // ---------------------------------------------------------------- counting

  /** Whether an accepted event counts for or against a memory. */
  predicate Counts(q: Request, id: string) {
    match q
    case Ingest(_, _, _) => false
    case Lifecycle(_, _, m, action, _, _, _) => m == id && (action.Reused? || action.Contradicted?)
    case Outcome(_, _, _, _, ids, _, _) => id in ids
  }

  function Tally(t: Tables, log: seq<Request>, id: string): nat {
    if log == [] then 0
    else
      var n := |log| - 1;
      Tally(t, log[..n], id) + if Answer(t, log, n) == Success(true) && Counts(log[n], id) then 1 else 0
  }

  function Uses(m: Memory): nat { m.payload.successfulReuses + m.payload.contradictions }

  predicate Reingests(q: Request, id: string) { q.Ingest? && q.record.memoryId == id }

  lemma {:induction false} ApplyCounts(t: Tables, q: Request, id: string)
    requires Agrees(t.memories) && id in t.memories && !Reingests(q, id)
    ensures var (u, answer) := Apply(t, q);
            && id in u.memories
            && Uses(u.memories[id]) == Uses(t.memories[id]) + if answer == Success(true) && Counts(q, id) then 1 else 0
  {
    assert MemoryAgrees(id, t.memories[id]);
    if q.Lifecycle? && q.memoryId in t.memories { assert MemoryAgrees(q.memoryId, t.memories[q.memoryId]); }
  }

  /** Until a memory is ingested again, its reuses and contradictions count the accepted events
      that named it: one each, whatever was refused, redelivered or repeated in a request. */
  lemma {:induction false} UsesAreTallied(t: Tables, log: seq<Request>, id: string)
    requires Agrees(t.memories) && id in t.memories
    requires forall q :: q in log ==> Wellformed(q) && !Reingests(q, id)
    ensures var u := Run(t, log);
            id in u.memories && Uses(u.memories[id]) == Uses(t.memories[id]) + Tally(t, log, id)
    decreases |log|
  {
    if log != [] {
      var n := |log| - 1;
      UsesAreTallied(t, log[..n], id);
      RunAgrees(t, log[..n]);
      ApplyCounts(Run(t, log[..n]), log[n], id);
      assert log[n] in log;
    }
  }
}
