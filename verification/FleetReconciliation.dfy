/** Fleet reconciliation: reconcilers commit snapshots under one lock row, and publishers
    write a report file only while their snapshot is still the current one.

    A transaction commits or rolls back as a whole.  Publishing is a separate transaction
    that any older reconciler may run arbitrarily late or repeatedly; the file write itself
    is not undone when that transaction fails to commit. */
module FleetReconciliation {
  import opened Prelude
  import opened FleetPlanner

  type Id = nat
  type ModelKey = (string, string)

  datatype Status = Building | Ready

  datatype Snapshot = Snapshot(
    id: Id,
    version: nat,
    previous: Option<Id>,
    status: Status,
    current: bool,
    capturedAt: int,
    modelCount: nat,
    authoritativeCount: nat,
    published: bool)

  datatype Assignment = Assignment(snapshot: Id, profile: string, slot: nat, key: ModelKey)

  datatype Graph = Graph(
    lockVersion: nat,
    publisher: Option<Id>,
    snapshots: seq<Snapshot>,               // in insertion order
    nodeState: map<string, Id>,             // mutable topology, keyed by node name
    modelState: map<ModelKey, Id>,
    nodeObservations: set<(Id, string)>,    // immutable history
    modelObservations: set<(Id, ModelKey)>,
    assignments: set<Assignment>,
    usesNode: set<Assignment>,              // assignments with a USES_NODE edge
    usesModel: set<Assignment>,             // ... with a USES_MODEL edge
    usesObserved: set<Assignment>)          // ... with both edges to observations

  const EMPTY_GRAPH := Graph(0, None, [], map[], map[], {}, {}, {}, {}, {}, {})

  datatype Request = Request(
    id: Id,
    capturedAt: int,
    nodes: seq<NodeInfo>,
    plans: seq<(string, Plan)>,
    allowEmpty: bool,
    allowDegraded: bool,
    maxDrop: real)

  datatype Refusal = NoNodes | NoModels | NoPlans | MissingPrimary | BadFraction | Degraded

  datatype Committed = Committed(id: Id, version: nat, previous: Option<Id>)

  datatype Report = Report(id: Id, version: nat)

  // ---------------------------------------------------------------- request contents

  function Named(nodes: seq<NodeInfo>): seq<NodeInfo> {
    if nodes == [] then []
    else (if nodes[0].name != "" then [nodes[0]] else []) + Named(nodes[1..])
  }

  /** `authoritative_node_count` of the summary. */
  function AuthoritativeNodes(nodes: seq<NodeInfo>): nat {
    if nodes == [] then 0
    else (if Eligible(nodes[0]) then 1 else 0) + AuthoritativeNodes(nodes[1..])
  }

  function NodeNames(q: Request): set<string> { set n | n in Named(q.nodes) :: n.name }

  function ModelRows(q: Request): seq<ModelKey> { AuthoritativeRows(Named(q.nodes)) }

  function ModelKeys(q: Request): set<ModelKey> { set k | k in ModelRows(q) :: k }

  function SlotOf(p: Plan, slot: nat): Option<Candidate> {
    if slot == 1 then p.primary else if slot == 2 then p.reviewer else if slot == 3 then p.fallback else None
  }

  function AssignmentRows(q: Request): set<Assignment> {
    set i, s | 0 <= i < |q.plans| && 1 <= s <= 3 && SlotOf(q.plans[i].1, s).Some?
      :: Assignment(q.id, q.plans[i].0, s, Pair(SlotOf(q.plans[i].1, s).value))
  }

  // ---------------------------------------------------------------- validation

  function Validate(q: Request): Option<Refusal> {
    if q.allowEmpty then None
    else if Named(q.nodes) == [] then Some(NoNodes)
    else if ModelRows(q) == [] then Some(NoModels)
    else if q.plans == [] then Some(NoPlans)
    else if exists i :: 0 <= i < |q.plans| && q.plans[i].1.primary.None? then Some(MissingPrimary)
    else None
  }

  /** One count fell by more than the tolerated fraction. */
  predicate Regressed(previous: nat, now: nat, maxDrop: real) {
    previous > 0 && now < previous && (previous - now) as real / previous as real > maxDrop
  }

  function ValidateDegradation(previous: Option<Snapshot>, models: nat, authoritative: nat,
                               maxDrop: real, allowed: bool): Option<Refusal>
  {
    if allowed || previous.None? then None
    else if !(0.0 <= maxDrop <= 1.0) then Some(BadFraction)
    else if Regressed(previous.value.modelCount, models, maxDrop)
            || Regressed(previous.value.authoritativeCount, authoritative, maxDrop)
    then Some(Degraded)
    else None
  }

  // ---------------------------------------------------------------- the predecessor

  /** `ORDER BY current DESC, version DESC, captured_at DESC`. */
  predicate OrderGeq(a: Snapshot, b: Snapshot) {
    if a.current != b.current then a.current
    else if a.version != b.version then a.version > b.version
    else a.capturedAt >= b.capturedAt
  }

  /** The first ready row in that order. */
  function Predecessor(rows: seq<Snapshot>): (p: Option<Snapshot>)
    ensures p.Some? ==> p.value in rows && p.value.status.Ready?
    ensures p.None? <==> forall r :: r in rows ==> !r.status.Ready?
    ensures forall r :: r in rows && r.status.Ready? ==> OrderGeq(p.value, r)
  {
    if rows == [] then None
    else
      var rest := Predecessor(rows[1..]);
      assert forall r :: r in rows ==> r == rows[0] || r in rows[1..];
      if !rows[0].status.Ready? then rest
      else if rest.None? || OrderGeq(rows[0], rest.value) then Some(rows[0])
      else rest
  }

  // ---------------------------------------------------------------- what a commit leaves

  function IdOf(p: Option<Snapshot>): Option<Id> {
    if p.None? then None else Some(p.value.id)
  }

  function Retired(rows: seq<Snapshot>): seq<Snapshot> {
    seq(|rows|, i requires 0 <= i < |rows| => rows[i].(current := false))
  }

  function NewSnapshot(g: Graph, q: Request): Snapshot {
    Snapshot(q.id, g.lockVersion + 1, IdOf(Predecessor(g.snapshots)), Ready, true, q.capturedAt,
             |ModelRows(q)|, AuthoritativeNodes(q.nodes), false)
  }

  /** An assignment row finds its node, its model and both observations. */
  predicate Finds(g: Graph, a: Assignment) {
    a.key.0 in g.nodeState && a.key in g.modelState
    && (a.snapshot, a.key.0) in g.nodeObservations && (a.snapshot, a.key) in g.modelObservations
  }

  /** The topology after the merges and before the clean-up, when assignments look for the
      rows they use. */
  function Merged(g: Graph, q: Request): Graph {
    g.(nodeState := g.nodeState + (map n | n in NodeNames(q) :: q.id),
       modelState := g.modelState + (map k | k in ModelKeys(q) :: q.id),
       nodeObservations := g.nodeObservations + (set n | n in NodeNames(q) :: (q.id, n)),
       modelObservations := g.modelObservations + (set k | k in ModelKeys(q) :: (q.id, k)))
  }

  /** The assignment rows of a request that find what they use. */
  function Found(g: Graph, q: Request): set<Assignment> { set a | a in AssignmentRows(q) && Finds(g, a) }

  /** The assignment rows, with their edges where everything they name is found. */
  function Linked(g: Graph, q: Request): Graph {
    g.(assignments := g.assignments + AssignmentRows(q),
       usesNode := g.usesNode + Found(g, q),
       usesModel := g.usesModel + Found(g, q),
       usesObserved := g.usesObserved + Found(g, q))
  }

  /** Nothing but the rows of this request, and no edge to a row that departed. */
  function Cleaned(g: Graph, q: Request): Graph {
    g.(nodeState := map n | n in NodeNames(q) :: q.id,
       modelState := map k | k in ModelKeys(q) :: q.id,
       usesNode := (set a | a in g.usesNode && a.key.0 in NodeNames(q)),
       usesModel := (set a | a in g.usesModel && a.key in ModelKeys(q)))
  }

  /** The topology after the statements of a commit. */
  function Rewritten(g: Graph, q: Request): Graph { Cleaned(Linked(Merged(g, q), q), q) }

  function AfterCommit(g: Graph, q: Request): Graph {
    var locked := g.(lockVersion := g.lockVersion + 1);
    Rewritten(locked, q).(snapshots := Retired(g.snapshots) + [NewSnapshot(g, q)])
  }

  function Refused(g: Graph, q: Request): Option<Refusal> {
    if Validate(q).Some? then Validate(q)
    else ValidateDegradation(Predecessor(g.snapshots), |ModelRows(q)|, AuthoritativeNodes(q.nodes),
                             q.maxDrop, q.allowDegraded || q.allowEmpty)
  }

  predicate OwnsFence(g: Graph, id: Id, version: nat) {
    g.lockVersion > 0
    && exists i :: 0 <= i < |g.snapshots| && g.snapshots[i].id == id && g.snapshots[i].status.Ready?
                   && g.snapshots[i].current && g.snapshots[i].version == version
  }

  function MarkPublished(rows: seq<Snapshot>, id: Id): seq<Snapshot> {
    seq(|rows|, i requires 0 <= i < |rows| =>
      if rows[i].id == id then rows[i].(published := true) else rows[i])
  }

  // ---------------------------------------------------------------- the statements

  /** The two MERGE statements, and the observations they add. */
  method WriteTopology(g: Graph, q: Request) returns (tx: Graph)
    ensures tx == Merged(g, q)
  {
    tx := g.(nodeState := g.nodeState + (map n | n in NodeNames(q) :: q.id),
             nodeObservations := g.nodeObservations + (set n | n in NodeNames(q) :: (q.id, n)));
    tx := tx.(modelState := tx.modelState + (map k | k in ModelKeys(q) :: q.id),
              modelObservations := tx.modelObservations + (set k | k in ModelKeys(q) :: (q.id, k)));
  }

  method LinkAssignments(g: Graph, q: Request) returns (tx: Graph)
    ensures tx == Linked(g, q)
  {
    tx := g.(assignments := g.assignments + AssignmentRows(q));
    var found := Found(g, q);
    tx := tx.(usesNode := tx.usesNode + found, usesModel := tx.usesModel + found,
              usesObserved := tx.usesObserved + found);
  }

  /** The two DETACH DELETE statements keep only the rows that were just merged, and drop the
      edges of the others. */
  method DropDeparted(g: Graph, q: Request) returns (tx: Graph)
    requires forall n :: n in NodeNames(q) ==> n in g.nodeState && g.nodeState[n] == q.id
    requires forall k :: k in ModelKeys(q) ==> k in g.modelState && g.modelState[k] == q.id
    ensures tx == Cleaned(g, q)
  {
    tx := g.(nodeState := map n | n in g.nodeState && n in NodeNames(q) :: g.nodeState[n],
             usesNode := (set a | a in g.usesNode && a.key.0 in NodeNames(q)));
    tx := tx.(modelState := map k | k in tx.modelState && k in ModelKeys(q) :: tx.modelState[k],
              usesModel := (set a | a in tx.usesModel && a.key in ModelKeys(q)));
    assert tx.nodeState == map n | n in NodeNames(q) :: q.id;
    assert tx.modelState == map k | k in ModelKeys(q) :: q.id;
  }

  /** Retires every other snapshot, then marks the one being built ready and current. */
  method MakeCurrent(rows: seq<Snapshot>) returns (r: seq<Snapshot>)
    requires rows != []
    ensures var last := |rows| - 1;
            r == Retired(rows[..last]) + [rows[last].(status := Ready, current := true)]
  {
    var last := |rows| - 1;
    r := Retired(rows[..last]) + [rows[last]];
    r := r[last := r[last].(status := Ready, current := true)];
  }

  /** The statements that write, link and clean the topology. */
  method WriteRows(g: Graph, q: Request) returns (tx: Graph)
    ensures tx == Rewritten(g, q)
  {
    tx := WriteTopology(g, q);
    tx := LinkAssignments(tx, q);
    tx := DropDeparted(tx, q);
  }

  /** The new snapshot, built and then made current. */
  method SnapshotRows(before: seq<Snapshot>, version: nat, q: Request) returns (rows: seq<Snapshot>)
    ensures rows == Retired(before) + [Snapshot(q.id, version, IdOf(Predecessor(before)), Ready, true, q.capturedAt,
                                                |ModelRows(q)|, AuthoritativeNodes(q.nodes), false)]
  {
    var building := Snapshot(q.id, version, IdOf(Predecessor(before)), Building, false, q.capturedAt,
                             |ModelRows(q)|, AuthoritativeNodes(q.nodes), false);
    rows := MakeCurrent(before + [building]);
  }

  /** `write_snapshot`: take the lock, check against the predecessor, write the new
      topology, drop what is no longer there, retire the old snapshot. */
  method WriteSnapshot(g: Graph, q: Request) returns (r: Result<Graph, Refusal>)
    requires Validate(q).None?
    ensures r.Failure? <==> Refused(g, q).Some?
    ensures r.Failure? ==> Refused(g, q) == Some(r.error)
    ensures r.Success? ==> r.value == AfterCommit(g, q)
  {
    var tx := g.(lockVersion := g.lockVersion + 1);
    var previous := Predecessor(tx.snapshots);
    var late := ValidateDegradation(previous, |ModelRows(q)|, AuthoritativeNodes(q.nodes),
                                    q.maxDrop, q.allowDegraded || q.allowEmpty);
    if late.Some? { return Failure(late.value); }
    var rows := SnapshotRows(g.snapshots, tx.lockVersion, q);
    tx := WriteRows(tx, q);
    return Success(tx.(snapshots := rows));
  }

  // ---------------------------------------------------------------- the store

  /** The database and the report file.  Each method runs one transaction on a working copy
      and installs it at the end; a refusal leaves the database as it was. */
  class Store {
    var graph: Graph
    var file: Option<Report>

    constructor ()
      ensures graph == EMPTY_GRAPH && file == None
    {
      graph, file := EMPTY_GRAPH, None;
    }

    /** `persist_to_neo4j`: validate the request, then run the transaction. */
    method Persist(q: Request) returns (r: Result<Committed, Refusal>)
      modifies this`graph
      ensures r.Failure? <==> Refused(old(graph), q).Some?
      ensures r.Failure? ==> graph == old(graph) && Refused(old(graph), q) == Some(r.error)
      ensures r.Success? ==> graph == AfterCommit(old(graph), q)
      ensures r.Success? ==> r.value == Committed(q.id, old(graph).lockVersion + 1,
                                                  IdOf(Predecessor(old(graph).snapshots)))
    {
      var early := Validate(q);
      if early.Some? { return Failure(early.value); }
      var previous := Predecessor(graph.snapshots);
      var written := WriteSnapshot(graph, q);
      if written.Failure? { return Failure(written.error); }
      graph := written.value;
      return Success(Committed(q.id, graph.lockVersion, IdOf(previous)));
    }

    /** `publish_committed_report`.  The lock row records every attempt.  The file is
        written inside the transaction, so it stays written when the commit is lost. */
    method Publish(id: Id, version: nat, commits: bool) returns (published: bool)
      modifies this
      ensures published ==> commits
      ensures OwnsFence(old(graph), id, version) ==>
                file == Some(Report(id, version)) && published == commits
      ensures !OwnsFence(old(graph), id, version) ==> file == old(file) && !published
      ensures graph == AfterPublish(old(graph), id, version, commits)
    {
      var tx := graph;
      if tx.lockVersion > 0 { tx := tx.(publisher := Some(id)); }
      if !OwnsFence(tx, id, version) {
        if commits { graph := tx; }
        return false;
      }
      file := Some(Report(id, version));
      tx := tx.(snapshots := MarkPublished(tx.snapshots, id));
      if commits { graph := tx; }
      return commits;
    }
  }

  function AfterPublish(g: Graph, id: Id, version: nat, commits: bool): Graph {
    if !commits || g.lockVersion == 0 then g
    else if !OwnsFence(g, id, version) then g.(publisher := Some(id))
    else g.(publisher := Some(id), snapshots := MarkPublished(g.snapshots, id))
  }

  // ---------------------------------------------------------------- the linear chain

  function IdBefore(rows: seq<Snapshot>, i: nat): Option<Id>
    requires i < |rows|
  {
    if i == 0 then None else Some(rows[i - 1].id)
  }

  /** The snapshots form one chain: versions are 1, 2, 3, ..., each names the one before it,
      and only the newest is current. */
  ghost predicate ChainRows(rows: seq<Snapshot>) {
    && (forall i :: 0 <= i < |rows| ==> LinkedAt(rows, i))
    && (forall i, j :: 0 <= i < j < |rows| ==> rows[i].id != rows[j].id)
  }

  ghost predicate LinkedAt(rows: seq<Snapshot>, i: nat)
    requires i < |rows|
  {
    && rows[i].version == i + 1
    && rows[i].status.Ready?
    && rows[i].previous == IdBefore(rows, i)
    && (rows[i].current <==> i == |rows| - 1)
  }

  ghost predicate Chain(g: Graph) { g.lockVersion == |g.snapshots| && ChainRows(g.snapshots) }

  /** The mutable topology is exactly the newest snapshot's rows. */
  ghost predicate TopologyIsCurrent(g: Graph) {
    if g.snapshots == [] then g.nodeState == map[] && g.modelState == map[]
    else
      var id := g.snapshots[|g.snapshots| - 1].id;
      && (forall n :: n in g.nodeState <==> (id, n) in g.nodeObservations)
      && (forall k :: k in g.modelState <==> (id, k) in g.modelObservations)
      && (forall n :: n in g.nodeState ==> g.nodeState[n] == id)
      && (forall k :: k in g.modelState ==> g.modelState[k] == id)
  }

  ghost predicate HasId(rows: seq<Snapshot>, id: Id) { exists s :: s in rows && s.id == id }

  /** Observations belong to committed snapshots. */
  ghost predicate Observed(g: Graph) {
    && (forall o :: o in g.nodeObservations ==> HasId(g.snapshots, o.0))
    && (forall o :: o in g.modelObservations ==> HasId(g.snapshots, o.0))
  }

  /** Under the lock a reconciler always reads the newest snapshot. */
  lemma PredecessorIsNewest(rows: seq<Snapshot>)
    requires ChainRows(rows)
    ensures Predecessor(rows) == if rows == [] then None else Some(rows[|rows| - 1])
  {
    if rows != [] {
      var last := rows[|rows| - 1];
      assert last in rows && LinkedAt(rows, |rows| - 1);
      var p := Predecessor(rows).value;
      var i :| 0 <= i < |rows| && rows[i] == p;
      assert OrderGeq(p, last) && LinkedAt(rows, i);
    }
  }

  lemma ExtendChain(rows: seq<Snapshot>, s: Snapshot)
    requires ChainRows(rows) && forall r :: r in rows ==> r.id != s.id
    requires s.version == |rows| + 1 && s.status.Ready? && s.current
    requires s.previous == if rows == [] then None else Some(rows[|rows| - 1].id)
    ensures ChainRows(Retired(rows) + [s])
  {
    var n := Retired(rows) + [s];
    assert forall i :: 0 <= i < |rows| ==> rows[i] in rows && n[i] == rows[i].(current := false);
    forall i | 0 <= i < |n| ensures LinkedAt(n, i) {
      if i < |rows| { assert LinkedAt(rows, i); }
    }
  }

  lemma CommitChain(g: Graph, q: Request)
    requires Chain(g) && forall s :: s in g.snapshots ==> s.id != q.id
    ensures Chain(AfterCommit(g, q))
  {
    PredecessorIsNewest(g.snapshots);
    ExtendChain(g.snapshots, NewSnapshot(g, q));
  }

  /** Rows with the same identifiers, whatever else changed. */
  lemma SameIds(a: seq<Snapshot>, b: seq<Snapshot>, id: Id)
    requires HasId(a, id) && |a| <= |b| && forall i :: 0 <= i < |a| ==> a[i].id == b[i].id
    ensures HasId(b, id)
  {
    var s :| s in a && s.id == id;
    var i :| 0 <= i < |a| && a[i] == s;
    assert b[i] in b;
  }

  lemma CommitTopology(g: Graph, q: Request)
    requires Observed(g) && forall s :: s in g.snapshots ==> s.id != q.id
    ensures TopologyIsCurrent(AfterCommit(g, q)) && Observed(AfterCommit(g, q))
  {
    var n := AfterCommit(g, q);
    forall id | HasId(g.snapshots, id) ensures HasId(n.snapshots, id) && id != q.id {
      SameIds(g.snapshots, n.snapshots, id);
    }
    assert n.snapshots[|g.snapshots|] in n.snapshots && n.snapshots[|g.snapshots|].id == q.id;
  }

  lemma MarkedChain(rows: seq<Snapshot>, id: Id)
    requires ChainRows(rows)
    ensures ChainRows(MarkPublished(rows, id)) && |MarkPublished(rows, id)| == |rows|
    ensures forall i :: 0 <= i < |rows| ==>
              MarkPublished(rows, id)[i] == rows[i].(published := MarkPublished(rows, id)[i].published)
  {
    var n := MarkPublished(rows, id);
    assert forall i :: 0 <= i < |rows| ==>
             n[i] == rows[i].(published := rows[i].id == id || rows[i].published);
    forall i | 0 <= i < |n| ensures LinkedAt(n, i) {
      assert LinkedAt(rows, i);
    }
  }

  lemma SameTopology(g: Graph, n: Graph)
    requires TopologyIsCurrent(g) && Observed(g)
    requires |n.snapshots| == |g.snapshots|
    requires forall i :: 0 <= i < |g.snapshots| ==> n.snapshots[i].id == g.snapshots[i].id
    requires n.nodeState == g.nodeState && n.modelState == g.modelState
    requires n.nodeObservations == g.nodeObservations && n.modelObservations == g.modelObservations
    ensures TopologyIsCurrent(n) && Observed(n)
  {
    forall id | HasId(g.snapshots, id) ensures HasId(n.snapshots, id) {
      SameIds(g.snapshots, n.snapshots, id);
    }
  }

  /** Publishing changes nothing but publication marks. */
  lemma PublishKeeps(g: Graph, id: Id, version: nat, commits: bool)
    requires Chain(g)
    ensures var n := AfterPublish(g, id, version, commits);
            && Chain(n) && |n.snapshots| == |g.snapshots|
            && (forall i :: 0 <= i < |g.snapshots| ==>
                  n.snapshots[i] == g.snapshots[i].(published := n.snapshots[i].published))
            && n == g.(publisher := n.publisher, snapshots := n.snapshots)
  {
    MarkedChain(g.snapshots, id);
  }

  // ---------------------------------------------------------------- runs

  datatype Event =
    | Reconcile(request: Request)
    | Publisher(id: Id, version: nat, commits: bool)

  /** A write of the report file, with the lock version at that moment. */
  datatype Write = Write(report: Report, at: nat)

  /** The database, the file, the requests that committed and the writes so far. */
  datatype World = World(graph: Graph, file: Option<Report>, requests: seq<Request>, writes: seq<Write>)

  const EMPTY_WORLD := World(EMPTY_GRAPH, None, [], [])

  predicate Fresh(g: Graph, id: Id) { forall s :: s in g.snapshots ==> s.id != id }

  /** Snapshot identifiers are never reused, so a request with a used one cannot happen. */
  function Happen(w: World, e: Event): World {
    match e
    case Reconcile(q) =>
      if !Fresh(w.graph, q.id) || Refused(w.graph, q).Some? then w
      else w.(graph := AfterCommit(w.graph, q), requests := w.requests + [q])
    case Publisher(id, version, commits) =>
      var v := w.(graph := AfterPublish(w.graph, id, version, commits));
      if OwnsFence(w.graph, id, version)
      then v.(file := Some(Report(id, version)),
              writes := w.writes + [Write(Report(id, version), w.graph.lockVersion)])
      else v
  }

  function History(w: World, events: seq<Event>): World
    decreases |events|
  {
    if events == [] then w else History(Happen(w, events[0]), events[1..])
  }

  /** Every write named a committed snapshot that was the newest when it was written, and
      the file holds the last write. */
  ghost predicate FileFollows(w: World) {
    && (forall i :: 0 <= i < |w.writes| ==>
          && 0 < w.writes[i].report.version == w.writes[i].at <= |w.graph.snapshots|
          && w.graph.snapshots[w.writes[i].at - 1].id == w.writes[i].report.id)
    && (forall i, j :: 0 <= i < j < |w.writes| ==> w.writes[i].report.version <= w.writes[j].report.version)
    && (if w.writes == [] then w.file == None
        else w.file == Some(w.writes[|w.writes| - 1].report))
  }

  ghost predicate RequestsMatch(w: World) {
    && |w.requests| == |w.graph.snapshots|
    && (forall i :: 0 <= i < |w.requests| ==> Describes(w.graph.snapshots[i], w.requests[i]))
  }

  predicate Describes(s: Snapshot, q: Request) {
    && s.id == q.id
    && s.modelCount == |ModelRows(q)|
    && s.authoritativeCount == AuthoritativeNodes(q.nodes)
  }

  ghost predicate Sound(w: World) {
    Chain(w.graph) && TopologyIsCurrent(w.graph) && Observed(w.graph) && FileFollows(w) && RequestsMatch(w)
  }

  /** Exactly the newest snapshot owns the fence, under exactly its own version. */
  lemma FenceIsNewest(g: Graph, id: Id, version: nat)
    requires Chain(g)
    ensures OwnsFence(g, id, version) <==>
            g.snapshots != [] && g.snapshots[|g.snapshots| - 1].id == id && version == g.lockVersion
  {
    forall i | 0 <= i < |g.snapshots|
      ensures g.snapshots[i].status.Ready? && g.snapshots[i].version == i + 1
      ensures g.snapshots[i].current <==> i == |g.snapshots| - 1
    {
      assert LinkedAt(g.snapshots, i);
    }
  }

  lemma ReconcileSound(w: World, q: Request)
    requires Sound(w) && Fresh(w.graph, q.id) && Refused(w.graph, q).None?
    ensures Sound(Happen(w, Reconcile(q)))
  {
    CommitChain(w.graph, q);
    CommitTopology(w.graph, q);
    ReconcileKeepsFile(w, q);
    ReconcileAddsRequest(w, q);
  }

  lemma ReconcileKeepsFile(w: World, q: Request)
    requires FileFollows(w)
    ensures FileFollows(w.(graph := AfterCommit(w.graph, q), requests := w.requests + [q]))
  {
    var v := w.(graph := AfterCommit(w.graph, q), requests := w.requests + [q]);
    IdsStay(w.graph, q);
    WritesStay(w, v);
  }

  lemma IdsStay(g: Graph, q: Request)
    ensures |AfterCommit(g, q).snapshots| == |g.snapshots| + 1
    ensures forall i :: 0 <= i < |g.snapshots| ==> AfterCommit(g, q).snapshots[i].id == g.snapshots[i].id
  {
  }

  lemma WritesStay(w: World, v: World)
    requires FileFollows(w) && v.file == w.file && v.writes == w.writes
    requires |w.graph.snapshots| <= |v.graph.snapshots|
    requires forall i :: 0 <= i < |w.graph.snapshots| ==> v.graph.snapshots[i].id == w.graph.snapshots[i].id
    ensures FileFollows(v)
  {
  }

  lemma ReconcileAddsRequest(w: World, q: Request)
    requires RequestsMatch(w)
    ensures RequestsMatch(w.(graph := AfterCommit(w.graph, q), requests := w.requests + [q]))
  {
    var rows := AfterCommit(w.graph, q).snapshots;
    assert forall i :: 0 <= i < |w.graph.snapshots| ==>
             rows[i] == w.graph.snapshots[i].(current := false);
  }

  lemma PublisherSound(w: World, id: Id, version: nat, commits: bool)
    requires Sound(w)
    ensures Sound(Happen(w, Publisher(id, version, commits)))
  {
    PublishKeeps(w.graph, id, version, commits);
    FenceIsNewest(w.graph, id, version);
    var v := Happen(w, Publisher(id, version, commits));
    SameTopology(w.graph, v.graph);
    SameRequests(w, v);
    WritesFollow(w, v, id, version);
  }

  lemma SameRequests(w: World, v: World)
    requires RequestsMatch(w) && v.requests == w.requests
    requires |v.graph.snapshots| == |w.graph.snapshots|
    requires forall i :: 0 <= i < |w.graph.snapshots| ==>
               v.graph.snapshots[i] == w.graph.snapshots[i].(published := v.graph.snapshots[i].published)
    ensures RequestsMatch(v)
  {
  }

  lemma {:induction false} WritesFollow(w: World, v: World, id: Id, version: nat)
    requires FileFollows(w) && w.graph.lockVersion == |w.graph.snapshots|
    requires |v.graph.snapshots| == |w.graph.snapshots|
    requires forall i :: 0 <= i < |w.graph.snapshots| ==> v.graph.snapshots[i].id == w.graph.snapshots[i].id
    requires (v.file == w.file && v.writes == w.writes)
             || (v.file == Some(Report(id, version))
                 && v.writes == w.writes + [Write(Report(id, version), w.graph.lockVersion)]
                 && w.graph.snapshots != [] && version == w.graph.lockVersion
                 && w.graph.snapshots[|w.graph.snapshots| - 1].id == id)
    ensures FileFollows(v)
  {
  }

  lemma HappenSound(w: World, e: Event)
    requires Sound(w)
    ensures Sound(Happen(w, e))
  {
    match e
    case Reconcile(q) =>
      if Fresh(w.graph, q.id) && Refused(w.graph, q).None? { ReconcileSound(w, q); }
    case Publisher(id, version, commits) => PublisherSound(w, id, version, commits);
  }

  /** In every run of reconcilers and publishers the snapshots stay one linear chain whose
      newest element is the only current one and owns the topology, and the report file
      always holds a snapshot that was current when it was written, with versions that
      never decrease. */
  lemma {:induction false} HistorySound(w: World, events: seq<Event>)
    requires Sound(w)
    ensures Sound(History(w, events))
    decreases |events|
  {
    if events != [] {
      HappenSound(w, events[0]);
      HistorySound(Happen(w, events[0]), events[1..]);
    }
  }

  lemma EveryHistoryIsSound(events: seq<Event>)
    ensures Sound(History(EMPTY_WORLD, events))
  {
    HistorySound(EMPTY_WORLD, events);
  }

  // ---------------------------------------------------------------- the file

  /** However late or repeated the publishers are: a superseded one leaves the file
      untouched, and the file's version never goes back. */
  lemma {:induction false} FileNeverGoesBack(w: World, events: seq<Event>)
    requires Sound(w)
    ensures var v := History(w, events);
            w.file.Some? ==> v.file.Some? && w.file.value.version <= v.file.value.version
    decreases |events|
  {
    if events != [] {
      var v := Happen(w, events[0]);
      HappenSound(w, events[0]);
      FileStep(w, events[0]);
      FileNeverGoesBack(v, events[1..]);
    }
  }

  lemma FileStep(w: World, e: Event)
    requires Sound(w)
    ensures var v := Happen(w, e);
            && (w.file.Some? ==> v.file.Some? && w.file.value.version <= v.file.value.version)
            && (v.file != w.file ==>
                  && e.Publisher? && v.file == Some(Report(e.id, e.version))
                  && w.graph.snapshots != [] && e.version == |w.graph.snapshots|
                  && w.graph.snapshots[|w.graph.snapshots| - 1].id == e.id)
            && (e.Publisher? && (w.graph.snapshots == []
                                 || w.graph.snapshots[|w.graph.snapshots| - 1].id != e.id
                                 || e.version != |w.graph.snapshots|)
                ==> v.file == w.file)
  {
    if e.Publisher? { FenceIsNewest(w.graph, e.id, e.version); }
  }

  // ---------------------------------------------------------------- gradual drops

  ghost function Power(x: real, n: nat): real { if n == 0 then 1.0 else x * Power(x, n - 1) }

  /** The check accepts a count exactly when at least (1 - f) of the previous one is left. */
  lemma RegressedExactly(previous: nat, now: nat, f: real)
    requires 0.0 <= f
    ensures !Regressed(previous, now, f) <==> now as real >= (1.0 - f) * previous as real
  {
    var p, n := previous as real, now as real;
    Expand(f, p);
    if previous > 0 && now < previous {
      DivideBy(p - n, p, f);
    }
  }

  lemma Expand(f: real, p: real)
    requires f >= 0.0 && p >= 0.0
    ensures (1.0 - f) * p == p - f * p && f * p >= 0.0
  {
  }

  lemma DivideBy(d: real, p: real, f: real)
    requires p > 0.0
    ensures d / p > f <==> d > f * p
  {
    var q := d / p;
    assert q * p == d;
    if q > f { Scale(f, q, p); } else { ScaleLe(q, f, p); }
  }

  lemma Scale(a: real, b: real, p: real)
    requires a < b && p > 0.0
    ensures a * p < b * p
  {
  }

  lemma ScaleLe(a: real, b: real, p: real)
    requires a <= b && p >= 0.0
    ensures a * p <= b * p
  {
  }

  predicate Checks(q: Request) { !q.allowDegraded && !q.allowEmpty }

  /** At least (1 - drop) of `previous` is left. */
  ghost predicate Kept(previous: nat, now: nat, drop: real) {
    now as real >= (1.0 - drop) * previous as real
  }

  /** What the check of a commit that follows `p` left behind. */
  ghost predicate Follows(p: Request, q: Request) {
    Checks(q) ==>
      && 0.0 <= q.maxDrop <= 1.0
      && Kept(|ModelRows(p)|, |ModelRows(q)|, q.maxDrop)
      && Kept(AuthoritativeNodes(p.nodes), AuthoritativeNodes(q.nodes), q.maxDrop)
  }

  ghost predicate GuardedAt(qs: seq<Request>, i: nat)
    requires 0 < i < |qs|
  {
    Follows(qs[i - 1], qs[i])
  }

  ghost predicate Guarded(qs: seq<Request>) { forall i :: 0 < i < |qs| ==> GuardedAt(qs, i) }

  lemma NewGuard(w: World, q: Request)
    requires ChainRows(w.graph.snapshots) && RequestsMatch(w) && Refused(w.graph, q).None?
    requires w.requests != []
    ensures Follows(w.requests[|w.requests| - 1], q)
  {
    var last := w.graph.snapshots[|w.graph.snapshots| - 1];
    PredecessorIsNewest(w.graph.snapshots);
    if Checks(q) {
      NotRefusedKeeps(w.graph, q, last);
      assert Describes(last, w.requests[|w.requests| - 1]);
    }
  }

  lemma NotRefusedKeeps(g: Graph, q: Request, last: Snapshot)
    requires Predecessor(g.snapshots) == Some(last) && Refused(g, q).None? && Checks(q)
    ensures 0.0 <= q.maxDrop <= 1.0
    ensures Kept(last.modelCount, |ModelRows(q)|, q.maxDrop)
    ensures Kept(last.authoritativeCount, AuthoritativeNodes(q.nodes), q.maxDrop)
  {
    AcceptedKeeps(last, |ModelRows(q)|, AuthoritativeNodes(q.nodes), q.maxDrop);
  }

  lemma AcceptedKeeps(previous: Snapshot, models: nat, authoritative: nat, drop: real)
    requires ValidateDegradation(Some(previous), models, authoritative, drop, false).None?
    ensures 0.0 <= drop <= 1.0
    ensures Kept(previous.modelCount, models, drop)
    ensures Kept(previous.authoritativeCount, authoritative, drop)
  {
    RegressedExactly(previous.modelCount, models, drop);
    RegressedExactly(previous.authoritativeCount, authoritative, drop);
  }

  lemma GuardedGrows(qs: seq<Request>, q: Request)
    requires Guarded(qs) && (qs != [] ==> Follows(qs[|qs| - 1], q))
    ensures Guarded(qs + [q])
  {
    var n := qs + [q];
    forall i | 0 < i < |n| ensures GuardedAt(n, i) {
      if i < |qs| { assert GuardedAt(qs, i); }
    }
  }

  lemma HappenGuarded(w: World, e: Event)
    requires ChainRows(w.graph.snapshots) && RequestsMatch(w) && Guarded(w.requests)
    ensures Guarded(Happen(w, e).requests)
  {
    if e.Reconcile? && Fresh(w.graph, e.request.id) && Refused(w.graph, e.request).None? {
      if w.requests != [] { NewGuard(w, e.request); }
      GuardedGrows(w.requests, e.request);
    }
  }

  lemma {:induction false} HistoryGuarded(w: World, events: seq<Event>)
    requires Sound(w) && Guarded(w.requests)
    ensures Guarded(History(w, events).requests)
    decreases |events|
  {
    if events != [] {
      HappenSound(w, events[0]);
      HappenGuarded(w, events[0]);
      HistoryGuarded(Happen(w, events[0]), events[1..]);
    }
  }

  lemma KeptMore(previous: nat, now: nat, drop: real, f: real)
    requires drop <= f && Kept(previous, now, drop)
    ensures Kept(previous, now, f)
  {
    ScaleLe(1.0 - f, 1.0 - drop, previous as real);
  }

  lemma Compound(a: real, b: real, c: real, r: real, p: real)
    requires b >= p * a && c >= r * b && r >= 0.0
    ensures c >= r * p * a
  {
    ScaleLe(p * a, b, r);
    assert r * (p * a) == r * p * a;
  }

  ghost predicate Keeps(c: seq<nat>, i: nat, f: real)
    requires 0 < i < |c|
  {
    Kept(c[i - 1], c[i], f)
  }

  lemma {:induction false} CountsKeep(c: seq<nat>, i: nat, n: nat, f: real)
    requires i + n < |c| && 0.0 <= f <= 1.0 && AllKeep(c, i, n, f)
    ensures Compounded(c, i, n, f)
    decreases n
  {
    if n > 0 {
      CountsKeep(c, i, n - 1, f);
      assert Keeps(c, i + n, f);
      Compound(c[i] as real, c[i + n - 1] as real, c[i + n] as real, 1.0 - f, Power(1.0 - f, n - 1));
    }
  }

  ghost function ModelCounts(qs: seq<Request>): seq<nat> {
    seq(|qs|, i requires 0 <= i < |qs| => |ModelRows(qs[i])|)
  }

  ghost function NodeCounts(qs: seq<Request>): seq<nat> {
    seq(|qs|, i requires 0 <= i < |qs| => AuthoritativeNodes(qs[i].nodes))
  }

  lemma ModelsKeep(qs: seq<Request>, k: nat, f: real)
    requires 0 < k < |qs| && GuardedAt(qs, k) && Checks(qs[k]) && qs[k].maxDrop <= f
    ensures Keeps(ModelCounts(qs), k, f)
  {
    KeptMore(|ModelRows(qs[k - 1])|, |ModelRows(qs[k])|, qs[k].maxDrop, f);
  }

  lemma NodesKeep(qs: seq<Request>, k: nat, f: real)
    requires 0 < k < |qs| && GuardedAt(qs, k) && Checks(qs[k]) && qs[k].maxDrop <= f
    ensures Keeps(NodeCounts(qs), k, f)
  {
    KeptMore(AuthoritativeNodes(qs[k - 1].nodes), AuthoritativeNodes(qs[k].nodes), qs[k].maxDrop, f);
  }

  /** Commits i+1 to i+n were checked, with fractions of at most `f`. */
  ghost predicate CheckedStretch(qs: seq<Request>, i: nat, n: nat, f: real) {
    && i + n < |qs|
    && forall k :: i < k <= i + n ==> Checks(qs[k]) && qs[k].maxDrop <= f
  }

  ghost predicate AllKeep(c: seq<nat>, i: nat, n: nat, f: real)
    requires i + n < |c|
  {
    forall k :: i < k <= i + n ==> Keeps(c, k, f)
  }

  lemma StretchKeeps(qs: seq<Request>, i: nat, n: nat, f: real)
    requires Guarded(qs) && CheckedStretch(qs, i, n, f)
    ensures AllKeep(ModelCounts(qs), i, n, f) && AllKeep(NodeCounts(qs), i, n, f)
  {
    forall k | i < k <= i + n ensures Keeps(ModelCounts(qs), k, f) && Keeps(NodeCounts(qs), k, f) {
      assert GuardedAt(qs, k);
      ModelsKeep(qs, k, f);
      NodesKeep(qs, k, f);
    }
  }

  /** At least (1 - f)^n of the count at `i` is left `n` commits later. */
  ghost predicate Compounded(c: seq<nat>, i: nat, n: nat, f: real)
    requires i + n < |c|
  {
    c[i + n] as real >= Power(1.0 - f, n) * c[i] as real
  }

  /** Along any stretch of commits without an override and with drop fraction at most f,
      both counts keep at least (1 - f)^n of where they started. */
  lemma GradualDrops(qs: seq<Request>, i: nat, n: nat, f: real)
    requires Guarded(qs) && CheckedStretch(qs, i, n, f) && 0.0 <= f <= 1.0
    ensures Compounded(ModelCounts(qs), i, n, f) && Compounded(NodeCounts(qs), i, n, f)
  {
    StretchKeeps(qs, i, n, f);
    CountsKeep(ModelCounts(qs), i, n, f);
    CountsKeep(NodeCounts(qs), i, n, f);
  }

  lemma KeptPositive(previous: nat, now: nat, f: real)
    requires f < 1.0 && previous > 0 && Kept(previous, now, f)
    ensures now > 0
  {
    Scale(0.0, 1.0 - f, previous as real);
  }

  lemma {:induction false} CountsStayPositive(c: seq<nat>, i: nat, n: nat, f: real)
    requires i + n < |c| && f < 1.0 && c[i] > 0 && AllKeep(c, i, n, f)
    ensures c[i + n] > 0
    decreases n
  {
    if n > 0 {
      CountsStayPositive(c, i, n - 1, f);
      assert Keeps(c, i + n, f);
      KeptPositive(c[i + n - 1], c[i + n], f);
    }
  }

  /** For f below 1, a positive fleet never drops to nothing by checked commits. */
  lemma GradualDropsNeverReachZero(qs: seq<Request>, i: nat, n: nat, f: real)
    requires Guarded(qs) && CheckedStretch(qs, i, n, f) && 0.0 <= f < 1.0
    ensures ModelCounts(qs)[i] > 0 ==> ModelCounts(qs)[i + n] > 0
    ensures NodeCounts(qs)[i] > 0 ==> NodeCounts(qs)[i + n] > 0
  {
    var models, nodes := ModelCounts(qs), NodeCounts(qs);
    StretchKeeps(qs, i, n, f);
    if models[i] > 0 { CountsStayPositive(models, i, n, f); }
    if nodes[i] > 0 { CountsStayPositive(nodes, i, n, f); }
  }

  /** Every history from an empty start is guarded, so the two bounds hold of it. */
  lemma EveryHistoryIsGuarded(events: seq<Event>)
    ensures Guarded(History(EMPTY_WORLD, events).requests)
  {
    HistoryGuarded(EMPTY_WORLD, events);
  }

  // ---------------------------------------------------------------- assignments

  /** Nodes without a name have no rows to begin with. */
  lemma {:induction false} NamedRows(nodes: seq<NodeInfo>)
    ensures AuthoritativeRows(Named(nodes)) == AuthoritativeRows(nodes)
    ensures forall n :: n in Named(nodes) ==> n.name != ""
  {
    if nodes != [] {
      NamedRows(nodes[1..]);
      if nodes[0].name != "" {
        assert Named(nodes) == [nodes[0]] + Named(nodes[1..]);
        assert Named(nodes)[1..] == Named(nodes[1..]);
      } else {
        assert Named(nodes) == Named(nodes[1..]);
        assert AuthoritativeRows(nodes) == AuthoritativeRows(nodes[1..]);
      }
    }
  }

  lemma {:induction false} RowNodesAreNamed(nodes: seq<NodeInfo>, k: ModelKey)
    requires k in AuthoritativeRows(nodes)
    ensures exists n :: n in nodes && n.name == k.0
  {
    var head := if nodes[0].name != "" && Eligible(nodes[0])
                then NodeRows(nodes[0], SortedSet(nodes[0].loadedModels)) else [];
    if k in head {
      NodeRowsName(nodes[0], SortedSet(nodes[0].loadedModels), k);
      assert nodes[0] in nodes;
    } else {
      RowNodesAreNamed(nodes[1..], k);
      var n :| n in nodes[1..] && n.name == k.0;
      assert n in nodes;
    }
  }

  lemma {:induction false} NodeRowsName(n: NodeInfo, models: seq<string>, k: ModelKey)
    requires k in NodeRows(n, models)
    ensures k.0 == n.name
  {
    if k != (n.name, models[0]) { NodeRowsName(n, models[1..], k); }
  }

  /** The plans of a request were made for its nodes, each with the scores of its own profile. */
  ghost predicate Planned(q: Request, scoring: nat -> Scoring) {
    forall i :: 0 <= i < |q.plans| ==> PlannedAt(q, i, scoring(i))
  }

  ghost predicate PlannedAt(q: Request, i: nat, scoring: Scoring)
    requires i < |q.plans|
  {
    q.plans[i].1 == PlanLoadout(q.plans[i].0, q.nodes, scoring)
  }

  lemma AssignmentIsRow(q: Request, scoring: nat -> Scoring, a: Assignment)
    requires Planned(q, scoring) && a in AssignmentRows(q)
    ensures a.snapshot == q.id && (a.key.0 != "" ==> a.key in ModelRows(q))
  {
    var i, s :| 0 <= i < |q.plans| && 1 <= s <= 3 && SlotOf(q.plans[i].1, s).Some?
                && a == Assignment(q.id, q.plans[i].0, s, Pair(SlotOf(q.plans[i].1, s).value));
    assert PlannedAt(q, i, scoring(i));
    PlanMatchesRows(q.plans[i].0, q.nodes, scoring(i));
    assert Picked(q.plans[i].1, SlotOf(q.plans[i].1, s).value);
    NamedRows(q.nodes);
  }

  /** Assignments belong to committed snapshots; an edge leads from an assignment to a row that
      is there. */
  ghost predicate Attached(g: Graph) {
    && (forall a :: a in g.assignments ==> HasId(g.snapshots, a.snapshot))
    && (forall a :: a in g.usesNode ==> a in g.assignments && a.key.0 in g.nodeState)
    && (forall a :: a in g.usesModel ==> a in g.assignments && a.key in g.modelState)
    && g.usesObserved <= g.assignments
  }

  /** All four edges of an assignment, or none of them. */
  predicate HasEdges(g: Graph, a: Assignment) { a in g.usesNode && a in g.usesModel && a in g.usesObserved }

  predicate HasNoEdge(g: Graph, a: Assignment) { a !in g.usesNode && a !in g.usesModel && a !in g.usesObserved }

  /** When the plans were made for the nodes of the same request, a committed assignment is
      stored, and gets all its edges if its node has a name and none of them otherwise. */
  lemma AssignmentIsLinkedIffNamed(g: Graph, q: Request, scoring: nat -> Scoring, a: Assignment)
    requires Observed(g) && Attached(g) && Fresh(g, q.id) && Planned(q, scoring) && a in AssignmentRows(q)
    ensures var n := AfterCommit(g, q);
            a in n.assignments && if a.key.0 != "" then HasEdges(n, a) else HasNoEdge(n, a)
  {
    AssignmentIsRow(q, scoring, a);
    if a.key.0 != "" {
      RowIsFound(g, q, a);
    } else {
      NamelessIsLost(g, q, a);
    }
  }

  lemma {:induction false} RowIsFound(g: Graph, q: Request, a: Assignment)
    requires a in AssignmentRows(q) && a.snapshot == q.id && a.key in ModelRows(q)
    ensures HasEdges(AfterCommit(g, q), a)
  {
    RowNodesAreNamed(Named(q.nodes), a.key);
    assert a.key in ModelKeys(q) && a.key.0 in NodeNames(q);
    var locked := g.(lockVersion := g.lockVersion + 1);
    assert a in Found(Merged(locked, q), q);
  }

  /** An assignment on a node without a name is stored and never linked. */
  lemma NamelessIsLost(g: Graph, q: Request, a: Assignment)
    requires Observed(g) && Attached(g) && Fresh(g, q.id)
    requires a in AssignmentRows(q) && a.snapshot == q.id && a.key.0 == ""
    ensures a in AfterCommit(g, q).assignments && HasNoEdge(AfterCommit(g, q), a)
  {
    NamedRows(q.nodes);
    assert "" !in NodeNames(q);
    assert (q.id, "") !in g.nodeObservations;
    assert a !in g.assignments;
  }

  // ---------------------------------------------------------------- assignments over histories

  /** Every assignment ever stored keeps its edges to observations, and those of the newest
      snapshot their edges to the topology, exactly when their node has a name. */
  ghost predicate EdgesFollow(g: Graph) {
    && (forall a :: a in g.assignments ==> (a in g.usesObserved <==> a.key.0 != ""))
    && (g.snapshots != [] ==>
          forall a :: a in g.assignments && a.snapshot == g.snapshots[|g.snapshots| - 1].id ==>
            if a.key.0 != "" then HasEdges(g, a) else HasNoEdge(g, a))
  }

  lemma CommitAttached(g: Graph, q: Request, scoring: nat -> Scoring)
    requires Attached(g) && Planned(q, scoring)
    ensures Attached(AfterCommit(g, q))
  {
    var n := AfterCommit(g, q);
    forall id | HasId(g.snapshots, id) ensures HasId(n.snapshots, id) { SameIds(g.snapshots, n.snapshots, id); }
    assert n.snapshots[|g.snapshots|] in n.snapshots && n.snapshots[|g.snapshots|].id == q.id;
    forall a | a in AssignmentRows(q) ensures a.snapshot == q.id { AssignmentIsRow(q, scoring, a); }
  }

  lemma CommitFollows(g: Graph, q: Request, scoring: nat -> Scoring)
    requires Observed(g) && Attached(g) && EdgesFollow(g) && Fresh(g, q.id) && Planned(q, scoring)
    ensures EdgesFollow(AfterCommit(g, q))
  {
    var n := AfterCommit(g, q);
    forall a | a in AssignmentRows(q) ensures if a.key.0 != "" then HasEdges(n, a) else HasNoEdge(n, a) {
      AssignmentIsLinkedIffNamed(g, q, scoring, a);
    }
    forall a | a in g.assignments ensures a.snapshot != q.id {
      assert HasId(g.snapshots, a.snapshot);
    }
  }

  lemma SameEdges(g: Graph, n: Graph)
    requires Attached(g) && EdgesFollow(g)
    requires |n.snapshots| == |g.snapshots|
    requires forall i :: 0 <= i < |g.snapshots| ==> n.snapshots[i].id == g.snapshots[i].id
    requires n == g.(publisher := n.publisher, snapshots := n.snapshots)
    ensures Attached(n) && EdgesFollow(n)
  {
    forall id | HasId(g.snapshots, id) ensures HasId(n.snapshots, id) { SameIds(g.snapshots, n.snapshots, id); }
  }

  /** The scores of each profile in each request of a run. */
  type Scores = (Id, nat) -> Scoring

  function ScoresOf(scores: Scores, id: Id): nat -> Scoring { i => scores(id, i) }

  ghost predicate PlannedEvent(e: Event, scores: Scores) {
    e.Reconcile? ==> Planned(e.request, ScoresOf(scores, e.request.id))
  }

  lemma HappenFollows(w: World, e: Event, scores: Scores)
    requires Sound(w) && Attached(w.graph) && EdgesFollow(w.graph) && PlannedEvent(e, scores)
    ensures Attached(Happen(w, e).graph) && EdgesFollow(Happen(w, e).graph)
  {
    match e
    case Reconcile(q) =>
      if Fresh(w.graph, q.id) && Refused(w.graph, q).None? {
        CommitAttached(w.graph, q, ScoresOf(scores, q.id));
        CommitFollows(w.graph, q, ScoresOf(scores, q.id));
      }
    case Publisher(id, version, commits) =>
      PublishKeeps(w.graph, id, version, commits);
      SameEdges(w.graph, AfterPublish(w.graph, id, version, commits));
  }

  lemma {:induction false} HistoryFollows(w: World, events: seq<Event>, scores: Scores)
    requires Sound(w) && Attached(w.graph) && EdgesFollow(w.graph)
    requires forall e :: e in events ==> PlannedEvent(e, scores)
    ensures Attached(History(w, events).graph) && EdgesFollow(History(w, events).graph)
    decreases |events|
  {
    if events != [] {
      assert events[0] in events;
      HappenSound(w, events[0]);
      HappenFollows(w, events[0], scores);
      HistoryFollows(Happen(w, events[0]), events[1..], scores);
    }
  }

  /** In every run of reconcilers and publishers whose requests carry plans made for their own
      nodes, under any scores for each profile of each request: no edge dangles, assignments of
      the current snapshot have all their edges exactly when their node has a name, and named
      assignments of all snapshots keep their observations. */
  lemma EveryHistoryKeepsAssignments(events: seq<Event>, scores: Scores)
    requires forall e :: e in events ==> PlannedEvent(e, scores)
    ensures Attached(History(EMPTY_WORLD, events).graph) && EdgesFollow(History(EMPTY_WORLD, events).graph)
  {
    HistoryFollows(EMPTY_WORLD, events, scores);
  }
}
