/** The loadout planner: which node and model serve a task profile as primary, reviewer
    and fallback.  The scoring heuristics are a parameter, so every result holds for any
    scores; what is modelled is who may be chosen and in which order. */
module FleetPlanner {
  import opened Prelude
  import Sorting
  import Text

  datatype NodeInfo = NodeInfo(
    name: string,
    online: bool,
    authoritative: bool,
    loadedModels: seq<string>,
    latency: real)

  datatype Candidate = Candidate(
    node: string,
    model: string,
    role: string,
    score: real,
    successRate: real,
    failureRate: real,
    latency: real)

  datatype Score = Score(score: real, role: string, successRate: real, failureRate: real)

  /** What `base_node_score` and `model_role_score` say about a model on a node. */
  type Scoring = (NodeInfo, string) -> Score

  datatype Plan = Plan(primary: Option<Candidate>, reviewer: Option<Candidate>, fallback: Option<Candidate>)

  function Pair(c: Candidate): (string, string) { (c.node, c.model) }

  // ---------------------------------------------------------------- candidates

  /** Only online nodes with an authoritative inventory may be routed to. */
  predicate Eligible(n: NodeInfo) { n.online && n.authoritative }

  function Distinct(s: seq<string>): (r: seq<string>)
    ensures forall x :: x in r <==> x in s
    ensures forall i, j :: 0 <= i < j < |r| ==> r[i] != r[j]
  {
    if s == [] then []
    else
      var r := Distinct(s[1..]);
      if s[0] in r then r else [s[0]] + r
  }

  /** `sorted(set(models))`. */
  function SortedSet(s: seq<string>): seq<string> {
    Sorting.Sort(Distinct(s), (a, b) => Text.AtLeast(b, a))
  }

  function MakeCandidate(n: NodeInfo, m: string, scoring: Scoring): Candidate {
    var sc := scoring(n, m);
    Candidate(n.name, m, sc.role, sc.score, sc.successRate, sc.failureRate, n.latency)
  }

  function OnNode(n: NodeInfo, models: seq<string>, scoring: Scoring): seq<Candidate> {
    if models == [] then [] else [MakeCandidate(n, models[0], scoring)] + OnNode(n, models[1..], scoring)
  }

  function Collected(nodes: seq<NodeInfo>, scoring: Scoring): seq<Candidate> {
    if nodes == [] then []
    else
      (if Eligible(nodes[0]) then OnNode(nodes[0], SortedSet(nodes[0].loadedModels), scoring) else [])
      + Collected(nodes[1..], scoring)
  }

  /** The tuple comparison of the sort key. */
  predicate KeyGeq(a: Candidate, b: Candidate) {
    a.score > b.score
    || (a.score == b.score
        && (a.successRate > b.successRate
            || (a.successRate == b.successRate
                && (a.failureRate < b.failureRate
                    || (a.failureRate == b.failureRate && a.latency <= b.latency)))))
  }

  function Candidates(nodes: seq<NodeInfo>, scoring: Scoring): seq<Candidate> {
    Sorting.Sort(Collected(nodes, scoring), KeyGeq)
  }

  lemma {:induction false} OnNodeSplit(n: NodeInfo, a: seq<string>, b: seq<string>, scoring: Scoring)
    ensures OnNode(n, a + b, scoring) == OnNode(n, a, scoring) + OnNode(n, b, scoring)
  {
    if a == [] {
      assert a + b == b;
    } else {
      assert (a + b)[1..] == a[1..] + b;
      OnNodeSplit(n, a[1..], b, scoring);
    }
  }

  lemma {:induction false} CollectedSplit(a: seq<NodeInfo>, b: seq<NodeInfo>, scoring: Scoring)
    ensures Collected(a + b, scoring) == Collected(a, scoring) + Collected(b, scoring)
  {
    if a == [] {
      assert a + b == b;
    } else {
      assert (a + b)[1..] == a[1..] + b;
      CollectedSplit(a[1..], b, scoring);
    }
  }

  /** The inner loop: one candidate for each distinct loaded model, in name order. */
  method AppendNode(before: seq<Candidate>, node: NodeInfo, scoring: Scoring)
    returns (candidates: seq<Candidate>)
    ensures candidates == before + OnNode(node, SortedSet(node.loadedModels), scoring)
  {
    candidates := before;
    var models := SortedSet(node.loadedModels);
    for j := 0 to |models|
      invariant candidates == before + OnNode(node, models[..j], scoring)
    {
      assert models[..j + 1] == models[..j] + [models[j]];
      OnNodeSplit(node, models[..j], [models[j]], scoring);
      candidates := candidates + [MakeCandidate(node, models[j], scoring)];
    }
    assert models[..|models|] == models;
  }

  /** Appends candidates node by node, then sorts. */
  method BuildCandidates(nodes: seq<NodeInfo>, scoring: Scoring) returns (candidates: seq<Candidate>)
    ensures candidates == Candidates(nodes, scoring)
  {
    candidates := [];
    for i := 0 to |nodes|
      invariant candidates == Collected(nodes[..i], scoring)
    {
      assert nodes[..i + 1] == nodes[..i] + [nodes[i]];
      CollectedSplit(nodes[..i], [nodes[i]], scoring);
      if !nodes[i].online || !nodes[i].authoritative { continue; }
      candidates := AppendNode(candidates, nodes[i], scoring);
    }
    assert nodes[..|nodes|] == nodes;
    candidates := Sorting.Sort(candidates, KeyGeq);
  }

  // ---------------------------------------------------------------- authoritative rows

  function NodeRows(n: NodeInfo, models: seq<string>): seq<(string, string)> {
    if models == [] then [] else [(n.name, models[0])] + NodeRows(n, models[1..])
  }

  /** The (node, model) rows that a snapshot persists. */
  function AuthoritativeRows(nodes: seq<NodeInfo>): seq<(string, string)> {
    if nodes == [] then []
    else
      (if nodes[0].name != "" && Eligible(nodes[0])
       then NodeRows(nodes[0], SortedSet(nodes[0].loadedModels)) else [])
      + AuthoritativeRows(nodes[1..])
  }

  lemma {:induction false} OnNodeMember(n: NodeInfo, models: seq<string>, scoring: Scoring, c: Candidate)
    requires c in OnNode(n, models, scoring)
    ensures c.node == n.name && c.model in models && Pair(c) in NodeRows(n, models)
  {
    if c != MakeCandidate(n, models[0], scoring) { OnNodeMember(n, models[1..], scoring, c); }
  }

  /** Both lists are drawn from the same inventory: every candidate on a named node is a
      persisted row. */
  lemma {:induction false} CandidateIsRow(nodes: seq<NodeInfo>, scoring: Scoring, c: Candidate)
    requires c in Collected(nodes, scoring) && c.node != ""
    ensures Pair(c) in AuthoritativeRows(nodes)
  {
    var head := if Eligible(nodes[0]) then OnNode(nodes[0], SortedSet(nodes[0].loadedModels), scoring) else [];
    if c in head {
      OnNodeMember(nodes[0], SortedSet(nodes[0].loadedModels), scoring, c);
    } else {
      CandidateIsRow(nodes[1..], scoring, c);
    }
  }

  // ---------------------------------------------------------------- picking

  predicate Allowed(c: Candidate, exclude: set<(string, string)>, excludeNodes: set<string>,
                    role: Option<string>)
  {
    (role.Some? ==> c.role == role.value) && c.node !in excludeNodes && Pair(c) !in exclude
  }

  /** The first allowed candidate. */
  function Pick(cs: seq<Candidate>, exclude: set<(string, string)>, excludeNodes: set<string>,
                role: Option<string>): (r: Option<Candidate>)
    ensures r.None? <==> forall c :: c in cs ==> !Allowed(c, exclude, excludeNodes, role)
    ensures r.Some? ==> r.value in cs && Allowed(r.value, exclude, excludeNodes, role)
  {
    if cs == [] then None
    else if Allowed(cs[0], exclude, excludeNodes, role) then Some(cs[0])
    else
      assert forall c :: c in cs ==> c == cs[0] || c in cs[1..];
      Pick(cs[1..], exclude, excludeNodes, role)
  }

  /** The search loop stops at the first candidate it may take. */
  method PickBest(cs: seq<Candidate>, exclude: set<(string, string)>, excludeNodes: set<string>,
                  role: Option<string>) returns (r: Option<Candidate>)
    ensures r == Pick(cs, exclude, excludeNodes, role)
  {
    for i := 0 to |cs|
      invariant Pick(cs, exclude, excludeNodes, role) == Pick(cs[i..], exclude, excludeNodes, role)
    {
      assert cs[i..][1..] == cs[i + 1..];
      if role.Some? && cs[i].role != role.value { continue; }
      if cs[i].node in excludeNodes { continue; }
      if Pair(cs[i]) in exclude { continue; }
      return Some(cs[i]);
    }
    return None;
  }

  function Chosen(selected: seq<Option<Candidate>>): set<Candidate> {
    if selected == [] then {}
    else (if selected[0].Some? then {selected[0].value} else {}) + Chosen(selected[1..])
  }

  function OrElse(a: Option<Candidate>, b: Option<Candidate>): Option<Candidate> {
    if a.Some? then a else b
  }

  /** Prefers another node; shares one only when there is no alternative. */
  function PickResilient(cs: seq<Candidate>, selected: seq<Option<Candidate>>, role: Option<string>)
    : Option<Candidate>
  {
    var chosen := Chosen(selected);
    var pairs := set c | c in chosen :: Pair(c);
    var nodes := set c | c in chosen :: c.node;
    OrElse(Pick(cs, pairs, nodes, role), Pick(cs, pairs, {}, role))
  }

  const WORKER_FIRST: set<string> :=
    {"coding_review_strict", "coding_high_throughput", "summary_extraction"}

  const REVIEWED: set<string> :=
    {"coding_review_strict", "coding_high_throughput", "long_context_reasoning",
     "planning_strategy", "summary_extraction"}

  function Primary(profile: string, cs: seq<Candidate>): Option<Candidate> {
    if profile in WORKER_FIRST
    then OrElse(Pick(cs, {}, {}, Some("worker")), Pick(cs, {}, {}, None))
    else Pick(cs, {}, {}, None)
  }

  function PlanLoadout(profile: string, nodes: seq<NodeInfo>, scoring: Scoring): Plan {
    var cs := Candidates(nodes, scoring);
    var primary := Primary(profile, cs);
    var reviewer :=
      if profile in REVIEWED then PickResilient(cs, [primary], Some("reviewer")) else None;
    Plan(primary, reviewer, PickResilient(cs, [primary, reviewer], None))
  }

  // ---------------------------------------------------------------- what the picks mean

  lemma KeyOrder()
    ensures Sorting.TotalPreorder(KeyGeq)
  {
  }

  /** Among candidates in descending order the first allowed one has the best key. */
  lemma {:induction false} PickIsBest(cs: seq<Candidate>, exclude: set<(string, string)>,
                                      excludeNodes: set<string>, role: Option<string>, d: Candidate)
    requires Sorting.Descending(cs, KeyGeq)
    requires d in cs && Allowed(d, exclude, excludeNodes, role)
    ensures var r := Pick(cs, exclude, excludeNodes, role); r.Some? && KeyGeq(r.value, d)
  {
    if Allowed(cs[0], exclude, excludeNodes, role) {
      var i :| 0 <= i < |cs| && cs[i] == d;
      assert i > 0 ==> KeyGeq(cs[0], cs[i]);
    } else {
      PickIsBest(cs[1..], exclude, excludeNodes, role, d);
    }
  }

  /** `c` may follow the picks in `chosen`: its role fits and its pair is not taken. */
  predicate MayFollow(c: Candidate, chosen: set<Candidate>, role: Option<string>) {
    (role.Some? ==> c.role == role.value) && forall s :: s in chosen ==> Pair(s) != Pair(c)
  }

  predicate Apart(c: Candidate, chosen: set<Candidate>) {
    forall s :: s in chosen ==> s.node != c.node
  }

  /** What a pick that follows `chosen` promises: it exists whenever some candidate may
      follow; it has the best key among those on other nodes, and it shares a node with an
      earlier pick only if every candidate that may follow does, in which case it has the
      best key of all of them. */
  ghost predicate Resilient(cs: seq<Candidate>, chosen: set<Candidate>, role: Option<string>,
                            r: Option<Candidate>)
  {
    && (r.None? <==> forall d :: d in cs ==> !MayFollow(d, chosen, role))
    && (r.Some? ==>
          && r.value in cs && MayFollow(r.value, chosen, role)
          && (Apart(r.value, chosen) ==>
                forall d :: d in cs && MayFollow(d, chosen, role) && Apart(d, chosen) ==> KeyGeq(r.value, d))
          && (!Apart(r.value, chosen) ==>
                forall d :: d in cs && MayFollow(d, chosen, role) ==> !Apart(d, chosen) && KeyGeq(r.value, d)))
  }

  lemma AllowedMeans(c: Candidate, chosen: set<Candidate>, role: Option<string>)
    ensures Allowed(c, (set s | s in chosen :: Pair(s)), {}, role) <==> MayFollow(c, chosen, role)
    ensures Allowed(c, (set s | s in chosen :: Pair(s)), (set s | s in chosen :: s.node), role)
            <==> MayFollow(c, chosen, role) && Apart(c, chosen)
  {
  }

  lemma PickResilientIs(cs: seq<Candidate>, selected: seq<Option<Candidate>>, role: Option<string>)
    requires Sorting.Descending(cs, KeyGeq)
    ensures Resilient(cs, Chosen(selected), role, PickResilient(cs, selected, role))
  {
    var chosen := Chosen(selected);
    var pairs := set c | c in chosen :: Pair(c);
    var nodes := set c | c in chosen :: c.node;
    forall d | d in cs
      ensures Allowed(d, pairs, {}, role) <==> MayFollow(d, chosen, role)
      ensures Allowed(d, pairs, nodes, role) <==> MayFollow(d, chosen, role) && Apart(d, chosen)
      ensures Allowed(d, pairs, {}, role) ==> KeyGeq(Pick(cs, pairs, {}, role).value, d)
      ensures Allowed(d, pairs, nodes, role) ==> KeyGeq(Pick(cs, pairs, nodes, role).value, d)
    {
      AllowedMeans(d, chosen, role);
      if Allowed(d, pairs, {}, role) { PickIsBest(cs, pairs, {}, role, d); }
      if Allowed(d, pairs, nodes, role) { PickIsBest(cs, pairs, nodes, role, d); }
    }
  }

  lemma CandidatesDescend(nodes: seq<NodeInfo>, scoring: Scoring)
    ensures Sorting.Descending(Candidates(nodes, scoring), KeyGeq)
    ensures forall c :: c in Candidates(nodes, scoring) <==> c in Collected(nodes, scoring)
  {
    KeyOrder();
    Sorting.SortDescends(Collected(nodes, scoring), KeyGeq);
    Sorting.SortKeeps(Collected(nodes, scoring), KeyGeq);
  }

  ghost predicate BestOverall(cs: seq<Candidate>, r: Option<Candidate>) {
    && (r.None? <==> cs == [])
    && (r.Some? ==> r.value in cs && forall d :: d in cs ==> KeyGeq(r.value, d))
  }

  ghost predicate BestWorkerFirst(cs: seq<Candidate>, r: Option<Candidate>) {
    if exists d :: d in cs && d.role == "worker" then
      r.Some? && r.value in cs && r.value.role == "worker"
      && forall d :: d in cs && d.role == "worker" ==> KeyGeq(r.value, d)
    else BestOverall(cs, r)
  }

  lemma PickFirst(cs: seq<Candidate>, role: Option<string>)
    requires Sorting.Descending(cs, KeyGeq)
    ensures var r := Pick(cs, {}, {}, role);
            forall d :: d in cs && (role.Some? ==> d.role == role.value) ==> r.Some? && KeyGeq(r.value, d)
  {
    forall d | d in cs && (role.Some? ==> d.role == role.value)
      ensures var r := Pick(cs, {}, {}, role); r.Some? && KeyGeq(r.value, d)
    {
      PickIsBest(cs, {}, {}, role, d);
    }
  }

  lemma PrimaryIsBest(profile: string, cs: seq<Candidate>)
    requires Sorting.Descending(cs, KeyGeq)
    ensures if profile in WORKER_FIRST then BestWorkerFirst(cs, Primary(profile, cs))
            else BestOverall(cs, Primary(profile, cs))
  {
    PickFirst(cs, Some("worker"));
    PickFirst(cs, None);
    assert cs != [] ==> cs[0] in cs;
  }

  /** Each pick of a plan is the best of those it may be taken from. */
  lemma PlanPicksTheBest(profile: string, nodes: seq<NodeInfo>, scoring: Scoring)
    ensures var cs := Candidates(nodes, scoring);
            var p := PlanLoadout(profile, nodes, scoring);
            && (if profile in WORKER_FIRST then BestWorkerFirst(cs, p.primary) else BestOverall(cs, p.primary))
            && (if profile in REVIEWED
                then Resilient(cs, Chosen([p.primary]), Some("reviewer"), p.reviewer)
                else p.reviewer == None)
            && Resilient(cs, Chosen([p.primary, p.reviewer]), None, p.fallback)
  {
    var cs := Candidates(nodes, scoring);
    var p := PlanLoadout(profile, nodes, scoring);
    CandidatesDescend(nodes, scoring);
    PrimaryIsBest(profile, cs);
    PickResilientIs(cs, [p.primary], Some("reviewer"));
    PickResilientIs(cs, [p.primary, p.reviewer], None);
  }

  lemma ChosenMembers(a: Option<Candidate>, b: Option<Candidate>)
    ensures forall c :: c in Chosen([a]) <==> a == Some(c)
    ensures forall c :: c in Chosen([a, b]) <==> a == Some(c) || b == Some(c)
  {
    assert [a][1..] == [] && [a, b][1..] == [b] && [b][1..] == [];
  }

  ghost predicate Picked(p: Plan, c: Candidate) {
    p.primary == Some(c) || p.reviewer == Some(c) || p.fallback == Some(c)
  }

  predicate DifferentPairs(a: Option<Candidate>, b: Option<Candidate>) {
    a.Some? && b.Some? ==> Pair(a.value) != Pair(b.value)
  }

  lemma PlanIsDistinct(profile: string, nodes: seq<NodeInfo>, scoring: Scoring)
    ensures var p := PlanLoadout(profile, nodes, scoring);
            && DifferentPairs(p.primary, p.reviewer)
            && DifferentPairs(p.primary, p.fallback)
            && DifferentPairs(p.reviewer, p.fallback)
            && (p.primary.None? ==> p.reviewer.None? && p.fallback.None?)
            && (forall c :: Picked(p, c) ==> c in Candidates(nodes, scoring))
  {
    var p := PlanLoadout(profile, nodes, scoring);
    PlanPicksTheBest(profile, nodes, scoring);
    ChosenMembers(p.primary, p.reviewer);
  }

  /** The picks of a plan are pairwise distinct (node, model) pairs, and each of them on a
      named node is a row of the snapshot that is persisted with the plan. */
  lemma PlanMatchesRows(profile: string, nodes: seq<NodeInfo>, scoring: Scoring)
    ensures var p := PlanLoadout(profile, nodes, scoring);
            && DifferentPairs(p.primary, p.reviewer)
            && DifferentPairs(p.primary, p.fallback)
            && DifferentPairs(p.reviewer, p.fallback)
            && (p.primary.None? ==> p.reviewer.None? && p.fallback.None?)
            && (forall c :: Picked(p, c) && c.node != "" ==> Pair(c) in AuthoritativeRows(nodes))
  {
    var p := PlanLoadout(profile, nodes, scoring);
    PlanIsDistinct(profile, nodes, scoring);
    CandidatesDescend(nodes, scoring);
    forall c | c in Collected(nodes, scoring) && c.node != "" ensures Pair(c) in AuthoritativeRows(nodes) {
      CandidateIsRow(nodes, scoring, c);
    }
  }

  /** A node without a name, with one model loaded, is planned for all the same. */
  lemma NamelessNodeIsPlanned(scoring: Scoring)
    ensures var nodes := [NodeInfo("", true, true, ["m"], 0.0)];
            var p := PlanLoadout("x", nodes, scoring);
            && p.primary.Some? && Pair(p.primary.value) == ("", "m")
            && AuthoritativeRows(nodes) == []
  {
    var nodes := [NodeInfo("", true, true, ["m"], 0.0)];
    assert Distinct(["m"]) == ["m"] && SortedSet(["m"]) == ["m"];
    var c := MakeCandidate(nodes[0], "m", scoring);
    assert OnNode(nodes[0], ["m"], scoring) == [c];
    assert Collected(nodes, scoring) == [c];
    assert Sorting.Sort([c], KeyGeq) == [c];
    assert Pick([c], {}, {}, None) == Some(c);
  }
}
