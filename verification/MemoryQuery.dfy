/** Retrieval from the memory store: filter, score, rank, cut to a limit, render to a budget,
    and account for every row.

    The score of a record, its age test and its line of context are parameters. */
module MemoryQuery {
  import opened Prelude
  import opened MemoryEvents
  import Sorting
  import Text

  datatype Query = Query(
    repository: Option<string>,
    taskId: Option<string>,
    kinds: seq<Kind>,
    limit: nat,
    budgetTokens: nat,
    minScore: real,
    allowCrossRepository: bool)

  datatype Match = Match(record: Record, score: real, reasons: seq<string>)

  datatype Verdict = TooOld | BelowMinimum | OverLimit | Chosen

  datatype Trace = Trace(memoryId: string, score: real, verdict: Verdict, reasons: seq<string>, tokens: nat)

  /** How a query sees a record, and the heading of its text. */
  datatype Lens = Lens(
    score: Record -> (real, seq<string>), tooOld: Record -> bool, line: Record -> string, heading: string)

  datatype Context = Context(matches: seq<Match>, text: string, tokens: nat, trace: seq<Trace>)

  /** The WHERE clause, on the filter columns. */
  predicate Wanted(m: Memory, q: Query) {
    && m.active
    && (Given(q.repository) && !q.allowCrossRepository ==> m.repository == q.repository)
    && (Given(q.taskId) ==> m.taskId == q.taskId)
    && (q.kinds != [] ==> m.kind in q.kinds)
  }

  /** The records selected, in the order the table is read. */
  function Fetched(memories: map<string, Memory>, order: seq<string>, q: Query): seq<Record> {
    if order == [] then []
    else
      var n := |order| - 1;
      Fetched(memories, order[..n], q)
      + if order[n] in memories && Wanted(memories[order[n]], q) then [memories[order[n]].payload] else []
  }

  function AsMatch(r: Record, lens: Lens): Match { Match(r, lens.score(r).0, lens.score(r).1) }

  /** A record of the table as a candidate, if it is one. */
  function Admitted(r: Record, q: Query, lens: Lens): seq<Match> {
    if !lens.tooOld(r) && lens.score(r).0 >= q.minScore then [AsMatch(r, lens)] else []
  }

  /** The entry of a record that is no candidate. */
  function Refused(r: Record, q: Query, lens: Lens): seq<Trace> {
    if lens.tooOld(r) then [Trace(r.memoryId, 0.0, TooOld, [], 0)]
    else if lens.score(r).0 >= q.minScore then []
    else [Trace(r.memoryId, lens.score(r).0, BelowMinimum, lens.score(r).1, 0)]
  }

  function Candidates(rows: seq<Record>, q: Query, lens: Lens): seq<Match> {
    if rows == [] then [] else Candidates(rows[..|rows| - 1], q, lens) + Admitted(rows[|rows| - 1], q, lens)
  }

  function Excluded(rows: seq<Record>, q: Query, lens: Lens): seq<Trace> {
    if rows == [] then [] else Excluded(rows[..|rows| - 1], q, lens) + Refused(rows[|rows| - 1], q, lens)
  }

  /** The sort key: score, then reuses, then creation time. */
  predicate Better(a: Match, b: Match) {
    || a.score > b.score
    || (a.score == b.score
        && (a.record.successfulReuses > b.record.successfulReuses
            || (a.record.successfulReuses == b.record.successfulReuses
                && Text.AtLeast(a.record.createdAt, b.record.createdAt))))
  }

  function Ranked(rows: seq<Record>, q: Query, lens: Lens): seq<Match> {
    Sorting.Sort(Candidates(rows, q, lens), Better)
  }

  function Cut(ranked: seq<Match>, limit: nat): seq<Match> {
    if limit <= |ranked| then ranked[..limit] else ranked
  }

  function Rest(ranked: seq<Match>, limit: nat): seq<Match> {
    if limit <= |ranked| then ranked[limit..] else []
  }

  function Beyond(m: Match): Trace { Trace(m.record.memoryId, m.score, OverLimit, m.reasons, 0) }

  function Join(lines: seq<string>): string {
    if |lines| == 0 then ""
    else if |lines| == 1 then lines[0]
    else Join(lines[..|lines| - 1]) + "\n" + lines[|lines| - 1]
  }

  function Lines(matches: seq<Match>, lens: Lens): (lines: seq<string>)
    ensures |lines| == |matches| + 1
  {
    [lens.heading] + seq(|matches|, i requires 0 <= i < |matches| => lens.line(matches[i].record))
  }

  /** Whether the heading and the first `k` matches fit the budget. */
  predicate Fits(matches: seq<Match>, lens: Lens, budget: nat, k: nat)
    requires k <= |matches|
  {
    |Prefix(matches, lens, k)| <= 4 * budget
  }

  /** The text of the heading and the first `k` matches. */
  function Prefix(matches: seq<Match>, lens: Lens, k: nat): string
    requires k <= |matches|
  {
    Join(Lines(matches[..k], lens))
  }

  function Estimate(text: string): nat { (|text| + 3) / 4 }

  /** How many matches are rendered, when the first `j` fit: up to the first that does not. */
  function ShownFrom(matches: seq<Match>, lens: Lens, budget: nat, j: nat): (k: nat)
    requires j <= |matches|
    ensures j <= k <= |matches|
    decreases |matches| - j
  {
    if j == |matches| || !Fits(matches, lens, budget, j + 1) then j else ShownFrom(matches, lens, budget, j + 1)
  }

  function Shown(matches: seq<Match>, lens: Lens, budget: nat): nat { ShownFrom(matches, lens, budget, 0) }

  /** The text of a context: nothing at all when no match fits. */
  function ContextText(matches: seq<Match>, lens: Lens, budget: nat): string {
    if Shown(matches, lens, budget) > 0 then Prefix(matches, lens, Shown(matches, lens, budget)) else ""
  }

  lemma LinesGrow(matches: seq<Match>, lens: Lens, k: nat)
    requires k < |matches|
    ensures Lines(matches[..k + 1], lens) == Lines(matches[..k], lens) + [lens.line(matches[k].record)]
  {
  }

  /** The token counts of the rendered matches, by memory. */
  function Counts(rendered: seq<Match>, lens: Lens): map<string, nat> {
    if rendered == [] then map[]
    else
      var m := rendered[|rendered| - 1];
      Counts(rendered[..|rendered| - 1], lens)[m.record.memoryId := Estimate(lens.line(m.record))]
  }

  lemma CountsGrow(matches: seq<Match>, lens: Lens, k: nat)
    requires k < |matches|
    ensures Counts(matches[..k + 1], lens)
         == Counts(matches[..k], lens)[matches[k].record.memoryId := Estimate(lens.line(matches[k].record))]
  {
    assert matches[..k + 1][..k] == matches[..k];
  }

  method Render(matches: seq<Match>, budget: nat, lens: Lens)
    returns (text: string, tokens: nat, counts: map<string, nat>)
    ensures text == ContextText(matches, lens, budget) && tokens == Estimate(text)
    ensures counts == Counts(matches[..Shown(matches, lens, budget)], lens)
  {
    var lines := [lens.heading];
    counts := map[];
    var i := 0;
    while i < |matches|
      invariant i <= |matches|
      invariant lines == Lines(matches[..i], lens)
      invariant ShownFrom(matches, lens, budget, i) == Shown(matches, lens, budget)
      invariant counts == Counts(matches[..i], lens)
    {
      var line := lens.line(matches[i].record);
      LinesGrow(matches, lens, i);
      CountsGrow(matches, lens, i);
      var candidate := Join(lines + [line]);
      assert candidate == Prefix(matches, lens, i + 1);
      if |candidate| > 4 * budget { break; }
      lines := lines + [line];
      counts := counts[matches[i].record.memoryId := (|line| + 3) / 4];
      i := i + 1;
    }
    text := if |lines| > 1 then Join(lines) else "";
    tokens := (|text| + 3) / 4;
  }

  function Dropped(rest: seq<Match>): seq<Trace> {
    seq(|rest|, i requires 0 <= i < |rest| => Beyond(rest[i]))
  }

  function ChosenTrace(m: Match, counts: map<string, nat>): Trace {
    Trace(m.record.memoryId, m.score, Chosen, m.reasons,
          if m.record.memoryId in counts then counts[m.record.memoryId] else 0)
  }

  function Selected(matches: seq<Match>, counts: map<string, nat>): seq<Trace> {
    seq(|matches|, i requires 0 <= i < |matches| => ChosenTrace(matches[i], counts))
  }

  function FullTrace(rows: seq<Record>, q: Query, lens: Lens, counts: map<string, nat>): seq<Trace> {
    Excluded(rows, q, lens) + Dropped(Rest(Ranked(rows, q, lens), q.limit))
    + Selected(Cut(Ranked(rows, q, lens), q.limit), counts)
  }

  lemma RowsGrow(rows: seq<Record>, q: Query, lens: Lens, k: nat)
    requires k < |rows|
    ensures rows[..k + 1][..k] == rows[..k] && rows[..k + 1][k] == rows[k]
  {
  }

  /** The rows of a query split into candidates and rows excluded with a reason. */
  method Sift(rows: seq<Record>, q: Query, lens: Lens) returns (matches: seq<Match>, trace: seq<Trace>)
    ensures matches == Candidates(rows, q, lens) && trace == Excluded(rows, q, lens)
  {
    matches, trace := [], [];
    for i := 0 to |rows|
      invariant matches == Candidates(rows[..i], q, lens)
      invariant trace == Excluded(rows[..i], q, lens)
    {
      RowsGrow(rows, q, lens, i);
      var record := rows[i];
      if lens.tooOld(record) {
        trace := trace + [Trace(record.memoryId, 0.0, TooOld, [], 0)];
        continue;
      }
      var (score, reasons) := lens.score(record);
      if score >= q.minScore {
        matches := matches + [Match(record, score, reasons)];
      } else {
        trace := trace + [Trace(record.memoryId, score, BelowMinimum, reasons, 0)];
      }
    }
    assert rows[..|rows|] == rows;
  }

  method TraceRest(trace: seq<Trace>, rest: seq<Match>) returns (longer: seq<Trace>)
    ensures longer == trace + Dropped(rest)
  {
    longer := trace;
    for i := 0 to |rest|
      invariant longer == trace + Dropped(rest)[..i]
    {
      longer := longer + [Beyond(rest[i])];
    }
  }

  method TraceMatches(trace: seq<Trace>, matches: seq<Match>, counts: map<string, nat>) returns (longer: seq<Trace>)
    ensures longer == trace + Selected(matches, counts)
  {
    longer := trace;
    for i := 0 to |matches|
      invariant longer == trace + Selected(matches, counts)[..i]
    {
      longer := longer + [ChosenTrace(matches[i], counts)];
    }
  }

  method Retrieve(memories: map<string, Memory>, order: seq<string>, q: Query, lens: Lens) returns (c: Context)
    ensures var rows := Fetched(memories, order, q);
            && c.matches == Cut(Ranked(rows, q, lens), q.limit)
            && c.text == ContextText(c.matches, lens, q.budgetTokens)
            && c.tokens == Estimate(c.text)
            && c.trace == FullTrace(rows, q, lens,
                                    Counts(c.matches[..Shown(c.matches, lens, q.budgetTokens)], lens))
  {
    var rows := Fetched(memories, order, q);
    var matches, trace := Sift(rows, q, lens);
    var ranked := Sorting.Sort(matches, Better);
    matches := if q.limit <= |ranked| then ranked[..q.limit] else ranked;
    trace := TraceRest(trace, Rest(ranked, q.limit));
    var text, tokens, counts := Render(matches, q.budgetTokens, lens);
    trace := TraceMatches(trace, matches, counts);
    c := Context(matches, text, tokens, trace);
  }

  // ---------------------------------------------------------------- what is fetched

  /** The filter on columns is the filter on records: a record is fetched exactly when it is
      stored, listed and itself wanted. */
  lemma {:induction false} FetchedAreWanted(memories: map<string, Memory>, order: seq<string>, q: Query, r: Record)
    requires Agrees(memories)
    ensures r in Fetched(memories, order, q) <==>
              && r.memoryId in order && r.memoryId in memories && memories[r.memoryId].payload == r
              && r.active
              && (Given(q.repository) && !q.allowCrossRepository ==> r.repository == q.repository)
              && (Given(q.taskId) ==> r.taskId == q.taskId)
              && (q.kinds != [] ==> r.kind in q.kinds)
    decreases |order|
  {
    if order != [] {
      var n := |order| - 1;
      FetchedAreWanted(memories, order[..n], q, r);
      assert order == order[..n] + [order[n]];
      if order[n] in memories { assert MemoryAgrees(order[n], memories[order[n]]); }
      if r.memoryId in memories { assert MemoryAgrees(r.memoryId, memories[r.memoryId]); }
    }
  }

  // ---------------------------------------------------------------- ranking

  lemma RankingIsTotal()
    ensures Sorting.TotalPreorder(Better)
  {
    forall x, y ensures Better(x, y) || Better(y, x) {
      Text.Order(x.record.createdAt, y.record.createdAt, "");
    }
    forall x, y, z | Better(x, y) && Better(y, z) ensures Better(x, z) {
      Text.Order(x.record.createdAt, y.record.createdAt, z.record.createdAt);
    }
  }

  lemma {:induction false} CandidatesQualify(rows: seq<Record>, q: Query, lens: Lens, m: Match)
    ensures m in Candidates(rows, q, lens) <==>
              m.record in rows && m == AsMatch(m.record, lens) && !lens.tooOld(m.record) && m.score >= q.minScore
    decreases |rows|
  {
    if rows != [] {
      var n := |rows| - 1;
      CandidatesQualify(rows[..n], q, lens, m);
      assert rows == rows[..n] + [rows[n]];
    }
  }

  lemma CutIsBest(ranked: seq<Match>, limit: nat, m: Match)
    requires Sorting.Descending(ranked, Better)
    ensures var matches := Cut(ranked, limit);
            && Sorting.Descending(matches, Better)
            && (m in matches || m in Rest(ranked, limit) <==> m in ranked)
            && (m in Rest(ranked, limit) ==> |matches| == limit && forall k :: k in matches ==> Better(k, m))
  {
    var matches, rest := Cut(ranked, limit), Rest(ranked, limit);
    assert ranked == matches + rest;
    forall k | k in matches && m in rest ensures Better(k, m) {
      var i :| 0 <= i < |matches| && matches[i] == k;
      var j :| 0 <= j < |rest| && rest[j] == m;
      assert ranked[i] == k && ranked[|matches| + j] == m;
    }
  }

  /** The matches are the best `limit` of the records that qualify, best first. */
  lemma MatchesAreBest(rows: seq<Record>, q: Query, lens: Lens, m: Match)
    ensures var ranked := Ranked(rows, q, lens);
            var matches := Cut(ranked, q.limit);
            && Sorting.Descending(matches, Better)
            && (m in matches || m in Rest(ranked, q.limit) <==>
                  m.record in rows && m == AsMatch(m.record, lens) && !lens.tooOld(m.record) && m.score >= q.minScore)
            && (m in Rest(ranked, q.limit) ==> |matches| == q.limit && forall k :: k in matches ==> Better(k, m))
  {
    RankingIsTotal();
    Sorting.SortDescends(Candidates(rows, q, lens), Better);
    Sorting.SortKeeps(Candidates(rows, q, lens), Better);
    CandidatesQualify(rows, q, lens, m);
    CutIsBest(Ranked(rows, q, lens), q.limit, m);
  }

  /** Matches with equal keys keep the order in which they were fetched. */
  lemma TiesKeepFetchOrder(rows: seq<Record>, q: Query, lens: Lens, m: Match)
    ensures Sorting.Ties(Ranked(rows, q, lens), m, Better) == Sorting.Ties(Candidates(rows, q, lens), m, Better)
  {
    RankingIsTotal();
    Sorting.SortStable(Candidates(rows, q, lens), m, Better);
  }

  // ---------------------------------------------------------------- the trace

  function RowCount(rows: seq<Record>, id: string): nat {
    if rows == [] then 0
    else RowCount(rows[..|rows| - 1], id) + if rows[|rows| - 1].memoryId == id then 1 else 0
  }

  function TraceCount(trace: seq<Trace>, id: string): nat {
    if trace == [] then 0
    else TraceCount(trace[..|trace| - 1], id) + if trace[|trace| - 1].memoryId == id then 1 else 0
  }

  function MatchCount(matches: seq<Match>, id: string): nat {
    if matches == [] then 0
    else (if matches[0].record.memoryId == id then 1 else 0) + MatchCount(matches[1..], id)
  }

  lemma {:induction false} TraceCountJoin(a: seq<Trace>, b: seq<Trace>, id: string)
    ensures TraceCount(a + b, id) == TraceCount(a, id) + TraceCount(b, id)
    decreases |b|
  {
    if b == [] {
      assert a + b == a;
    } else {
      var n := |b| - 1;
      assert (a + b)[..|a| + n] == a + b[..n];
      TraceCountJoin(a, b[..n], id);
    }
  }

  lemma {:induction false} MatchCountJoin(a: seq<Match>, b: seq<Match>, id: string)
    ensures MatchCount(a + b, id) == MatchCount(a, id) + MatchCount(b, id)
    decreases |a|
  {
    if a == [] {
      assert a + b == b;
    } else {
      assert (a + b)[1..] == a[1..] + b;
      MatchCountJoin(a[1..], b, id);
    }
  }

  lemma {:induction false} InsertKeepsCount(m: Match, s: seq<Match>, id: string)
    ensures MatchCount(Sorting.Insert(m, s, Better), id) == MatchCount([m] + s, id)
    decreases |s|
  {
    if s != [] && !Better(m, s[0]) {
      InsertKeepsCount(m, s[1..], id);
      MatchCountJoin([s[0]], Sorting.Insert(m, s[1..], Better), id);
      MatchCountJoin([m], s, id);
      MatchCountJoin([m], s[1..], id);
      MatchCountJoin([s[0]], s[1..], id);
      assert [s[0]] + s[1..] == s;
    }
  }

  lemma {:induction false} SortKeepsCount(s: seq<Match>, id: string)
    ensures MatchCount(Sorting.Sort(s, Better), id) == MatchCount(s, id)
    decreases |s|
  {
    if s != [] {
      SortKeepsCount(s[1..], id);
      InsertKeepsCount(s[0], Sorting.Sort(s[1..], Better), id);
      MatchCountJoin([s[0]], Sorting.Sort(s[1..], Better), id);
    }
  }

  lemma OneOrTheOther(r: Record, q: Query, lens: Lens, id: string)
    ensures TraceCount(Refused(r, q, lens), id) + MatchCount(Admitted(r, q, lens), id)
            == if r.memoryId == id then 1 else 0
  {
  }

  lemma {:induction false} SiftKeepsCount(rows: seq<Record>, q: Query, lens: Lens, id: string)
    ensures TraceCount(Excluded(rows, q, lens), id) + MatchCount(Candidates(rows, q, lens), id) == RowCount(rows, id)
    decreases |rows|
  {
    if rows != [] {
      var n := |rows| - 1;
      SiftKeepsCount(rows[..n], q, lens, id);
      OneOrTheOther(rows[n], q, lens, id);
      MatchCountJoin(Candidates(rows[..n], q, lens), Admitted(rows[n], q, lens), id);
      TraceCountJoin(Excluded(rows[..n], q, lens), Refused(rows[n], q, lens), id);
    }
  }

  lemma {:induction false} SameCount(matches: seq<Match>, trace: seq<Trace>, id: string)
    requires |matches| == |trace|
    requires forall i :: 0 <= i < |trace| ==> trace[i].memoryId == matches[i].record.memoryId
    ensures TraceCount(trace, id) == MatchCount(matches, id)
    decreases |trace|
  {
    if trace != [] {
      var n := |trace| - 1;
      SameCount(matches[..n], trace[..n], id);
      assert matches == matches[..n] + [matches[n]];
      MatchCountJoin(matches[..n], [matches[n]], id);
    }
  }

  lemma CutKeepsCount(rows: seq<Record>, q: Query, lens: Lens, id: string)
    ensures var ranked := Ranked(rows, q, lens);
            MatchCount(Cut(ranked, q.limit), id) + MatchCount(Rest(ranked, q.limit), id)
            == MatchCount(Candidates(rows, q, lens), id)
  {
    var ranked := Ranked(rows, q, lens);
    SortKeepsCount(Candidates(rows, q, lens), id);
    assert ranked == Cut(ranked, q.limit) + Rest(ranked, q.limit);
    MatchCountJoin(Cut(ranked, q.limit), Rest(ranked, q.limit), id);
  }

  /** Every row fetched has exactly one entry in the trace, and no entry has another source. */
  lemma TraceAccountsForRows(rows: seq<Record>, q: Query, lens: Lens, counts: map<string, nat>, id: string)
    ensures TraceCount(FullTrace(rows, q, lens, counts), id) == RowCount(rows, id)
  {
    var ranked := Ranked(rows, q, lens);
    var matches, rest := Cut(ranked, q.limit), Rest(ranked, q.limit);
    var e := Excluded(rows, q, lens);
    SiftKeepsCount(rows, q, lens, id);
    CutKeepsCount(rows, q, lens, id);
    SameCount(rest, Dropped(rest), id);
    SameCount(matches, Selected(matches, counts), id);
    TraceCountJoin(e, Dropped(rest), id);
    TraceCountJoin(e + Dropped(rest), Selected(matches, counts), id);
  }

  // ---------------------------------------------------------------- the text

  lemma {:induction false} LongerIsLonger(matches: seq<Match>, lens: Lens, i: nat, j: nat)
    requires i <= j <= |matches|
    ensures |Prefix(matches, lens, i)| <= |Prefix(matches, lens, j)|
    decreases j
  {
    if i < j {
      LongerIsLonger(matches, lens, i, j - 1);
      LinesGrow(matches, lens, j - 1);
      var lines := Lines(matches[..j], lens);
      assert lines[..|lines| - 1] == Lines(matches[..j - 1], lens);
    }
  }

  lemma {:induction false} ShownIsFirst(matches: seq<Match>, lens: Lens, budget: nat, from: nat, j: nat)
    requires from < j <= |matches|
    ensures j <= ShownFrom(matches, lens, budget, from) ==> Fits(matches, lens, budget, j)
    ensures j == ShownFrom(matches, lens, budget, from) + 1 ==> !Fits(matches, lens, budget, j)
    decreases |matches| - from
  {
    if from + 1 < j && Fits(matches, lens, budget, from + 1) { ShownIsFirst(matches, lens, budget, from + 1, j); }
  }

  /** The rendered matches are the longest prefix that fits: a non-empty prefix fits the budget
      if and only if it is no longer. */
  lemma RenderedIsLongest(matches: seq<Match>, lens: Lens, budget: nat, j: nat)
    requires 1 <= j <= |matches|
    ensures Fits(matches, lens, budget, j) <==> j <= Shown(matches, lens, budget)
  {
    var k := Shown(matches, lens, budget);
    ShownIsFirst(matches, lens, budget, 0, j);
    if j > k {
      ShownIsFirst(matches, lens, budget, 0, k + 1);
      LongerIsLonger(matches, lens, k + 1, j);
    }
  }

  /** The text never exceeds four characters a token of budget, nor its estimate the budget. */
  lemma BudgetIsKept(matches: seq<Match>, lens: Lens, budget: nat)
    ensures |ContextText(matches, lens, budget)| <= 4 * budget
    ensures Estimate(ContextText(matches, lens, budget)) <= budget
  {
    var k := Shown(matches, lens, budget);
    if k > 0 { RenderedIsLongest(matches, lens, budget, k); }
  }

  predicate DistinctNames(order: seq<string>) {
    forall i, j :: 0 <= i < j < |order| ==> order[i] != order[j]
  }

  predicate DistinctIds(matches: seq<Match>) {
    forall i, j :: 0 <= i < j < |matches| ==> matches[i].record.memoryId != matches[j].record.memoryId
  }

  lemma {:induction false} CountsAre(matches: seq<Match>, lens: Lens, k: nat, i: nat)
    requires k <= |matches| && i < |matches| && DistinctIds(matches)
    ensures var counts, id := Counts(matches[..k], lens), matches[i].record.memoryId;
            && (id in counts <==> i < k)
            && (i < k ==> counts[id] == Estimate(lens.line(matches[i].record)))
    decreases k
  {
    if k > 0 {
      CountsGrow(matches, lens, k - 1);
      CountsAre(matches, lens, k - 1, i);
    }
  }

  /** The trace charges each rendered match the tokens of its own line and the other selected
      matches nothing. */
  lemma SelectedAreCharged(matches: seq<Match>, lens: Lens, k: nat, i: nat)
    requires k <= |matches| && i < |matches| && DistinctIds(matches)
    ensures Selected(matches, Counts(matches[..k], lens))[i].tokens
            == if i < k then Estimate(lens.line(matches[i].record)) else 0
  {
    CountsAre(matches, lens, k, i);
  }

  lemma {:induction false} FetchedOnce(memories: map<string, Memory>, order: seq<string>, q: Query, id: string)
    requires Agrees(memories) && DistinctNames(order)
    ensures RowCount(Fetched(memories, order, q), id) <= if id in order then 1 else 0
    decreases |order|
  {
    if order != [] {
      var n := |order| - 1;
      FetchedOnce(memories, order[..n], q, id);
      assert order == order[..n] + [order[n]];
      assert order[n] !in order[..n];
      if order[n] in memories { assert MemoryAgrees(order[n], memories[order[n]]); }
      var rows := Fetched(memories, order, q);
      if |rows| > |Fetched(memories, order[..n], q)| {
        assert rows[..|rows| - 1] == Fetched(memories, order[..n], q);
      } else {
        assert rows == Fetched(memories, order[..n], q);
      }
    }
  }

  lemma {:induction false} TwiceCountsTwo(matches: seq<Match>, i: nat, j: nat)
    requires i < j < |matches| && matches[i].record.memoryId == matches[j].record.memoryId
    ensures MatchCount(matches, matches[i].record.memoryId) >= 2
  {
    var id := matches[i].record.memoryId;
    OccursCountsOne(matches[..j], i);
    OccursCountsOne(matches[j..], 0);
    assert matches == matches[..j] + matches[j..];
    MatchCountJoin(matches[..j], matches[j..], id);
  }

  lemma {:induction false} OccursCountsOne(matches: seq<Match>, i: nat)
    requires i < |matches|
    ensures MatchCount(matches, matches[i].record.memoryId) >= 1
  {
    if i > 0 { OccursCountsOne(matches[1..], i - 1); }
  }

  /** The matches of a query are different memories, so no token count can be mistaken for
      another's. */
  lemma MatchesAreDistinct(memories: map<string, Memory>, order: seq<string>, q: Query, lens: Lens)
    requires Agrees(memories) && DistinctNames(order)
    ensures DistinctIds(Cut(Ranked(Fetched(memories, order, q), q, lens), q.limit))
  {
    var rows := Fetched(memories, order, q);
    var matches := Cut(Ranked(rows, q, lens), q.limit);
    forall i, j | 0 <= i < j < |matches| ensures matches[i].record.memoryId != matches[j].record.memoryId {
      var id := matches[i].record.memoryId;
      MatchedOnce(memories, order, q, lens, id);
      if matches[j].record.memoryId == id { TwiceCountsTwo(matches, i, j); }
    }
  }

  lemma MatchedOnce(memories: map<string, Memory>, order: seq<string>, q: Query, lens: Lens, id: string)
    requires Agrees(memories) && DistinctNames(order)
    ensures MatchCount(Cut(Ranked(Fetched(memories, order, q), q, lens), q.limit), id) <= 1
  {
    var rows := Fetched(memories, order, q);
    FetchedOnce(memories, order, q, id);
    SiftKeepsCount(rows, q, lens, id);
    CutKeepsCount(rows, q, lens, id);
  }
}
