/** Benchmark evidence and the advisory role derived from it.

    Rates, accuracies and confidences are rounded to thousandths, half to even, on exact
    rationals and reals; floors are given in thousandths. */
module Qualification {
  import opened Prelude
  import Sorting

  datatype Level = L0Protocol | L1ExactGrounding | L2SourceGrounding | L3Diagnosis | L4Patch

  function Order(l: Level): nat {
    match l
    case L0Protocol => 0
    case L1ExactGrounding => 1
    case L2SourceGrounding => 2
    case L3Diagnosis => 3
    case L4Patch => 4
  }

  /** The closed vocabulary of failures; a row may also declare a text outside it. */
  datatype Mode =
    | EmptyUsableContent | ReasoningOnlyOutput | LengthTruncated | Timeout
    | ContextNotGrounded | WrongResponseField | InvalidPatch | TestFailure
    | Unlisted(text: string)

  /** A row of evidence; a level outside the ladder is no level. */
  datatype Row = Row(
    declared: Option<Mode>,
    succeeded: bool,
    timeoutError: bool,
    lengthFinish: bool,
    usableChars: int,
    reasoningChars: int,
    patchValid: Option<bool>,
    testsPassed: Option<bool>,
    grounded: Option<bool>,
    wrongField: Option<bool>,
    level: Option<Level>,
    confidence: Option<real>,
    timeToFirstToken: Option<real>,
    tokensPerSecond: Option<real>)

  function Classify(r: Row): Option<Mode> {
    if r.declared.Some? then r.declared
    else if r.succeeded then None
    else Some(
      if r.timeoutError then Timeout
      else if r.lengthFinish then LengthTruncated
      else if r.usableChars <= 0 && r.reasoningChars > 0 then ReasoningOnlyOutput
      else if r.usableChars <= 0 then EmptyUsableContent
      else if r.patchValid == Some(false) then InvalidPatch
      else if r.testsPassed == Some(false) then TestFailure
      else if r.grounded == Some(false) then ContextNotGrounded
      else if r.wrongField.Some? then WrongResponseField
      else ContextNotGrounded)
  }

  function Annotated(r: Row): Row { r.(declared := Classify(r), succeeded := Classify(r).None?) }

  /** A passing row declares no failure and succeeded; annotating once settles a row. */
  lemma AnnotationSettles(r: Row)
    ensures Classify(r).None? <==> r.declared.None? && r.succeeded
    ensures Classify(Annotated(r)) == Classify(r) && Annotated(Annotated(r)) == Annotated(r)
    ensures Classify(r).Some? && Classify(r).value.Unlisted? ==> Classify(r) == r.declared
  {
  }

  /** A failing row that declares nothing and shows no sign of any named cause. */
  predicate Unrecognised(r: Row) {
    && r.declared.None? && !r.succeeded && !r.timeoutError && !r.lengthFinish && r.usableChars > 0
    && r.patchValid != Some(false) && r.testsPassed != Some(false) && r.grounded != Some(false) && r.wrongField.None?
  }

  /** A failing row that declares nothing is named empty exactly when it holds no text at all
      and neither timed out nor was cut short; so an unrecognised one never is, it is named
      ungrounded. */
  lemma EmptyExactly(r: Row)
    requires r.declared.None? && !r.succeeded
    ensures Classify(r) == Some(EmptyUsableContent) <==>
              !r.timeoutError && !r.lengthFinish && r.usableChars <= 0 && r.reasoningChars <= 0
    ensures Unrecognised(r) ==> Classify(r) == Some(ContextNotGrounded)
  {
  }

  /** Such a row: some text, and nothing else known. */
  lemma UnrecognisedIsNotEmpty()
    ensures var r := Row(None, false, false, false, 12, 0, None, None, None, None, None, None, None, None);
            Unrecognised(r) && Classify(r) == Some(ContextNotGrounded)
  {
  }

  /** The flag for a wrong response field counts whichever way it is set. */
  lemma WrongFieldEitherWay(r: Row)
    ensures Classify(r.(wrongField := Some(false))) == Classify(r.(wrongField := Some(true)))
    ensures Unrecognised(r) ==> Classify(r.(wrongField := Some(false))) == Some(WrongResponseField)
  {
  }

  // ---------------------------------------------------------------- statistics

  predicate Passed(r: Row) { Classify(r).None? }

  predicate Graded(r: Row) { r.grounded.Some? }

  predicate Grounded(r: Row) { r.grounded == Some(true) }

  function Count(rows: seq<Row>, p: Row -> bool): (n: nat)
    ensures n <= |rows|
  {
    if rows == [] then 0 else Count(rows[..|rows| - 1], p) + if p(rows[|rows| - 1]) then 1 else 0
  }

  /** `round(x, 3)` in thousandths. */
  function Thousandths(x: real): int {
    var f := (x * 1000.0).Floor;
    var rest := x * 1000.0 - f as real;
    if rest < 0.5 || (rest == 0.5 && f % 2 == 0) then f else f + 1
  }

  function Ratio(a: nat, b: nat): int {
    if b == 0 then 0 else Thousandths(a as real / b as real)
  }

  function Better(a: Option<Level>, b: Option<Level>): Option<Level> {
    if b.None? then a
    else if a.None? || Order(b.value) > Order(a.value) then b
    else a
  }

  function PassedRows(rows: seq<Row>): seq<Row> {
    if rows == [] then []
    else if Passed(rows[|rows| - 1]) then PassedRows(rows[..|rows| - 1]) + [rows[|rows| - 1]]
    else PassedRows(rows[..|rows| - 1])
  }

  /** The highest level of the rows given. */
  function Highest(passed: seq<Row>): Option<Level> {
    if passed == [] then None else Better(Highest(passed[..|passed| - 1]), passed[|passed| - 1].level)
  }

  function ConfidenceOf(r: Row): real { if r.confidence.Some? then r.confidence.value else 0.0 }

  /** The greatest confidence of a row; zero when there are none. */
  function Confidence(rows: seq<Row>): real {
    if rows == [] then 0.0
    else if |rows| == 1 then ConfidenceOf(rows[0])
    else
      var (c, d) := (Confidence(rows[..|rows| - 1]), ConfidenceOf(rows[|rows| - 1]));
      if d > c then d else c
  }

  function HardModes(rows: seq<Row>): seq<Mode> {
    if rows == [] then []
    else
      var m := Classify(rows[|rows| - 1]);
      HardModes(rows[..|rows| - 1]) + if m.Some? && !m.value.Unlisted? then [m.value] else []
  }

  function Given(values: seq<Option<real>>): seq<real> {
    if values == [] then []
    else Given(values[..|values| - 1]) + if values[|values| - 1].Some? then [values[|values| - 1].value] else []
  }

  predicate NotAbove(a: real, b: real) { a <= b }

  /** The middle value, the upper one of two, rounded. */
  function Median(values: seq<real>): Option<int> {
    if values == [] then None
    else
      Sorting.SortKeeps(values, NotAbove);
      Some(Thousandths(Sorting.Sort(values, NotAbove)[|values| / 2]))
  }

  function FirstTokenTimes(rows: seq<Row>): seq<real> {
    Given(seq(|rows|, i requires 0 <= i < |rows| => rows[i].timeToFirstToken))
  }

  function TokenRates(rows: seq<Row>): seq<real> {
    Given(seq(|rows|, i requires 0 <= i < |rows| => rows[i].tokensPerSecond))
  }

  /** What the floors are given; throughput comes along as advice. */
  datatype Stats = Stats(
    passRate: int, highest: Option<Level>, grounding: int, confidence: int, modes: seq<Mode>, advice: Throughput)

  datatype Throughput = Throughput(medianTimeToFirstToken: Option<int>, medianTokensPerSecond: Option<int>)

  function Evidence(rows: seq<Row>): Stats {
    Stats(Ratio(|PassedRows(rows)|, |rows|), Highest(PassedRows(rows)),
          Ratio(Count(rows, Grounded), Count(rows, Graded)), Thousandths(Confidence(rows)), HardModes(rows),
          Throughput(Median(FirstTokenTimes(rows)), Median(TokenRates(rows))))
  }

  method HighestLevel(passed: seq<Row>) returns (best: Option<Level>)
    ensures best == Highest(passed)
    ensures best.Some? ==> exists r :: r in passed && r.level == best
    ensures forall r :: r in passed && r.level.Some? ==> best.Some? && Order(r.level.value) <= Order(best.value)
  {
    best := None;
    for i := 0 to |passed|
      invariant best == Highest(passed[..i])
    {
      assert passed[..i + 1][..i] == passed[..i];
      if passed[i].level.None? { continue; }
      if best.None? || Order(passed[i].level.value) > Order(best.value) { best := passed[i].level; }
    }
    assert passed[..|passed|] == passed;
    HighestIs(passed);
  }

  // ---------------------------------------------------------------- floors and roles

  datatype Role = CodeQualified | ReviewQualified | ScoutQualified | SummaryOnly | Unqualified

  /** Strictest first. */
  function Rank(role: Role): nat {
    match role
    case CodeQualified => 0
    case ReviewQualified => 1
    case ScoutQualified => 2
    case SummaryOnly => 3
    case Unqualified => 4
  }

  datatype Floor = Floor(level: Option<Level>, passRate: int, grounding: int, confidence: int)

  function FloorOf(role: Role): Floor {
    match role
    case CodeQualified => Floor(Some(L4Patch), 800, 800, 600)
    case ReviewQualified => Floor(Some(L3Diagnosis), 700, 600, 500)
    case ScoutQualified => Floor(Some(L1ExactGrounding), 500, 500, 400)
    case SummaryOnly => Floor(Some(L1ExactGrounding), 0, 0, 200)
    case Unqualified => Floor(None, 0, 0, 0)
  }

  predicate Blocks(role: Role, m: Mode) {
    match role
    case CodeQualified => m.InvalidPatch? || m.TestFailure? || m.EmptyUsableContent? || m.Timeout?
    case ReviewQualified => m.EmptyUsableContent? || m.Timeout?
    case _ => false
  }

  datatype Reason = LevelTooLow | PassRateTooLow | GroundingTooLow | ConfidenceTooLow | BlockingFailure

  predicate Reached(s: Stats, role: Role) {
    FloorOf(role).level.Some? ==> s.highest.Some? && Order(s.highest.value) >= Order(FloorOf(role).level.value)
  }

  /** The confidence a role needs, when the caller asks for at least `least`. */
  function Needed(role: Role, least: real): real {
    if least > FloorOf(role).confidence as real then least else FloorOf(role).confidence as real
  }

  predicate Blocked(s: Stats, role: Role) { exists m :: m in s.modes && Blocks(role, m) }

  predicate Passes(s: Stats, role: Role, least: real) {
    && Reached(s, role)
    && s.passRate >= FloorOf(role).passRate
    && s.grounding >= FloorOf(role).grounding
    && s.confidence as real >= Needed(role, least)
    && !Blocked(s, role)
  }

  method EvaluateRoleFloor(role: Role, s: Stats, least: real) returns (passed: bool, reasons: seq<Reason>)
    ensures passed == Passes(s, role, least) && (passed <==> reasons == [])
    ensures LevelTooLow in reasons <==> !Reached(s, role)
    ensures PassRateTooLow in reasons <==> s.passRate < FloorOf(role).passRate
    ensures GroundingTooLow in reasons <==> s.grounding < FloorOf(role).grounding
    ensures ConfidenceTooLow in reasons <==> (s.confidence as real) < Needed(role, least)
    ensures BlockingFailure in reasons <==> Blocked(s, role)
  {
    var floor := FloorOf(role);
    reasons := [];
    if floor.level.Some? {
      if s.highest.None? || Order(s.highest.value) < Order(floor.level.value) { reasons := reasons + [LevelTooLow]; }
    }
    if s.passRate < floor.passRate { reasons := reasons + [PassRateTooLow]; }
    if s.grounding < floor.grounding { reasons := reasons + [GroundingTooLow]; }
    if (s.confidence as real) < Needed(role, least) { reasons := reasons + [ConfidenceTooLow]; }
    var blocked := false;
    for i := 0 to |s.modes|
      invariant blocked <==> exists j :: 0 <= j < i && Blocks(role, s.modes[j])
    {
      if Blocks(role, s.modes[i]) { blocked := true; }
    }
    if blocked { reasons := reasons + [BlockingFailure]; }
    passed := reasons == [];
  }

  const CANDIDATES: seq<Role> := [CodeQualified, ReviewQualified, ScoutQualified, SummaryOnly]

  function RoleFor(s: Stats, least: real): Role {
    if Passes(s, CodeQualified, least) then CodeQualified
    else if Passes(s, ReviewQualified, least) then ReviewQualified
    else if Passes(s, ScoutQualified, least) then ScoutQualified
    else if Passes(s, SummaryOnly, least) then SummaryOnly
    else Unqualified
  }

  method DeriveRole(rows: seq<Row>, least: real) returns (role: Role)
    ensures role == RoleFor(Evidence(rows), least)
  {
    var s := Evidence(rows);
    role := Unqualified;
    for i := 0 to |CANDIDATES|
      invariant role == Unqualified
      invariant forall j :: 0 <= j < i ==> !Passes(s, CANDIDATES[j], least)
    {
      var passed, _ := EvaluateRoleFloor(CANDIDATES[i], s, least);
      if passed {
        FirstPassed(s, least, i);
        return CANDIDATES[i];
      }
    }
    FirstPassed(s, least, |CANDIDATES|);
  }

  lemma FirstPassed(s: Stats, least: real, i: nat)
    requires i <= |CANDIDATES| && forall j :: 0 <= j < i ==> !Passes(s, CANDIDATES[j], least)
    requires i < |CANDIDATES| ==> Passes(s, CANDIDATES[i], least)
    ensures RoleFor(s, least) == if i < |CANDIDATES| then CANDIDATES[i] else Unqualified
  {
    assert i > 0 ==> !Passes(s, CANDIDATES[0], least);
    assert i > 1 ==> !Passes(s, CANDIDATES[1], least);
    assert i > 2 ==> !Passes(s, CANDIDATES[2], least);
    assert i > 3 ==> !Passes(s, CANDIDATES[3], least);
  }

  /** Passing a stricter floor implies passing every laxer one, so a role is at least as good as
      another exactly when its floor is passed. */
  lemma FloorsNest(s: Stats, strict: Role, lax: Role, least: real)
    requires Rank(strict) <= Rank(lax) < 4
    ensures Passes(s, strict, least) ==> Passes(s, lax, least)
    ensures Rank(RoleFor(s, least)) <= Rank(lax) <==> Passes(s, lax, least)
  {
    BlockingNests(s);
  }

  lemma BlockingNests(s: Stats)
    ensures Blocked(s, ReviewQualified) ==> Blocked(s, CodeQualified)
    ensures !Blocked(s, ScoutQualified) && !Blocked(s, SummaryOnly)
  {
    if Blocked(s, ReviewQualified) {
      var m :| m in s.modes && Blocks(ReviewQualified, m);
      assert Blocks(CodeQualified, m);
    }
  }

  // ---------------------------------------------------------------- the order of rows

  lemma {:induction false} CountJoins(a: seq<Row>, b: seq<Row>, p: Row -> bool)
    ensures Count(a + b, p) == Count(a, p) + Count(b, p)
    decreases |b|
  {
    if b == [] {
      assert a + b == a;
    } else {
      assert (a + b)[..|a + b| - 1] == a + b[..|b| - 1];
      CountJoins(a, b[..|b| - 1], p);
    }
  }

  lemma Without(rows: seq<Row>, i: nat, p: Row -> bool)
    requires i < |rows|
    ensures var rest := rows[..i] + rows[i + 1..];
            && multiset(rest) == multiset(rows) - multiset{rows[i]}
            && Count(rows, p) == Count(rest, p) + if p(rows[i]) then 1 else 0
  {
    assert rows == rows[..i] + [rows[i]] + rows[i + 1..];
    CountJoins(rows[..i], [rows[i]], p);
    CountJoins(rows[..i] + [rows[i]], rows[i + 1..], p);
    CountJoins(rows[..i], rows[i + 1..], p);
  }

  lemma {:induction false} CountIsUnordered(a: seq<Row>, b: seq<Row>, p: Row -> bool)
    requires multiset(a) == multiset(b)
    ensures Count(a, p) == Count(b, p)
    decreases |a|
  {
    assert |multiset(a)| == |a| && |multiset(b)| == |b|;
    if a != [] {
      assert a[0] in multiset(b);
      var i :| 0 <= i < |b| && b[i] == a[0];
      Without(a, 0, p);
      Without(b, i, p);
      CountIsUnordered(a[..0] + a[1..], b[..i] + b[i + 1..], p);
    }
  }

  lemma {:induction false} HighestIs(rows: seq<Row>)
    ensures Highest(rows).Some? ==> exists r :: r in rows && r.level == Highest(rows)
    ensures forall r :: r in rows && r.level.Some? ==>
              Highest(rows).Some? && Order(r.level.value) <= Order(Highest(rows).value)
    decreases |rows|
  {
    if rows != [] {
      var n := |rows| - 1;
      HighestIs(rows[..n]);
      assert rows == rows[..n] + [rows[n]];
      assert rows[n] in rows;
    }
  }

  lemma {:induction false} PassedRowsAre(rows: seq<Row>, r: Row)
    ensures r in PassedRows(rows) <==> r in rows && Passed(r)
    ensures |PassedRows(rows)| == Count(rows, Passed)
    decreases |rows|
  {
    if rows != [] {
      var n := |rows| - 1;
      PassedRowsAre(rows[..n], r);
      assert rows == rows[..n] + [rows[n]];
    }
  }

  lemma {:induction false} ConfidenceIs(rows: seq<Row>)
    requires rows != []
    ensures exists r :: r in rows && ConfidenceOf(r) == Confidence(rows)
    ensures forall r :: r in rows ==> ConfidenceOf(r) <= Confidence(rows)
    decreases |rows|
  {
    var n := |rows| - 1;
    assert rows == rows[..n] + [rows[n]];
    assert rows[n] in rows;
    if n > 0 { ConfidenceIs(rows[..n]); }
  }

  lemma {:induction false} HardModesAre(rows: seq<Row>, m: Mode)
    ensures m in HardModes(rows) <==> !m.Unlisted? && exists r :: r in rows && Classify(r) == Some(m)
    decreases |rows|
  {
    if rows != [] {
      var n := |rows| - 1;
      HardModesAre(rows[..n], m);
      assert rows == rows[..n] + [rows[n]];
      assert rows[n] in rows;
    }
  }

  /** What a role depends on: the numbers, and which modes occur. */
  ghost predicate Alike(s: Stats, t: Stats) {
    && s.(modes := t.modes, advice := t.advice) == t
    && forall m :: m in s.modes <==> m in t.modes
  }

  lemma AlikeAgree(s: Stats, t: Stats, least: real)
    requires Alike(s, t)
    ensures RoleFor(s, least) == RoleFor(t, least)
  {
    forall role: Role ensures Blocked(s, role) <==> Blocked(t, role) {
      if Blocked(s, role) {
        var m :| m in s.modes && Blocks(role, m);
        assert m in t.modes;
      }
      if Blocked(t, role) {
        var m :| m in t.modes && Blocks(role, m);
        assert m in s.modes;
      }
    }
  }

  lemma SameRows(a: seq<Row>, b: seq<Row>)
    requires multiset(a) == multiset(b)
    ensures |a| == |b| && forall r :: r in a <==> r in b
  {
    assert |multiset(a)| == |a| && |multiset(b)| == |b|;
    forall r ensures r in a <==> r in b {
      assert r in a <==> r in multiset(a);
      assert r in b <==> r in multiset(b);
    }
  }

  lemma HighestIsUnordered(a: seq<Row>, b: seq<Row>)
    requires forall r :: r in a <==> r in b
    ensures Highest(PassedRows(a)) == Highest(PassedRows(b))
  {
    forall r ensures r in PassedRows(a) <==> r in PassedRows(b) {
      PassedRowsAre(a, r);
      PassedRowsAre(b, r);
    }
    HighestIs(PassedRows(a));
    HighestIs(PassedRows(b));
  }

  lemma ConfidenceIsUnordered(a: seq<Row>, b: seq<Row>)
    requires |a| == |b| && forall r :: r in a <==> r in b
    ensures Confidence(a) == Confidence(b)
  {
    if a != [] {
      ConfidenceIs(a);
      ConfidenceIs(b);
    }
  }

  lemma PassRateIsUnordered(a: seq<Row>, b: seq<Row>)
    requires multiset(a) == multiset(b)
    ensures |PassedRows(a)| == |PassedRows(b)|
  {
    CountIsUnordered(a, b, Passed);
    if a != [] { PassedRowsAre(a, a[0]); }
    if b != [] { PassedRowsAre(b, b[0]); }
  }

  lemma EvidenceIsUnordered(a: seq<Row>, b: seq<Row>)
    requires multiset(a) == multiset(b)
    ensures Alike(Evidence(a), Evidence(b))
  {
    SameRows(a, b);
    PassRateIsUnordered(a, b);
    CountIsUnordered(a, b, Grounded);
    CountIsUnordered(a, b, Graded);
    HighestIsUnordered(a, b);
    ConfidenceIsUnordered(a, b);
    forall m ensures m in HardModes(a) <==> m in HardModes(b) {
      HardModesAre(a, m);
      HardModesAre(b, m);
    }
  }

  /** The role does not depend on the order of the evidence. */
  lemma RoleIsUnordered(a: seq<Row>, b: seq<Row>, least: real)
    requires multiset(a) == multiset(b)
    ensures RoleFor(Evidence(a), least) == RoleFor(Evidence(b), least)
  {
    EvidenceIsUnordered(a, b);
    AlikeAgree(Evidence(a), Evidence(b), least);
  }

  // ---------------------------------------------------------------- throughput

  function Bare(r: Row): Row { r.(timeToFirstToken := None, tokensPerSecond := None) }

  ghost predicate SameButThroughput(a: seq<Row>, b: seq<Row>) {
    |a| == |b| && forall i :: 0 <= i < |a| ==> Bare(a[i]) == Bare(b[i])
  }

  lemma {:induction false} SameCount(a: seq<Row>, b: seq<Row>, p: Row -> bool)
    requires |a| == |b| && forall i :: 0 <= i < |a| ==> p(a[i]) == p(b[i])
    ensures Count(a, p) == Count(b, p)
    decreases |a|
  {
    if a != [] { SameCount(a[..|a| - 1], b[..|a| - 1], p); }
  }

  lemma {:induction false} SamePassed(a: seq<Row>, b: seq<Row>)
    requires SameButThroughput(a, b)
    ensures |PassedRows(a)| == |PassedRows(b)| && Highest(PassedRows(a)) == Highest(PassedRows(b))
    decreases |a|
  {
    if a != [] {
      var n := |a| - 1;
      SamePassed(a[..n], b[..n]);
      assert Bare(a[n]) == Bare(b[n]);
      HighestGrows(PassedRows(a[..n]), a[n]);
      HighestGrows(PassedRows(b[..n]), b[n]);
    }
  }

  lemma HighestGrows(rows: seq<Row>, r: Row)
    ensures Highest(rows + [r]) == Better(Highest(rows), r.level)
  {
    assert (rows + [r])[..|rows|] == rows;
  }

  lemma {:induction false} SameConfidence(a: seq<Row>, b: seq<Row>)
    requires SameButThroughput(a, b)
    ensures Confidence(a) == Confidence(b)
    decreases |a|
  {
    if a != [] {
      var n := |a| - 1;
      SameConfidence(a[..n], b[..n]);
      assert Bare(a[n]) == Bare(b[n]);
    }
  }

  lemma {:induction false} SameModes(a: seq<Row>, b: seq<Row>)
    requires SameButThroughput(a, b)
    ensures HardModes(a) == HardModes(b)
    decreases |a|
  {
    if a != [] {
      var n := |a| - 1;
      SameModes(a[..n], b[..n]);
      assert Bare(a[n]) == Bare(b[n]);
    }
  }

  /** Time to first token and tokens per second reach the statistics only as advice, and no
      role depends on it. */
  lemma ThroughputIsAdvisory(a: seq<Row>, b: seq<Row>, least: real)
    requires SameButThroughput(a, b)
    ensures Evidence(a).(advice := Evidence(b).advice) == Evidence(b)
    ensures RoleFor(Evidence(a), least) == RoleFor(Evidence(b), least)
  {
    SamePassed(a, b);
    SameConfidence(a, b);
    SameModes(a, b);
    forall i | 0 <= i < |a| ensures a[i].grounded == b[i].grounded {
      assert Bare(a[i]) == Bare(b[i]);
    }
    SameCount(a, b, Grounded);
    SameCount(a, b, Graded);
    AlikeAgree(Evidence(a), Evidence(b), least);
  }

  /** The advice does vary: two rows that differ in nothing else have different statistics. */
  lemma AdviceVaries(r: Row, x: real, y: real)
    requires Thousandths(x) != Thousandths(y)
    ensures Evidence([r.(tokensPerSecond := Some(x))]) != Evidence([r.(tokensPerSecond := Some(y))])
  {
    OneMedian(r.(tokensPerSecond := Some(x)));
    OneMedian(r.(tokensPerSecond := Some(y)));
  }

  lemma OneMedian(r: Row)
    requires r.tokensPerSecond.Some?
    ensures Evidence([r]).advice.medianTokensPerSecond == Some(Thousandths(r.tokensPerSecond.value))
  {
    var x := r.tokensPerSecond.value;
    assert Given([Some(x)][..0]) == [] && Given([Some(x)]) == [x];
    assert seq(|[r]|, i requires 0 <= i < |[r]| => [r][i].tokensPerSecond) == [Some(x)];
    assert Sorting.Sort([x], NotAbove) == [x];
  }

  // ---------------------------------------------------------------- more good evidence

  lemma FloorRises(x: real, y: real)
    requires x <= y
    ensures x.Floor <= y.Floor
  {
  }

  lemma RoundingRises(x: real, y: real)
    requires x <= y
    ensures Thousandths(x) <= Thousandths(y)
  {
    FloorRises(x * 1000.0, y * 1000.0);
  }

  lemma RatioRises(a: nat, b: nat)
    requires a <= b
    ensures Ratio(a, b) <= Ratio(a + 1, b + 1)
  {
    if b == 0 {
      RoundingRises(0.0, 1.0);
    } else {
      FractionRises(a as real, b as real);
      RoundingRises(a as real / b as real, (a + 1) as real / (b + 1) as real);
    }
  }

  lemma FractionRises(a: real, b: real)
    requires 0.0 <= a <= b && b > 0.0
    ensures a / b <= (a + 1.0) / (b + 1.0)
  {
    var x, y := a / b, (a + 1.0) / (b + 1.0);
    assert x <= 1.0 by { Divides(a, b, b); }
    assert x * (b + 1.0) == x * b + x <= a + 1.0 == y * (b + 1.0);
    Cancels(x, y, b + 1.0);
  }

  lemma Divides(a: real, b: real, c: real)
    requires a <= b && c > 0.0
    ensures a / c <= b / c
  {
  }

  lemma Cancels(x: real, y: real, c: real)
    requires c > 0.0 && x * c <= y * c
    ensures x <= y
  {
  }

  lemma {:induction false} CountWithin(rows: seq<Row>)
    ensures Count(rows, Grounded) <= Count(rows, Graded)
    decreases |rows|
  {
    if rows != [] { CountWithin(rows[..|rows| - 1]); }
  }

  lemma CountsAfter(rows: seq<Row>, good: Row)
    requires Passed(good) && Grounded(good)
    ensures var longer := rows + [good];
            && |PassedRows(longer)| == |PassedRows(rows)| + 1
            && Count(longer, Grounded) == Count(rows, Grounded) + 1
            && Count(longer, Graded) == Count(rows, Graded) + 1
    ensures |PassedRows(rows)| <= |rows| && Count(rows, Grounded) <= Count(rows, Graded)
  {
    assert (rows + [good])[..|rows|] == rows;
    PassedRowsAre(rows, good);
    CountWithin(rows);
  }

  lemma RatioGrows(a: nat, b: nat, c: nat, d: nat)
    requires a <= b && c == a + 1 && d == b + 1
    ensures Ratio(a, b) <= Ratio(c, d)
  {
    RatioRises(a, b);
  }

  lemma PassRateRises(rows: seq<Row>, good: Row)
    requires Passed(good) && Grounded(good)
    ensures Evidence(rows).passRate <= Evidence(rows + [good]).passRate
  {
    CountsAfter(rows, good);
    RatioGrows(|PassedRows(rows)|, |rows|, |PassedRows(rows + [good])|, |rows + [good]|);
  }

  lemma GroundingRises(rows: seq<Row>, good: Row)
    requires Passed(good) && Grounded(good)
    ensures Evidence(rows).grounding <= Evidence(rows + [good]).grounding
  {
    CountsAfter(rows, good);
    var longer := rows + [good];
    RatioGrows(Count(rows, Grounded), Count(rows, Graded), Count(longer, Grounded), Count(longer, Graded));
  }

  lemma LevelAndConfidenceRise(rows: seq<Row>, good: Row)
    requires Passed(good) && rows != []
    ensures var (s, t) := (Evidence(rows), Evidence(rows + [good]));
            && s.confidence <= t.confidence
            && (s.highest.Some? ==> t.highest.Some? && Order(s.highest.value) <= Order(t.highest.value))
            && s.modes == t.modes
  {
    assert (rows + [good])[..|rows|] == rows;
    HighestGrows(PassedRows(rows), good);
    RoundingRises(Confidence(rows), Confidence(rows + [good]));
  }

  lemma BetterStatsBetterRole(s: Stats, t: Stats, least: real)
    requires s.passRate <= t.passRate && s.grounding <= t.grounding && s.confidence <= t.confidence
    requires s.highest.Some? ==> t.highest.Some? && Order(s.highest.value) <= Order(t.highest.value)
    requires s.modes == t.modes
    ensures Rank(RoleFor(t, least)) <= Rank(RoleFor(s, least))
  {
    var role := RoleFor(s, least);
    if role != Unqualified {
      FloorsNest(s, role, role, least);
      assert Blocked(s, role) == Blocked(t, role);
      FloorsNest(t, role, role, least);
    }
  }

  lemma GoodRowNeverHurts(rows: seq<Row>, good: Row, least: real)
    requires Passed(good) && Grounded(good) && rows != []
    ensures Rank(RoleFor(Evidence(rows + [good]), least)) <= Rank(RoleFor(Evidence(rows), least))
  {
    PassRateRises(rows, good);
    GroundingRises(rows, good);
    LevelAndConfidenceRise(rows, good);
    BetterStatsBetterRole(Evidence(rows), Evidence(rows + [good]), least);
  }

  /** Adding a passing, correctly grounded row never lowers the role, wherever it is added and
      whatever its level and confidence. */
  lemma {:induction false} GoodEvidenceNeverHurts(rows: seq<Row>, good: Row, more: seq<Row>, least: real)
    requires Passed(good) && Grounded(good)
    requires multiset(more) == multiset(rows) + multiset{good}
    ensures Rank(RoleFor(Evidence(more), least)) <= Rank(RoleFor(Evidence(rows), least))
  {
    WhereverAdded(rows, good, more, least);
    if rows == [] {
      NoRowsNoRole(least);
    } else {
      GoodRowNeverHurts(rows, good, least);
    }
  }

  lemma {:induction false} WhereverAdded(rows: seq<Row>, good: Row, more: seq<Row>, least: real)
    requires multiset(more) == multiset(rows) + multiset{good}
    ensures RoleFor(Evidence(more), least) == RoleFor(Evidence(rows + [good]), least)
  {
    assert multiset(rows + [good]) == multiset(more);
    RoleIsUnordered(rows + [good], more, least);
  }

  lemma NoRowsNoRole(least: real)
    ensures RoleFor(Evidence([]), least) == Unqualified
  {
  }
}
