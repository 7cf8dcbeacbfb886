/** Golden-trace evaluation of the transition gate, and the shadow metrics computed from its report. */
module Traces {
  import opened Common
  import opened Scanner
  import opened Evidence
  import opened ScannerMeaning

  // ---------- data ----------

  datatype Expected = Expected(kind: Kind, span: string)

  datatype Case = Case(id: string, turn: string, requested: seq<Capability>, decision: Status, expected: seq<Expected>)

  datatype CaseReport = CaseReport(id: string, expected: Status, actual: Status, signals: nat, wanted: nat,
                                   matched: nat, missed: seq<Expected>)

  datatype TraceReport = TraceReport(cases: seq<CaseReport>, falseAllow: nat, unnecessaryClarification: nat,
                                     missedPaths: nat, evidenceCoverage: real)

  // ---------- one case ----------

  predicate HasKind(signals: seq<Signal>, k: Kind) {
    exists i :: 0 <= i < |signals| && signals[i].kind == k
  }

  function Decide(c: Case, signals: seq<Signal>): Status {
    if HasKind(signals, DestructiveIntent) then HumanReviewRequired
    else if ProtectedPathWrite in c.requested || HasKind(signals, ProtectedPathReference) then HumanReviewRequired
    else if RepoWrite in c.requested then
      if !HasKind(signals, WriteIntent) then ClarificationRequired
      else if !HasKind(signals, PathReference) || !HasKind(signals, RepositoryReference) then ClarificationRequired
      else RecompositionRequired
    else Allowed
  }

  predicate Present(x: Expected, signals: seq<Signal>) {
    exists i :: 0 <= i < |signals| && signals[i].kind == x.kind && signals[i].span == x.span
  }

  function MissedCheck(signals: seq<Signal>): Expected -> seq<Expected> {
    (x: Expected) => if Present(x, signals) then [] else [x]
  }

  function Missed(expected: seq<Expected>, signals: seq<Signal>): seq<Expected> {
    FlatMap(expected, MissedCheck(signals))
  }

  /** `_signal_coverage`: every expected signal is either matched or listed as missed. */
  method SignalCoverage(expected: seq<Expected>, signals: seq<Signal>) returns (matched: nat, missed: seq<Expected>)
    ensures missed == Missed(expected, signals)
    ensures matched + |missed| == |expected|
  {
    matched, missed := 0, [];
    for i := 0 to |expected|
      invariant missed == FlatMap(expected[..i], MissedCheck(signals))
      invariant matched + |missed| == i
    {
      FlatMapStep(expected, i, MissedCheck(signals));
      if Present(expected[i], signals) {
        matched := matched + 1;
      } else {
        missed := missed + [expected[i]];
      }
    }
    assert expected[..|expected|] == expected;
  }

  function ReportFor(p: Patterns, c: Case): CaseReport {
    var signals := Scan(p, "turn-" + c.id, c.turn);
    var missed := Missed(c.expected, signals);
    CaseReport(c.id, c.decision, Decide(c, signals), |signals|, |c.expected|, Max(|c.expected| - |missed|, 0), missed)
  }

  function Reports(p: Patterns, cases: seq<Case>): seq<CaseReport> {
    seq(|cases|, i requires 0 <= i < |cases| => ReportFor(p, cases[i]))
  }

  method EvaluateCase(p: Patterns, c: Case) returns (r: CaseReport)
    ensures r == ReportFor(p, c)
  {
    var signals := ScanTransitionSignals(p, "turn-" + c.id, c.turn);
    var matched, missed := SignalCoverage(c.expected, signals);
    r := CaseReport(c.id, c.decision, Decide(c, signals), |signals|, |c.expected|, matched, missed);
  }

  // ---------- the suite ----------

  predicate FalseAllow(r: CaseReport) {
    r.expected != Allowed && r.actual == Allowed
  }

  predicate UnnecessaryClarification(r: CaseReport) {
    r.expected != ClarificationRequired && r.actual == ClarificationRequired
  }

  predicate IsPath(x: Expected) {
    x.kind == PathReference
  }

  function MissedPathCount(r: CaseReport): nat {
    CountIf(r.missed, IsPath)
  }

  predicate Failing(r: CaseReport) {
    r.actual != r.expected || r.missed != []
  }

  function FailedId(r: CaseReport): seq<string> {
    if Failing(r) then [r.id] else []
  }

  /** No case deviates from its expectations. */
  ghost predicate Passes(p: Patterns, cases: seq<Case>) {
    forall i :: 0 <= i < |cases| ==> !Failing(Reports(p, cases)[i])
  }

  function Wanted(r: CaseReport): nat {
    r.wanted
  }

  function MatchedOf(r: CaseReport): nat {
    r.matched
  }

  function CoverageRate(wanted: nat, matched: nat): real {
    if wanted == 0 then 1.0 else matched as real / wanted as real
  }

  /** The five counters of the evaluation. */
  datatype Tally = Tally(falseAllow: nat, unnecessary: nat, missedPaths: nat, wanted: nat, matched: nat)

  function TallyOf(rs: seq<CaseReport>): Tally {
    Tally(CountIf(rs, FalseAllow), CountIf(rs, UnnecessaryClarification), SumOf(rs, MissedPathCount),
          SumOf(rs, Wanted), SumOf(rs, MatchedOf))
  }

  function Summarize(rs: seq<CaseReport>): TraceReport {
    var t := TallyOf(rs);
    TraceReport(rs, t.falseAllow, t.unnecessary, t.missedPaths, CoverageRate(t.wanted, t.matched))
  }

  /** What the evaluation has gathered so far. */
  datatype Evaluation = Evaluation(reports: seq<CaseReport>, tally: Tally, failed: seq<string>)

  ghost predicate Gathered(v: Evaluation, all: seq<CaseReport>, i: nat) {
    i <= |all| && v.reports == all[..i] && v.tally == TallyOf(all[..i]) && v.failed == FlatMap(all[..i], FailedId)
  }

  /** One turn of the evaluation loop, after the case was scanned and decided. */
  method CountCase(v: Evaluation, r: CaseReport, ghost all: seq<CaseReport>, ghost i: nat) returns (v': Evaluation)
    requires Gathered(v, all, i) && i < |all| && all[i] == r
    ensures Gathered(v', all, i + 1)
  {
    CountIfStep(all, i, FalseAllow);
    CountIfStep(all, i, UnnecessaryClarification);
    FlatMapStep(all, i, FailedId);
    SumOfStep(all, i, MissedPathCount);
    SumOfStep(all, i, Wanted);
    SumOfStep(all, i, MatchedOf);
    var t, failed := v.tally, v.failed;
    t := t.(wanted := t.wanted + r.wanted, matched := t.matched + r.matched);
    if r.expected != Allowed && r.actual == Allowed {
      t := t.(falseAllow := t.falseAllow + 1);
    }
    if r.expected != ClarificationRequired && r.actual == ClarificationRequired {
      t := t.(unnecessary := t.unnecessary + 1);
    }
    t := t.(missedPaths := t.missedPaths + CountIf(r.missed, IsPath));
    if r.actual != r.expected || r.missed != [] {
      failed := failed + [r.id];
    }
    v' := Evaluation(v.reports + [r], t, failed);
  }

  /** `evaluate_intent_transition_traces`: the error carries the ids of the failed cases. */
  method EvaluateTraces(p: Patterns, cases: seq<Case>) returns (outcome: Result<TraceReport, seq<string>>)
    ensures outcome.Failure? <==> !Passes(p, cases)
    ensures outcome.Success? ==> outcome.value == Summarize(Reports(p, cases))
    ensures outcome.Failure? ==> outcome.error == FlatMap(Reports(p, cases), FailedId)
  {
    var v := Evaluation([], Tally(0, 0, 0, 0, 0), []);
    for i := 0 to |cases|
      invariant Gathered(v, Reports(p, cases), i)
    {
      var r := EvaluateCase(p, cases[i]);
      v := CountCase(v, r, Reports(p, cases), i);
    }
    outcome := Conclude(v, Reports(p, cases));
  }

  method Conclude(v: Evaluation, ghost all: seq<CaseReport>) returns (outcome: Result<TraceReport, seq<string>>)
    requires Gathered(v, all, |all|)
    ensures outcome.Failure? <==> !forall i :: 0 <= i < |all| ==> !Failing(all[i])
    ensures outcome.Success? ==> outcome.value == Summarize(all)
    ensures outcome.Failure? ==> outcome.error == FlatMap(all, FailedId)
  {
    assert all[..|all|] == all;
    FlatMapEmpty(all, FailedId);
    if v.failed != [] {
      return Failure(v.failed);
    }
    return Success(TraceReport(v.reports, v.tally.falseAllow, v.tally.unnecessary, v.tally.missedPaths,
                               CoverageRate(v.tally.wanted, v.tally.matched)));
  }

  // ---------- shadow metrics ----------

  datatype Metrics = Metrics(
    falseAllowRate: real,
    unnecessaryClarificationRate: real,
    missedProtectedPathRate: real,
    evidenceCoverageRate: real,
    unknownToBlockRate: real,
    protectedPathEscalationRate: real
  )

  datatype MetricError = DivisionByZero

  predicate ExpectsReview(r: CaseReport) {
    r.expected == HumanReviewRequired
  }

  predicate ExpectsClarification(r: CaseReport) {
    r.expected == ClarificationRequired
  }

  predicate ReviewedAsExpected(r: CaseReport) {
    r.expected == HumanReviewRequired && r.actual == HumanReviewRequired
  }

  predicate ClarifiedAsExpected(r: CaseReport) {
    r.expected == ClarificationRequired && r.actual == ClarificationRequired
  }

  predicate ExpectsProtectedPath(c: Case) {
    exists i :: 0 <= i < |c.expected| && c.expected[i].kind == ProtectedPathReference
  }

  function MissedProtected(cases: seq<Case>): CaseReport -> bool {
    (r: CaseReport) =>
      (exists i :: 0 <= i < |cases| && ExpectsProtectedPath(cases[i]) && cases[i].id == r.id) && r.missed != []
  }

  function Rate(part: nat, whole: nat): (r: real)
    requires whole > 0
    ensures (part == 0 ==> r == 0.0) && (part == whole ==> r == 1.0)
  {
    assert whole as real / whole as real == 1.0;
    part as real / whole as real
  }

  /** `_metrics`; two of the divisors are the number of cases, which may be zero. */
  function MetricsOf(report: TraceReport, cases: seq<Case>): Result<Metrics, MetricError> {
    var rs := report.cases;
    if rs == [] then Failure(DivisionByZero)
    else
      var reviews, ambiguous := Max(CountIf(rs, ExpectsReview), 1), Max(CountIf(rs, ExpectsClarification), 1);
      Success(Metrics(
        Rate(report.falseAllow, |rs|),
        Rate(report.unnecessaryClarification, |rs|),
        Rate(CountIf(rs, MissedProtected(cases)), reviews),
        report.evidenceCoverage,
        Rate(CountIf(rs, ClarifiedAsExpected), ambiguous),
        Rate(CountIf(rs, ReviewedAsExpected), reviews)))
  }

  ghost predicate Balanced(r: CaseReport) {
    r.matched + |r.missed| == r.wanted
  }

  lemma {:induction false} MissedAtMost(expected: seq<Expected>, signals: seq<Signal>)
    ensures |Missed(expected, signals)| <= |expected|
  {
    if expected != [] {
      MissedAtMost(expected[..|expected| - 1], signals);
    }
  }

  lemma ReportBalanced(p: Patterns, c: Case)
    ensures Balanced(ReportFor(p, c)) && ReportFor(p, c).expected == c.decision
  {
    MissedAtMost(c.expected, Scan(p, "turn-" + c.id, c.turn));
  }

  lemma PassingCounts(rs: seq<CaseReport>)
    requires forall i :: 0 <= i < |rs| ==> !Failing(rs[i]) && Balanced(rs[i])
    ensures var t := Summarize(rs);
            t.falseAllow == 0 && t.unnecessaryClarification == 0 && t.missedPaths == 0 && t.evidenceCoverage == 1.0
  {
    CountIfZero(rs, FalseAllow);
    CountIfZero(rs, UnnecessaryClarification);
    SumOfZero(rs, MissedPathCount);
    SumOfSame(rs, Wanted, MatchedOf);
    var n := SumOf(rs, Wanted);
    assert n > 0 ==> n as real / n as real == 1.0;
  }

  lemma {:induction false} SumOfZero<T>(xs: seq<T>, f: T -> nat)
    requires forall i :: 0 <= i < |xs| ==> f(xs[i]) == 0
    ensures SumOf(xs, f) == 0
  {
    if xs != [] {
      SumOfZero(xs[..|xs| - 1], f);
    }
  }

  lemma FullRate(n: nat)
    ensures Rate(n, Max(n, 1)) == if n == 0 then 0.0 else 1.0
  {
  }

  /**
   Whenever the trace evaluation returns instead of raising, the metrics of a non-empty suite are
   fixed: no false allow, no needless clarification, no missed protected path, full coverage, and
   the two conversion rates say only whether the suite has a case of their kind.
   */
  lemma ShadowMetricsAreForced(p: Patterns, cases: seq<Case>)
    requires Passes(p, cases) && cases != []
    ensures MetricsOf(Summarize(Reports(p, cases)), cases) ==
            Success(Metrics(
                      0.0, 0.0, 0.0, 1.0,
                      if exists i :: 0 <= i < |cases| && cases[i].decision == ClarificationRequired then 1.0 else 0.0,
                      if exists i :: 0 <= i < |cases| && cases[i].decision == HumanReviewRequired then 1.0 else 0.0))
  {
    var rs := Reports(p, cases);
    forall i | 0 <= i < |rs| ensures Balanced(rs[i]) && rs[i].expected == cases[i].decision {
      ReportBalanced(p, cases[i]);
    }
    MetricsForced(rs, cases);
  }

  lemma MetricsForced(rs: seq<CaseReport>, cases: seq<Case>)
    requires rs != [] && |rs| == |cases|
    requires forall i :: 0 <= i < |rs| ==> !Failing(rs[i]) && Balanced(rs[i]) && rs[i].expected == cases[i].decision
    ensures MetricsOf(Summarize(rs), cases) ==
            Success(Metrics(
                      0.0, 0.0, 0.0, 1.0,
                      if exists i :: 0 <= i < |cases| && cases[i].decision == ClarificationRequired then 1.0 else 0.0,
                      if exists i :: 0 <= i < |cases| && cases[i].decision == HumanReviewRequired then 1.0 else 0.0))
  {
    PassingCounts(rs);
    NothingMissed(rs, cases);
    ClarificationRate(rs, cases);
    ReviewRate(rs, cases);
  }

  lemma NothingMissed(rs: seq<CaseReport>, cases: seq<Case>)
    requires |rs| == |cases| && forall i :: 0 <= i < |rs| ==> !Failing(rs[i])
    ensures CountIf(rs, MissedProtected(cases)) == 0
  {
    CountIfZero(rs, MissedProtected(cases));
  }

  lemma ClarificationRate(rs: seq<CaseReport>, cases: seq<Case>)
    requires |rs| == |cases| && forall i :: 0 <= i < |rs| ==> !Failing(rs[i]) && rs[i].expected == cases[i].decision
    ensures Rate(CountIf(rs, ClarifiedAsExpected), Max(CountIf(rs, ExpectsClarification), 1)) ==
            if exists i :: 0 <= i < |cases| && cases[i].decision == ClarificationRequired then 1.0 else 0.0
  {
    CountIfSame(rs, ClarifiedAsExpected, ExpectsClarification);
    CountIfZero(rs, ExpectsClarification);
    FullRate(CountIf(rs, ExpectsClarification));
  }

  lemma ReviewRate(rs: seq<CaseReport>, cases: seq<Case>)
    requires |rs| == |cases| && forall i :: 0 <= i < |rs| ==> !Failing(rs[i]) && rs[i].expected == cases[i].decision
    ensures Rate(CountIf(rs, ReviewedAsExpected), Max(CountIf(rs, ExpectsReview), 1)) ==
            if exists i :: 0 <= i < |cases| && cases[i].decision == HumanReviewRequired then 1.0 else 0.0
  {
    CountIfSame(rs, ReviewedAsExpected, ExpectsReview);
    CountIfZero(rs, ExpectsReview);
    FullRate(CountIf(rs, ExpectsReview));
  }

  // ---------- what a case means ----------

  /** The decision on a case, by the kinds of its signals and the capabilities it asks for. */
  lemma DecideMeans(c: Case, signals: seq<Signal>)
    ensures var review := HasKind(signals, DestructiveIntent) || HasKind(signals, ProtectedPathReference) ||
                          ProtectedPathWrite in c.requested;
            var ready := HasKind(signals, WriteIntent) && HasKind(signals, PathReference) &&
                         HasKind(signals, RepositoryReference);
            && (Decide(c, signals) == HumanReviewRequired <==> review)
            && (Decide(c, signals) == Allowed <==> !review && RepoWrite !in c.requested)
            && (Decide(c, signals) == ClarificationRequired <==> !review && RepoWrite in c.requested && !ready)
            && (Decide(c, signals) == RecompositionRequired <==> !review && RepoWrite in c.requested && ready)
  {
  }

  lemma KindOfMatch(p: Patterns, id: string, text: string, k: Kind, ms: seq<Span>)
    requires Matching(p, text)
    requires || (k == DestructiveIntent && ms == p.destructive(text)) || (k == WriteIntent && ms == p.write(text))
             || (k == RepositoryReference && ms == p.repository(text))
    ensures HasKind(Scan(p, id, text), k) <==> ms != []
  {
    var signals := Scan(p, id, text);
    if HasKind(signals, k) {
      var i :| 0 <= i < |signals| && signals[i].kind == k;
      ScanMeans(p, id, text, signals[i]);
    }
    if ms != [] {
      var span := text[ms[0].start..ms[0].end];
      var s := Signal(k, span, id, p.hash(text), span, ms[0].start, ms[0].end, SourceOf(k), NoPath);
      assert ms[0] == Span(s.start, s.end) && ms[0] in ms;
      ScanMeans(p, id, text, s);
      var i :| 0 <= i < |signals| && signals[i] == s;
    }
  }

  ghost predicate SomePath(p: Patterns, text: string) {
    exists a: nat, b: nat :: PathAt(p, text, a, b)
  }

  ghost predicate GuardedAt(p: Patterns, text: string, a: nat, b: nat) {
    PathAt(p, text, a, b) && Guarded(text[a..b])
  }

  ghost predicate SomeGuardedPath(p: Patterns, text: string) {
    exists a: nat, b: nat :: GuardedAt(p, text, a, b)
  }

  lemma KindOfPath(p: Patterns, id: string, text: string)
    requires Matching(p, text)
    ensures HasKind(Scan(p, id, text), PathReference) <==> SomePath(p, text)
  {
    var signals := Scan(p, id, text);
    if HasKind(signals, PathReference) {
      var i :| 0 <= i < |signals| && signals[i].kind == PathReference;
      ScanMeans(p, id, text, signals[i]);
      assert PathAt(p, text, signals[i].start, signals[i].end);
    }
    if SomePath(p, text) {
      var a: nat, b: nat :| PathAt(p, text, a, b);
      var v := text[a..b];
      InScan(p, id, text, Signal(PathReference, v, id, p.hash(text), v, a, b, FromPath, PathKindOf(v)));
    }
  }

  lemma KindOfGuardedPath(p: Patterns, id: string, text: string)
    requires Matching(p, text)
    ensures HasKind(Scan(p, id, text), ProtectedPathReference) <==> SomeGuardedPath(p, text)
  {
    var signals := Scan(p, id, text);
    if HasKind(signals, ProtectedPathReference) {
      var i :| 0 <= i < |signals| && signals[i].kind == ProtectedPathReference;
      ScanMeans(p, id, text, signals[i]);
      assert GuardedAt(p, text, signals[i].start, signals[i].end);
    }
    if SomeGuardedPath(p, text) {
      var a: nat, b: nat :| GuardedAt(p, text, a, b);
      var v := text[a..b];
      InScan(p, id, text,
             Signal(ProtectedPathReference, v, id, p.hash(text), v, a, b, FromProtectedPath, PathKindOf(v)));
    }
  }

  lemma InScan(p: Patterns, id: string, text: string, s: Signal)
    requires Matching(p, text) && QuotedFrom(p, id, text, s) && StandsFor(p, text, s)
    ensures HasKind(Scan(p, id, text), s.kind)
  {
    ScanMeans(p, id, text, s);
    var signals := Scan(p, id, text);
    var i :| 0 <= i < |signals| && signals[i] == s;
  }

  /**
   A turn needs human review if and only if its text matches the destructive pattern, some path in
   it is guarded, or a protected write is requested.
   */
  lemma ReviewMeans(p: Patterns, c: Case)
    requires Matching(p, c.turn)
    ensures ReportFor(p, c).actual == HumanReviewRequired <==>
            || p.destructive(c.turn) != [] || ProtectedPathWrite in c.requested
            || SomeGuardedPath(p, c.turn)
  {
    var id := "turn-" + c.id;
    DecideMeans(c, Scan(p, id, c.turn));
    KindOfMatch(p, id, c.turn, DestructiveIntent, p.destructive(c.turn));
    KindOfGuardedPath(p, id, c.turn);
  }

  /** A write without review goes on only where write intent, a path and the repository are named. */
  lemma RecompositionMeans(p: Patterns, c: Case)
    requires Matching(p, c.turn)
    ensures ReportFor(p, c).actual == RecompositionRequired <==>
            && ReportFor(p, c).actual != HumanReviewRequired && RepoWrite in c.requested
            && p.write(c.turn) != [] && p.repository(c.turn) != [] && SomePath(p, c.turn)
  {
    var id := "turn-" + c.id;
    DecideMeans(c, Scan(p, id, c.turn));
    KindOfMatch(p, id, c.turn, WriteIntent, p.write(c.turn));
    KindOfMatch(p, id, c.turn, RepositoryReference, p.repository(c.turn));
    KindOfPath(p, id, c.turn);
  }

  /** The missed signals are the expected ones whose kind and span no signal has. */
  lemma MissedMeans(p: Patterns, c: Case, x: Expected)
    ensures x in ReportFor(p, c).missed <==>
            x in c.expected &&
            forall i :: 0 <= i < |Scan(p, "turn-" + c.id, c.turn)| ==>
              var s := Scan(p, "turn-" + c.id, c.turn)[i]; !(s.kind == x.kind && s.span == x.span)
  {
    var signals := Scan(p, "turn-" + c.id, c.turn);
    FlatMapMember(c.expected, MissedCheck(signals), x);
    if x in c.expected {
      var i :| 0 <= i < |c.expected| && c.expected[i] == x;
      assert x in MissedCheck(signals)(c.expected[i]) <==> !Present(x, signals);
    }
  }

  /** The other entries of a case report. */
  lemma ReportMeans(p: Patterns, c: Case)
    ensures var r := ReportFor(p, c);
            && r.id == c.id && r.expected == c.decision && r.signals == |Scan(p, "turn-" + c.id, c.turn)|
            && r.wanted == |c.expected| && r.matched + |r.missed| == r.wanted
  {
    ReportBalanced(p, c);
  }
}
