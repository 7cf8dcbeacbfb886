/**
 The branch-protection ruleset: validation of the desired state, and comparison of the live state
 with it.  Parameter values keep Python's equality, under which `True == 1` and `False == 0`.
 */
module Ruleset {
  import opened Common

  // ---------- data ----------

  /** A JSON scalar as a dictionary lookup returns it; `Absent` is a missing or null value. */
  datatype Scalar = Absent | Bool(b: bool) | Int(n: int) | Text(s: string)

  predicate PyEq(a: Scalar, b: Scalar) {
    match (a, b)
    case (Bool(x), Int(n)) => n == if x then 1 else 0
    case (Int(n), Bool(x)) => n == if x then 1 else 0
    case _ => a == b
  }

  datatype Params = Params(
    reviewCount: Option<int>,
    codeOwnerReview: Scalar,
    dismissStale: Scalar,
    lastPushApproval: Scalar,
    threadResolution: Scalar,
    mergeMethods: Option<seq<string>>,
    strictChecks: Scalar,
    checks: seq<Check>
  )

  datatype Check = Check(context: string) | OtherCheck  // an item without a text as context

  datatype Rule = Rule(type_: string, params: Params) | NotARule

  datatype Ruleset = Ruleset(name: Scalar, target: Scalar, enforcement: Scalar, branches: seq<string>,
                             otherConditions: string, rules: seq<Rule>)

  const NO_PARAMS: Params := Params(None, Absent, Absent, Absent, Absent, None, Absent, [])

  function RequiredRuleTypes(): set<string> {
    {"deletion", "non_fast_forward", "required_signatures", "pull_request", "required_status_checks"}
  }

  function RequiredChecks(): set<string> {
    {"Contract tests", "Cloudflare Worker", "Repository governance gates", "Secret scanning", "Dependency audit",
     "policy-as-code-gate", "dependency-review", "analyze"}
  }

  // ---------- lookups ----------

  /** Parameters of the first rule of a type, empty when there is none. */
  function ParamsOf(rules: seq<Rule>, type_: string): Params {
    if rules == [] then NO_PARAMS
    else if rules[0].Rule? && rules[0].type_ == type_ then rules[0].params
    else ParamsOf(rules[1..], type_)
  }

  /** `rule_by_type` with its default. */
  method RuleParams(r: Ruleset, type_: string) returns (params: Params)
    ensures params == ParamsOf(r.rules, type_)
  {
    var i := 0;
    while i < |r.rules|
      invariant i <= |r.rules|
      invariant ParamsOf(r.rules[i..], type_) == ParamsOf(r.rules, type_)
    {
      assert r.rules[i..][1..] == r.rules[i + 1..];
      if r.rules[i].Rule? && r.rules[i].type_ == type_ {
        return r.rules[i].params;
      }
      i := i + 1;
    }
    return NO_PARAMS;
  }

  function RuleTypes(r: Ruleset): set<string> {
    set i | 0 <= i < |r.rules| && r.rules[i].Rule? :: r.rules[i].type_
  }

  function Contexts(p: Params): set<string> {
    set i | 0 <= i < |p.checks| && p.checks[i].Check? :: p.checks[i].context
  }

  function PullRequest(r: Ruleset): Params {
    ParamsOf(r.rules, "pull_request")
  }

  function StatusChecks(r: Ruleset): Params {
    ParamsOf(r.rules, "required_status_checks")
  }

  function Reviews(p: Params): int {
    if p.reviewCount.Some? then p.reviewCount.value else 0
  }

  // ---------- validation ----------

  datatype Failure =
    | WrongName | WrongTarget | NotActive | DefaultBranchMissing | RulesMissing(types: set<string>) | NoApproval
    | CodeOwnerReviewOn | LastPushApprovalOn | ThreadResolutionOff | NotStrict | ChecksMissing(contexts: set<string>)

  function When<T>(condition: bool, x: T): seq<T> {
    if condition then [x] else []
  }

  function HeadFailures(r: Ruleset): seq<Failure> {
    When(r.name != Text("main-protection"), WrongName) + When(r.target != Text("branch"), WrongTarget) +
    When(r.enforcement != Text("active"), NotActive) + When("~DEFAULT_BRANCH" !in r.branches, DefaultBranchMissing) +
    When(RequiredRuleTypes() - RuleTypes(r) != {}, RulesMissing(RequiredRuleTypes() - RuleTypes(r)))
  }

  function PullRequestFailures(p: Params): seq<Failure> {
    When(Reviews(p) < 1, NoApproval) + When(p.codeOwnerReview != Bool(false), CodeOwnerReviewOn) +
    When(p.lastPushApproval != Bool(false), LastPushApprovalOn) +
    When(p.threadResolution != Bool(true), ThreadResolutionOff)
  }

  function CheckFailures(p: Params): seq<Failure> {
    When(p.strictChecks != Bool(true), NotStrict) +
    When(RequiredChecks() - Contexts(p) != {}, ChecksMissing(RequiredChecks() - Contexts(p)))
  }

  function Failures(r: Ruleset): seq<Failure> {
    HeadFailures(r) + PullRequestFailures(PullRequest(r)) + CheckFailures(StatusChecks(r))
  }

  // ---------- comparison ----------

  datatype Severity = Low | Medium | High | Critical

  datatype Field =
    | Name | Target | Enforcement | Conditions | RuleTypesMissing | RuleTypesExtra | ApprovalCount | CodeOwnerReview
    | DismissStale | LastPushApproval | ThreadResolution | MergeMethods | StrictChecks | ContextsMissing | ContextsExtra

  datatype Finding = Finding(field: Field, severity: Severity)

  function HeadFindings(d: Ruleset, l: Ruleset): seq<Finding> {
    When(!PyEq(d.name, l.name), Finding(Name, Medium)) + When(!PyEq(d.target, l.target), Finding(Target, Medium)) +
    When(!PyEq(d.enforcement, l.enforcement), Finding(Enforcement, High)) +
    When(d.branches != l.branches || d.otherConditions != l.otherConditions, Finding(Conditions, Medium)) +
    When(RuleTypes(d) - RuleTypes(l) != {}, Finding(RuleTypesMissing, Critical)) +
    When(RuleTypes(l) - RuleTypes(d) != {}, Finding(RuleTypesExtra, Low))
  }

  function PullRequestFindings(d: Params, l: Params): seq<Finding> {
    When(Reviews(d) != Reviews(l), Finding(ApprovalCount, if Reviews(l) < Reviews(d) then Critical else Medium)) +
    When(!PyEq(d.codeOwnerReview, l.codeOwnerReview), Finding(CodeOwnerReview, High)) +
    When(!PyEq(d.dismissStale, l.dismissStale), Finding(DismissStale, High)) +
    When(!PyEq(d.lastPushApproval, l.lastPushApproval), Finding(LastPushApproval, High)) +
    When(!PyEq(d.threadResolution, l.threadResolution), Finding(ThreadResolution, High)) +
    When(d.mergeMethods != l.mergeMethods, Finding(MergeMethods, High))
  }

  function CheckFindings(d: Params, l: Params): seq<Finding> {
    When(!PyEq(d.strictChecks, l.strictChecks),
         Finding(StrictChecks,
                 if d.strictChecks == Bool(true) && l.strictChecks != Bool(true) then Critical else Medium)) +
    When(Contexts(d) - Contexts(l) != {}, Finding(ContextsMissing, Critical)) +
    When(Contexts(l) - Contexts(d) != {}, Finding(ContextsExtra, Low))
  }

  function Compare(desired: Ruleset, live: Ruleset): seq<Finding> {
    HeadFindings(desired, live) + PullRequestFindings(PullRequest(desired), PullRequest(live)) +
    CheckFindings(StatusChecks(desired), StatusChecks(live))
  }

  // ---------- how a failure of the live ruleset shows up as drift ----------

  /** The field and severity under which a failing live ruleset drifts from a valid desired one. */
  function Shows(f: Failure): Finding {
    match f
    case WrongName => Finding(Name, Medium)
    case WrongTarget => Finding(Target, Medium)
    case NotActive => Finding(Enforcement, High)
    case DefaultBranchMissing => Finding(Conditions, Medium)
    case RulesMissing(_) => Finding(RuleTypesMissing, Critical)
    case NoApproval => Finding(ApprovalCount, Critical)
    case CodeOwnerReviewOn => Finding(CodeOwnerReview, High)
    case LastPushApprovalOn => Finding(LastPushApproval, High)
    case ThreadResolutionOff => Finding(ThreadResolution, High)
    case NotStrict => Finding(StrictChecks, Critical)
    case ChecksMissing(_) => Finding(ContextsMissing, Critical)
  }

  /** The failure is a switch written as the number that equals the demanded boolean. */
  predicate Numeric(r: Ruleset, f: Failure) {
    || (f == CodeOwnerReviewOn && PullRequest(r).codeOwnerReview == Int(0))
    || (f == LastPushApprovalOn && PullRequest(r).lastPushApproval == Int(0))
    || (f == ThreadResolutionOff && PullRequest(r).threadResolution == Int(1))
    || (f == NotStrict && StatusChecks(r).strictChecks == Int(1))
  }

  lemma HeadFailureShows(d: Ruleset, l: Ruleset, f: Failure)
    requires HeadFailures(d) == [] && f in HeadFailures(l)
    ensures Shows(f) in HeadFindings(d, l)
  {
    assert d.name == Text("main-protection") && d.target == Text("branch") && d.enforcement == Text("active");
    assert "~DEFAULT_BRANCH" in d.branches && RequiredRuleTypes() - RuleTypes(d) == {};
    HeadKinds(l, f);
    match f {
      case WrongName => assert !PyEq(d.name, l.name);
      case WrongTarget => assert !PyEq(d.target, l.target);
      case NotActive => assert !PyEq(d.enforcement, l.enforcement);
      case DefaultBranchMissing => assert d.branches != l.branches;
      case RulesMissing(_) => Missing(RequiredRuleTypes(), RuleTypes(d), RuleTypes(l));
    }
  }

  lemma Missing(required: set<string>, desired: set<string>, live: set<string>)
    requires required - desired == {} && required - live != {}
    ensures desired - live != {}
  {
    var x :| x in required - live;
    assert x !in required - desired;
    assert x in desired - live;
  }

  lemma ValidPullRequest(p: Params)
    requires PullRequestFailures(p) == []
    ensures Reviews(p) >= 1 && p.codeOwnerReview == Bool(false) && p.lastPushApproval == Bool(false)
    ensures p.threadResolution == Bool(true)
  {
  }

  /** The reason for the failure, without the lists. */
  predicate Breaks(p: Params, f: Failure) {
    || (f == NoApproval && Reviews(p) < 1)
    || (f == CodeOwnerReviewOn && p.codeOwnerReview != Bool(false) && p.codeOwnerReview != Int(0))
    || (f == LastPushApprovalOn && p.lastPushApproval != Bool(false) && p.lastPushApproval != Int(0))
    || (f == ThreadResolutionOff && p.threadResolution != Bool(true) && p.threadResolution != Int(1))
  }

  lemma BreaksShows(d: Params, l: Params, f: Failure)
    requires Reviews(d) >= 1 && d.codeOwnerReview == Bool(false) && d.lastPushApproval == Bool(false)
    requires d.threadResolution == Bool(true) && Breaks(l, f)
    ensures Shows(f) in PullRequestFindings(d, l)
  {
  }

  lemma PullRequestFailureShows(d: Params, l: Params, f: Failure)
    requires PullRequestFailures(d) == [] && f in PullRequestFailures(l)
    requires f == CodeOwnerReviewOn ==> l.codeOwnerReview != Int(0)
    requires f == LastPushApprovalOn ==> l.lastPushApproval != Int(0)
    requires f == ThreadResolutionOff ==> l.threadResolution != Int(1)
    ensures Shows(f) in PullRequestFindings(d, l)
  {
    ValidPullRequest(d);
    PullRequestKinds(l, f);
    BreaksShows(d, l, f);
  }

  lemma CheckFailureShows(d: Params, l: Params, f: Failure)
    requires CheckFailures(d) == [] && f in CheckFailures(l)
    requires f == NotStrict ==> l.strictChecks != Int(1)
    ensures Shows(f) in CheckFindings(d, l)
  {
    assert d.strictChecks == Bool(true) && RequiredChecks() - Contexts(d) == {};
    CheckKinds(l, f);
    match f {
      case NotStrict => assert !PyEq(d.strictChecks, l.strictChecks);
      case ChecksMissing(_) => Missing(RequiredChecks(), Contexts(d), Contexts(l));
    }
  }

  /**
   Against a valid desired ruleset, every validation failure of the live one is reported as drift,
   at a severity fixed by the failure alone, unless it is a switch written as a number.
   */
  lemma FailureShows(desired: Ruleset, live: Ruleset, f: Failure)
    requires Failures(desired) == [] && f in Failures(live) && !Numeric(live, f)
    ensures Shows(f) in Compare(desired, live)
  {
    if f in HeadFailures(live) {
      HeadFailureShows(desired, live, f);
    } else if f in PullRequestFailures(PullRequest(live)) {
      PullRequestFailureShows(PullRequest(desired), PullRequest(live), f);
    } else {
      CheckFailureShows(StatusChecks(desired), StatusChecks(live), f);
    }
  }

  /** No finding counts as critical or high in the drift summary. */
  ghost predicate Quiet(findings: seq<Finding>) {
    forall i :: 0 <= i < |findings| ==> findings[i].severity == Low || findings[i].severity == Medium
  }

  /** The four checked switches of a ruleset are not written as the numbers that equal them. */
  predicate GenuineSwitches(r: Ruleset) {
    && PullRequest(r).codeOwnerReview != Int(0) && PullRequest(r).lastPushApproval != Int(0)
    && PullRequest(r).threadResolution != Int(1) && StatusChecks(r).strictChecks != Int(1)
  }

  /** The parts of a ruleset whose drift is never more than medium. */
  predicate RightPlace(r: Ruleset) {
    r.name == Text("main-protection") && r.target == Text("branch") && "~DEFAULT_BRANCH" in r.branches
  }

  /**
   A live ruleset whose drift summary counts nothing critical or high is valid if and only if it
   has the right name, target and branch and its switches are genuine booleans.
   */
  lemma QuietDriftTransfers(desired: Ruleset, live: Ruleset)
    requires Failures(desired) == [] && Quiet(Compare(desired, live))
    ensures Failures(live) == [] <==> RightPlace(live) && GenuineSwitches(live)
  {
    if RightPlace(live) && GenuineSwitches(live) && Failures(live) != [] {
      var f := Failures(live)[0];
      assert !Numeric(live, f);
      FailureShows(desired, live, f);
      QuietShows(Compare(desired, live), f);
      HeadFailuresMean(live, f);
      assert false;
    }
    if Failures(live) == [] {
      assert HeadFailures(live) == [] && PullRequestFailures(PullRequest(live)) == [];
      assert CheckFailures(StatusChecks(live)) == [];
    }
  }

  lemma QuietShows(findings: seq<Finding>, f: Failure)
    requires Quiet(findings) && Shows(f) in findings
    ensures f == WrongName || f == WrongTarget || f == DefaultBranchMissing
  {
  }

  lemma HeadFailuresMean(r: Ruleset, f: Failure)
    requires RightPlace(r) && f in Failures(r)
    ensures f != WrongName && f != WrongTarget && f != DefaultBranchMissing
  {
    if f in HeadFailures(r) {
      HeadKinds(r, f);
    } else if f in PullRequestFailures(PullRequest(r)) {
      PullRequestKinds(PullRequest(r), f);
    } else {
      CheckKinds(StatusChecks(r), f);
    }
  }

  lemma HeadKinds(r: Ruleset, f: Failure)
    requires f in HeadFailures(r)
    ensures f.WrongName? || f.WrongTarget? || f.NotActive? || f.DefaultBranchMissing? || f.RulesMissing?
    ensures (f.WrongName? ==> r.name != Text("main-protection")) && (f.WrongTarget? ==> r.target != Text("branch"))
    ensures f.NotActive? ==> r.enforcement != Text("active")
    ensures f.DefaultBranchMissing? ==> "~DEFAULT_BRANCH" !in r.branches
    ensures f.RulesMissing? ==> RequiredRuleTypes() - RuleTypes(r) != {}
  {
  }

  lemma PullRequestKinds(p: Params, f: Failure)
    requires f in PullRequestFailures(p)
    ensures f.NoApproval? || f.CodeOwnerReviewOn? || f.LastPushApprovalOn? || f.ThreadResolutionOff?
    ensures (f.NoApproval? ==> Reviews(p) < 1) && (f.CodeOwnerReviewOn? ==> p.codeOwnerReview != Bool(false))
    ensures f.LastPushApprovalOn? ==> p.lastPushApproval != Bool(false)
    ensures f.ThreadResolutionOff? ==> p.threadResolution != Bool(true)
  {
  }

  lemma CheckKinds(p: Params, f: Failure)
    requires f in CheckFailures(p)
    ensures f.NotStrict? || f.ChecksMissing?
    ensures f.NotStrict? ==> p.strictChecks != Bool(true)
    ensures f.ChecksMissing? ==> RequiredChecks() - Contexts(p) != {}
  {
  }

  /**
   If the desired ruleset is valid and the live one shows no drift, the live one is valid exactly
   when its switches are genuine booleans: drift uses equality, validation uses identity.
   */
  lemma DriftFreeTransfers(desired: Ruleset, live: Ruleset)
    requires Failures(desired) == [] && Compare(desired, live) == []
    ensures Failures(live) == [] <==> GenuineSwitches(live)
  {
    QuietDriftTransfers(desired, live);
    assert HeadFailures(desired) == [] && HeadFindings(desired, live) == [];
  }

  /** A ruleset never drifts from itself. */
  lemma NoSelfDrift(r: Ruleset)
    ensures Compare(r, r) == []
  {
    assert HeadFindings(r, r) == [];
    assert PullRequestFindings(PullRequest(r), PullRequest(r)) == [];
    assert CheckFindings(StatusChecks(r), StatusChecks(r)) == [];
  }

  // ---------- what the two checks mean ----------

  /** Equal in every field that the comparison looks at. */
  ghost predicate Alike(d: Ruleset, l: Ruleset) {
    && PyEq(d.name, l.name) && PyEq(d.target, l.target) && PyEq(d.enforcement, l.enforcement)
    && d.branches == l.branches && d.otherConditions == l.otherConditions && RuleTypes(d) == RuleTypes(l)
    && AlikeReview(PullRequest(d), PullRequest(l))
    && PyEq(StatusChecks(d).strictChecks, StatusChecks(l).strictChecks)
    && Contexts(StatusChecks(d)) == Contexts(StatusChecks(l))
  }

  ghost predicate AlikeReview(d: Params, l: Params) {
    && Reviews(d) == Reviews(l) && PyEq(d.codeOwnerReview, l.codeOwnerReview) && PyEq(d.dismissStale, l.dismissStale)
    && PyEq(d.lastPushApproval, l.lastPushApproval) && PyEq(d.threadResolution, l.threadResolution)
    && d.mergeMethods == l.mergeMethods
  }

  lemma SameSets(a: set<string>, b: set<string>)
    ensures a == b <==> a - b == {} && b - a == {}
  {
    if a - b == {} && b - a == {} {
      forall x ensures x in a <==> x in b {
        assert x !in a - b && x !in b - a;
      }
    }
  }

  lemma HeadAlike(d: Ruleset, l: Ruleset)
    ensures HeadFindings(d, l) == [] <==>
            && PyEq(d.name, l.name) && PyEq(d.target, l.target) && PyEq(d.enforcement, l.enforcement)
            && d.branches == l.branches && d.otherConditions == l.otherConditions && RuleTypes(d) == RuleTypes(l)
  {
    SameSets(RuleTypes(d), RuleTypes(l));
  }

  lemma ReviewAlike(d: Params, l: Params)
    ensures PullRequestFindings(d, l) == [] <==> AlikeReview(d, l)
  {
  }

  lemma ChecksAlike(d: Params, l: Params)
    ensures CheckFindings(d, l) == [] <==> PyEq(d.strictChecks, l.strictChecks) && Contexts(d) == Contexts(l)
  {
    SameSets(Contexts(d), Contexts(l));
  }

  /** There is no finding if and only if every compared field is equal. */
  lemma NoDriftMeans(desired: Ruleset, live: Ruleset)
    ensures Compare(desired, live) == [] <==> Alike(desired, live)
  {
    HeadAlike(desired, live);
    ReviewAlike(PullRequest(desired), PullRequest(live));
    ChecksAlike(StatusChecks(desired), StatusChecks(live));
    var a, b, c := HeadFindings(desired, live), PullRequestFindings(PullRequest(desired), PullRequest(live)),
                   CheckFindings(StatusChecks(desired), StatusChecks(live));
    assert a + b + c == [] <==> a == [] && b == [] && c == [];
  }

  /** The drift that a finding stands for. */
  ghost predicate Drifts(d: Ruleset, l: Ruleset, f: Finding) {
    var dp, lp, dc, lc := PullRequest(d), PullRequest(l), StatusChecks(d), StatusChecks(l);
    match f.field
    case Name => f.severity == Medium && !PyEq(d.name, l.name)
    case Target => f.severity == Medium && !PyEq(d.target, l.target)
    case Enforcement => f.severity == High && !PyEq(d.enforcement, l.enforcement)
    case Conditions => f.severity == Medium && !(d.branches == l.branches && d.otherConditions == l.otherConditions)
    case RuleTypesMissing => f.severity == Critical && !(RuleTypes(d) <= RuleTypes(l))
    case RuleTypesExtra => f.severity == Low && !(RuleTypes(l) <= RuleTypes(d))
    case ApprovalCount =>
      (f.severity == Critical && Reviews(lp) < Reviews(dp)) || (f.severity == Medium && Reviews(lp) > Reviews(dp))
    case CodeOwnerReview => f.severity == High && !PyEq(dp.codeOwnerReview, lp.codeOwnerReview)
    case DismissStale => f.severity == High && !PyEq(dp.dismissStale, lp.dismissStale)
    case LastPushApproval => f.severity == High && !PyEq(dp.lastPushApproval, lp.lastPushApproval)
    case ThreadResolution => f.severity == High && !PyEq(dp.threadResolution, lp.threadResolution)
    case MergeMethods => f.severity == High && dp.mergeMethods != lp.mergeMethods
    case StrictChecks =>
      && !PyEq(dc.strictChecks, lc.strictChecks)
      && (f.severity == Critical <==> dc.strictChecks == Bool(true))
      && (f.severity == Medium <==> dc.strictChecks != Bool(true))
    case ContextsMissing => f.severity == Critical && !(Contexts(dc) <= Contexts(lc))
    case ContextsExtra => f.severity == Low && !(Contexts(lc) <= Contexts(dc))
  }

  lemma HeadDrifts(d: Ruleset, l: Ruleset, f: Finding)
    ensures f in HeadFindings(d, l) <==>
            f.field in {Name, Target, Enforcement, Conditions, RuleTypesMissing, RuleTypesExtra} && Drifts(d, l, f)
  {
    SubsetMeans(RuleTypes(d), RuleTypes(l));
    SubsetMeans(RuleTypes(l), RuleTypes(d));
  }

  lemma ReviewDrifts(d: Ruleset, l: Ruleset, f: Finding)
    ensures f in PullRequestFindings(PullRequest(d), PullRequest(l)) <==>
            && f.field in {ApprovalCount, CodeOwnerReview, DismissStale, LastPushApproval, ThreadResolution,
                           MergeMethods}
            && Drifts(d, l, f)
  {
  }

  lemma ChecksDrift(d: Ruleset, l: Ruleset, f: Finding)
    ensures f in CheckFindings(StatusChecks(d), StatusChecks(l)) <==>
            f.field in {StrictChecks, ContextsMissing, ContextsExtra} && Drifts(d, l, f)
  {
    SubsetMeans(Contexts(StatusChecks(d)), Contexts(StatusChecks(l)));
    SubsetMeans(Contexts(StatusChecks(l)), Contexts(StatusChecks(d)));
  }

  /** The findings are exactly the drifts, at their severities; losing strict checks is critical. */
  lemma FindingsMean(desired: Ruleset, live: Ruleset, f: Finding)
    ensures f in Compare(desired, live) <==> Drifts(desired, live, f)
  {
    HeadDrifts(desired, live, f);
    ReviewDrifts(desired, live, f);
    ChecksDrift(desired, live, f);
  }

  /** What a valid ruleset has. */
  ghost predicate Wellmade(r: Ruleset) {
    && r.name == Text("main-protection") && r.target == Text("branch") && r.enforcement == Text("active")
    && "~DEFAULT_BRANCH" in r.branches
    && {"deletion", "non_fast_forward", "required_signatures", "pull_request", "required_status_checks"} <= RuleTypes(r)
    && Reviews(PullRequest(r)) >= 1 && PullRequest(r).codeOwnerReview == Bool(false)
    && PullRequest(r).lastPushApproval == Bool(false) && PullRequest(r).threadResolution == Bool(true)
    && StatusChecks(r).strictChecks == Bool(true)
    && {"Contract tests", "Cloudflare Worker", "Repository governance gates", "Secret scanning", "Dependency audit",
        "policy-as-code-gate", "dependency-review", "analyze"} <= Contexts(StatusChecks(r))
  }

  lemma SubsetMeans(a: set<string>, b: set<string>)
    ensures a - b == {} <==> a <= b
  {
    if a - b == {} {
      forall x | x in a ensures x in b {
        assert x !in a - b;
      }
    }
  }

  lemma HeadWellmade(r: Ruleset)
    ensures HeadFailures(r) == [] <==>
            && r.name == Text("main-protection") && r.target == Text("branch") && r.enforcement == Text("active")
            && "~DEFAULT_BRANCH" in r.branches && RequiredRuleTypes() <= RuleTypes(r)
  {
    SubsetMeans(RequiredRuleTypes(), RuleTypes(r));
  }

  lemma ChecksWellmade(p: Params)
    ensures CheckFailures(p) == [] <==> p.strictChecks == Bool(true) && RequiredChecks() <= Contexts(p)
  {
    SubsetMeans(RequiredChecks(), Contexts(p));
  }

  /** Validation finds nothing if and only if the ruleset is well made. */
  lemma ValidMeans(r: Ruleset)
    ensures Failures(r) == [] <==> Wellmade(r)
  {
    HeadWellmade(r);
    ChecksWellmade(StatusChecks(r));
    var a, b, c := HeadFailures(r), PullRequestFailures(PullRequest(r)), CheckFailures(StatusChecks(r));
    assert a + b + c == [] <==> a == [] && b == [] && c == [];
  }

  // ---------- the versioned ruleset ----------

  const PULL_REQUEST: Params :=
    Params(Some(1), Bool(false), Bool(true), Bool(false), Bool(true), Some(["merge", "squash"]), Absent, [])

  const STATUS_CHECKS: Params :=
    Params(None, Absent, Absent, Absent, Absent, None, Bool(true),
           [Check("Contract tests"), Check("Cloudflare Worker"), Check("Repository governance gates"),
            Check("Secret scanning"), Check("Dependency audit"), Check("policy-as-code-gate"),
            Check("dependency-review"), Check("analyze")])

  /** The versioned desired state, with the given parameters of its pull-request rule. */
  function MainProtection(pullRequest: Params): Ruleset {
    Ruleset(Text("main-protection"), Text("branch"), Text("active"), ["~DEFAULT_BRANCH"], "",
            [Rule("deletion", NO_PARAMS), Rule("non_fast_forward", NO_PARAMS), Rule("required_signatures", NO_PARAMS),
             Rule("pull_request", pullRequest), Rule("required_status_checks", STATUS_CHECKS)])
  }

  lemma MainProtectionParts(p: Params)
    ensures PullRequest(MainProtection(p)) == p && StatusChecks(MainProtection(p)) == STATUS_CHECKS
    ensures HeadFailures(MainProtection(p)) == []
  {
    var rules := MainProtection(p).rules;
    ParamsAfter(rules, 3, "pull_request");
    ParamsAfter(rules, 4, "required_status_checks");
    forall x | x in RequiredRuleTypes() ensures x in RuleTypes(MainProtection(p)) {
      assert rules[0].type_ == "deletion" && rules[1].type_ == "non_fast_forward";
      assert rules[2].type_ == "required_signatures" && rules[3].type_ == "pull_request";
      assert rules[4].type_ == "required_status_checks";
    }
  }

  lemma {:induction false} ParamsAfter(rules: seq<Rule>, n: nat, type_: string)
    requires n < |rules| && rules[n].Rule? && rules[n].type_ == type_
    requires forall i :: 0 <= i < n ==> !(rules[i].Rule? && rules[i].type_ == type_)
    ensures ParamsOf(rules, type_) == rules[n].params
  {
    if n > 0 {
      ParamsAfter(rules[1..], n - 1, type_);
    }
  }

  lemma MainProtectionIsValid()
    ensures Failures(MainProtection(PULL_REQUEST)) == []
  {
    MainProtectionParts(PULL_REQUEST);
    var checks := STATUS_CHECKS.checks;
    forall x | x in RequiredChecks() ensures x in Contexts(STATUS_CHECKS) {
      assert checks[0].context == "Contract tests" && checks[1].context == "Cloudflare Worker";
      assert checks[2].context == "Repository governance gates" && checks[3].context == "Secret scanning";
      assert checks[4].context == "Dependency audit" && checks[5].context == "policy-as-code-gate";
      assert checks[6].context == "dependency-review" && checks[7].context == "analyze";
    }
  }

  lemma NumericSwitch(p: Params, live: Params)
    requires PullRequestFailures(p) == [] && live == p.(codeOwnerReview := Int(0))
    ensures PullRequestFindings(p, live) == [] && PullRequestFailures(live) == [CodeOwnerReviewOn]
  {
    assert p.codeOwnerReview == Bool(false) && p.lastPushApproval == Bool(false) && p.threadResolution == Bool(true);
  }

  lemma SameHead(d: Ruleset, l: Ruleset)
    requires d == l.(rules := d.rules) && RuleTypes(d) == RuleTypes(l)
    ensures HeadFindings(d, l) == [] && HeadFailures(d) == HeadFailures(l)
  {
  }

  /** In any valid ruleset, writing the code-owner switch as 0 is no drift but makes it invalid. */
  lemma NumericSwitchIsSilent(d: Ruleset, l: Ruleset)
    requires Failures(d) == [] && d == l.(rules := d.rules) && RuleTypes(d) == RuleTypes(l)
    requires PullRequest(l) == PullRequest(d).(codeOwnerReview := Int(0)) && StatusChecks(l) == StatusChecks(d)
    ensures Compare(d, l) == [] && Failures(l) == [CodeOwnerReviewOn]
  {
    assert HeadFailures(d) == [] && PullRequestFailures(PullRequest(d)) == [] && CheckFailures(StatusChecks(d)) == [];
    SameHead(d, l);
    NumericSwitch(PullRequest(d), PullRequest(l));
    assert CheckFindings(StatusChecks(d), StatusChecks(l)) == [];
  }

  /** The versioned ruleset is such a case. */
  lemma NumericSwitchExample()
    ensures var desired := MainProtection(PULL_REQUEST);
            var live := MainProtection(PULL_REQUEST.(codeOwnerReview := Int(0)));
            Failures(desired) == [] && Compare(desired, live) == [] && Failures(live) == [CodeOwnerReviewOn]
  {
    var p := PULL_REQUEST.(codeOwnerReview := Int(0));
    MainProtectionIsValid();
    MainProtectionParts(PULL_REQUEST);
    MainProtectionParts(p);
    SameTypes(MainProtection(PULL_REQUEST), MainProtection(p));
    NumericSwitchIsSilent(MainProtection(PULL_REQUEST), MainProtection(p));
  }

  lemma SameTypes(d: Ruleset, l: Ruleset)
    requires |d.rules| == |l.rules|
    requires forall i :: 0 <= i < |d.rules| ==>
               d.rules[i].Rule? && l.rules[i].Rule? && d.rules[i].type_ == l.rules[i].type_
    ensures RuleTypes(d) == RuleTypes(l)
  {
  }
}
