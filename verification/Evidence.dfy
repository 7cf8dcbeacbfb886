/** The transition-evidence checker: separate checks that together force complete coverage. */
module Evidence {
  import opened Common
  import opened Dict
  import opened Scanner

  // ---------- data ----------

  datatype Coverage = Complete | Partial | UnknownCoverage

  datatype Artifact = Artifact(id: string, hash: string, text: string, coverage: Coverage)

  datatype EvidenceSpan = EvidenceSpan(artifactId: string, artifactHash: string, text: string, start: nat, end: nat)

  datatype FieldName =
    | RepositoryBound | ExplicitWriteIntent | ExplicitDestructiveIntent | ProtectedPathField
    | ScanCoverageField | RawArtifactHashVerified | PreviousProfileAuthorityVerified

  datatype FieldValue = True | False | Unknown | CompleteScan | PartialScan

  datatype Field = Field(value: FieldValue, evidence: seq<EvidenceSpan>)

  datatype Mention = Mention(value: string, evidence: EvidenceSpan)

  datatype Status = Allowed | RecompositionRequired | ClarificationRequired | HumanReviewRequired | Denied

  datatype Capability =
    | Research | ReadOnly | RepoRead | RepoWrite | ProtectedPathWrite | ProductionChange | SecretsSensitive
    | UnknownCapability

  datatype Evidence = Evidence(
    artifacts: seq<Artifact>,
    names: seq<FieldName>,  // keys of `fields`, in the order of the document
    fields: map<FieldName, Field>,
    mentioned: seq<Mention>,
    scannerVersions: map<string, string>,
    toCapabilities: seq<Capability>,
    escalates: bool,
    requiresRecomposition: bool,
    status: Status,
    unknownFields: set<string>,
    forbiddenContent: set<string>
  )

  /** The critical fields, in the order of the schema. */
  function FieldNames(): seq<FieldName> {
    [RepositoryBound, ExplicitWriteIntent, ExplicitDestructiveIntent, ProtectedPathField, ScanCoverageField,
     RawArtifactHashVerified, PreviousProfileAuthorityVerified]
  }

  function FieldText(f: FieldName): string {
    match f
    case RepositoryBound => "repository_bound"
    case ExplicitWriteIntent => "explicit_write_intent"
    case ExplicitDestructiveIntent => "explicit_destructive_intent"
    case ProtectedPathField => "protected_path_reference"
    case ScanCoverageField => "scan_coverage"
    case RawArtifactHashVerified => "raw_artifact_hash_verified"
    case PreviousProfileAuthorityVerified => "previous_profile_authority_verified"
  }

  /** The schema, checked before, requires every critical field. */
  ghost predicate HasAllFields(e: Evidence) {
    forall f: FieldName :: f in e.fields && f in e.names
  }

  datatype Label = InField(field: FieldName, index: nat) | InMention(index: nat)

  datatype Violation =
    | HashMismatch(id: string)
    | UnknownArtifact(site: Label)
    | SpanHashMismatch(site: Label)
    | OffsetsReversed(site: Label)
    | OffsetBeyondText(site: Label)
    | SpanTextMismatch(site: Label)
    | TrueWithoutEvidence(field: FieldName)
    | FieldCoverageIncomplete
    | ArtifactCoverageIncomplete(id: string)
    | RecompositionMissing
    | UnknownFieldsDiffer
    | UnknownMustBlock
    | EscalationAllowed
    | WriteIntentMissing
    | RepositoryUnbound
    | ScannerMissing(scanner: string)
    | ScannerVersionWrong(scanner: string)
    | SignalUncovered(signal: Signal)
    | AuditIncomplete(missing: set<string>)

  // ---------- artifacts and spans ----------

  /** `_artifact_index`: a later artifact with the same id replaces an earlier one. */
  function ArtifactIndex(e: Evidence): Dict<string, Artifact> {
    Build(ArtifactEntries(e.artifacts))
  }

  function ArtifactEntries(artifacts: seq<Artifact>): seq<Entry<string, Artifact>> {
    seq(|artifacts|, i requires 0 <= i < |artifacts| => Entry(artifacts[i].id, artifacts[i]))
  }

  function HashCheck(p: Patterns): Entry<string, Artifact> -> seq<Violation> {
    (entry: Entry<string, Artifact>) =>
      if entry.value.hash != p.hash(entry.value.text) then [HashMismatch(entry.value.id)] else []
  }

  datatype Site = Site(place: Label, span: EvidenceSpan)

  function FieldSites(f: FieldName, spans: seq<EvidenceSpan>): seq<Site> {
    seq(|spans|, i requires 0 <= i < |spans| => Site(InField(f, i), spans[i]))
  }

  function SitesOf(e: Evidence): FieldName -> seq<Site> {
    (f: FieldName) => if f in e.fields then FieldSites(f, e.fields[f].evidence) else []
  }

  function MentionSites(e: Evidence): seq<Site> {
    seq(|e.mentioned|, i requires 0 <= i < |e.mentioned| => Site(InMention(i), e.mentioned[i].evidence))
  }

  /** `_iter_evidence_spans`. */
  function Sites(e: Evidence): seq<Site> {
    FlatMap(e.names, SitesOf(e)) + MentionSites(e)
  }

  function SpanCheck(index: Dict<string, Artifact>): Site -> seq<Violation> {
    (site: Site) =>
      match Get(index, site.span.artifactId)
      case None => [UnknownArtifact(site.place)]
      case Some(artifact) =>
        (if site.span.artifactHash != artifact.hash then [SpanHashMismatch(site.place)] else []) +
        if site.span.start >= site.span.end then [OffsetsReversed(site.place)]
        else if site.span.end > |artifact.text| then [OffsetBeyondText(site.place)]
        else if artifact.text[site.span.start..site.span.end] != site.span.text then [SpanTextMismatch(site.place)]
        else []
  }

  // ---------- fields, delta, audit ----------

  function TrueCheck(e: Evidence): FieldName -> seq<Violation> {
    (f: FieldName) =>
      if f in e.fields && e.fields[f].value == True && e.fields[f].evidence == [] then [TrueWithoutEvidence(f)] else []
  }

  function CoverageCheck(e: Evidence): Artifact -> seq<Violation> {
    (a: Artifact) => if a.coverage != Complete && e.escalates then [ArtifactCoverageIncomplete(a.id)] else []
  }

  function FieldViolations(e: Evidence): seq<Violation>
    requires ScanCoverageField in e.fields
  {
    FlatMap(e.names, TrueCheck(e)) +
    (if e.fields[ScanCoverageField].value != CompleteScan && e.escalates then [FieldCoverageIncomplete] else []) +
    FlatMap(e.artifacts, CoverageCheck(e))
  }

  function UnknownNames(e: Evidence): set<FieldName> {
    set f | f in e.fields && e.fields[f].value == Unknown
  }

  function BlockingFields(): set<FieldName> {
    {RepositoryBound, ExplicitWriteIntent, ProtectedPathField, ScanCoverageField, RawArtifactHashVerified,
     PreviousProfileAuthorityVerified}
  }

  predicate NonEscalating(s: Status) {
    s == ClarificationRequired || s == HumanReviewRequired || s == Denied
  }

  function EscalationViolations(e: Evidence): seq<Violation> {
    var unknown := UnknownNames(e);
    (if e.escalates && !e.requiresRecomposition then [RecompositionMissing] else []) +
    (if (set f | f in unknown :: FieldText(f)) != e.unknownFields then [UnknownFieldsDiffer] else []) +
    (if e.escalates && unknown * BlockingFields() != {} && !NonEscalating(e.status) then [UnknownMustBlock] else []) +
    (if e.escalates && e.status == Allowed then [EscalationAllowed] else [])
  }

  function WriteViolations(e: Evidence): seq<Violation>
    requires ExplicitWriteIntent in e.fields && RepositoryBound in e.fields
  {
    if RepoWrite in e.toCapabilities && !NonEscalating(e.status) then
      (if e.fields[ExplicitWriteIntent].value != True then [WriteIntentMissing] else []) +
      (if e.fields[RepositoryBound].value != True then [RepositoryUnbound] else [])
    else []
  }

  function ForbiddenAuditContent(): set<string> {
    {"secret_values", "private_keys", "bearer_tokens", "raw_runtime_traces", "raw_tool_outputs",
     "confidential_customer_data"}
  }

  function AuditViolations(e: Evidence): seq<Violation> {
    var missing := ForbiddenAuditContent() - e.forbiddenContent;
    if missing == {} then [] else [AuditIncomplete(missing)]
  }

  // ---------- scanner coverage ----------

  function RequiredScanners(): seq<string> {
    ["path", "repository_reference", "write_intent", "destructive_intent", "protected_path",
     "pull_request_reference", "branch_reference", "commit_reference"]
  }

  /** The same ids in alphabetical order, as the missing ones are listed. */
  function SortedScanners(): seq<string> {
    ["branch_reference", "commit_reference", "destructive_intent", "path", "protected_path",
     "pull_request_reference", "repository_reference", "write_intent"]
  }

  function MissingCheck(e: Evidence): string -> seq<Violation> {
    (id: string) => if id !in e.scannerVersions then [ScannerMissing(id)] else []
  }

  function VersionCheck(e: Evidence): string -> seq<Violation> {
    (id: string) =>
      if id in e.scannerVersions && e.scannerVersions[id] != "0.1.0" then [ScannerVersionWrong(id)] else []
  }

  predicate SpanCovers(span: EvidenceSpan, s: Signal) {
    span.artifactId == s.artifactId && span.artifactHash == s.artifactHash && span.start <= s.start && span.end >= s.end
  }

  function FieldFor(k: Kind): FieldName
    requires k != PathReference
  {
    match k
    case ProtectedPathReference => ProtectedPathField
    case WriteIntent => ExplicitWriteIntent
    case DestructiveIntent => ExplicitDestructiveIntent
    case _ => RepositoryBound
  }

  /** The evidence spans that may cover a signal of a kind. */
  function SpansFor(e: Evidence, k: Kind): seq<EvidenceSpan> {
    if k == PathReference then seq(|e.mentioned|, i requires 0 <= i < |e.mentioned| => e.mentioned[i].evidence)
    else if FieldFor(k) in e.fields then e.fields[FieldFor(k)].evidence
    else []
  }

  predicate Covered(e: Evidence, s: Signal) {
    exists i :: 0 <= i < |SpansFor(e, s.kind)| && SpanCovers(SpansFor(e, s.kind)[i], s)
  }

  function CoveredCheck(e: Evidence): Signal -> seq<Violation> {
    (s: Signal) => if Covered(e, s) then [] else [SignalUncovered(s)]
  }

  function ScanArtifact(p: Patterns): Artifact -> seq<Signal> {
    (a: Artifact) => Scan(p, a.id, a.text)
  }

  /** `scan_evidence_artifacts`: all artifacts, also those another one with the same id replaces. */
  function ArtifactSignals(p: Patterns, e: Evidence): seq<Signal> {
    FlatMap(e.artifacts, ScanArtifact(p))
  }

  function VersionViolations(e: Evidence): seq<Violation> {
    FlatMap(SortedScanners(), MissingCheck(e)) + FlatMap(RequiredScanners(), VersionCheck(e))
  }

  function CoverageViolations(p: Patterns, e: Evidence): seq<Violation> {
    FlatMap(ArtifactSignals(p, e), CoveredCheck(e))
  }

  function Violations(p: Patterns, e: Evidence): seq<Violation>
    requires HasAllFields(e)
  {
    FlatMap(ArtifactIndex(e), HashCheck(p)) + FlatMap(Sites(e), SpanCheck(ArtifactIndex(e))) + FieldViolations(e) +
    EscalationViolations(e) + WriteViolations(e) + VersionViolations(e) + CoverageViolations(p, e) + AuditViolations(e)
  }

  // ---------- the checker ----------

  /** `_evidence_violations`: each check appends what it finds. */
  method EvidenceViolations(p: Patterns, e: Evidence) returns (violations: seq<Violation>)
    requires HasAllFields(e)
    ensures violations == Violations(p, e)
  {
    var index := IndexArtifacts(e);
    violations := CheckHashes(p, index);
    var more := CheckSpans(e, index);
    violations := violations + more;
    more := CheckFields(e);
    violations := violations + more;
    more := CheckEscalation(e);
    violations := violations + more;
    more := CheckWrite(e);
    violations := violations + more;
    violations := violations + VersionViolations(e);
    more := CheckCoverage(p, e);
    violations := violations + more;
    violations := violations + AuditViolations(e);
  }

  method IndexArtifacts(e: Evidence) returns (index: Dict<string, Artifact>)
    ensures index == ArtifactIndex(e)
  {
    index := [];
    ghost var entries := ArtifactEntries(e.artifacts);
    for i := 0 to |e.artifacts|
      invariant index == Build(entries[..i])
    {
      assert entries[..i + 1][..i] == entries[..i];
      index := Put(index, e.artifacts[i].id, e.artifacts[i]);
    }
    assert entries[..|entries|] == entries;
  }

  method CheckHashes(p: Patterns, index: Dict<string, Artifact>) returns (violations: seq<Violation>)
    ensures violations == FlatMap(index, HashCheck(p))
  {
    violations := [];
    for i := 0 to |index|
      invariant violations == FlatMap(index[..i], HashCheck(p))
    {
      FlatMapStep(index, i, HashCheck(p));
      var artifact := index[i].value;
      if artifact.hash != p.hash(artifact.text) {
        violations := violations + [HashMismatch(artifact.id)];
      }
    }
    assert index[..|index|] == index;
  }

  method CheckSpans(e: Evidence, index: Dict<string, Artifact>) returns (violations: seq<Violation>)
    ensures violations == FlatMap(Sites(e), SpanCheck(index))
  {
    violations := [];
    var sites := Sites(e);
    for i := 0 to |sites|
      invariant violations == FlatMap(sites[..i], SpanCheck(index))
    {
      FlatMapStep(sites, i, SpanCheck(index));
      var found := CheckSpan(sites[i], index);
      violations := violations + found;
    }
    assert sites[..|sites|] == sites;
  }

  /** One turn of the span loop; the `continue`s of the source end it early. */
  method CheckSpan(site: Site, index: Dict<string, Artifact>) returns (found: seq<Violation>)
    ensures found == SpanCheck(index)(site)
  {
    found := [];
    var artifact := Get(index, site.span.artifactId);
    if artifact.None? {
      return [UnknownArtifact(site.place)];
    }
    if site.span.artifactHash != artifact.value.hash {
      found := found + [SpanHashMismatch(site.place)];
    }
    if site.span.start >= site.span.end {
      found := found + [OffsetsReversed(site.place)];
      return;
    }
    if site.span.end > |artifact.value.text| {
      found := found + [OffsetBeyondText(site.place)];
      return;
    }
    if artifact.value.text[site.span.start..site.span.end] != site.span.text {
      found := found + [SpanTextMismatch(site.place)];
    }
  }

  method CheckFields(e: Evidence) returns (violations: seq<Violation>)
    requires HasAllFields(e)
    ensures violations == FieldViolations(e)
  {
    violations := CheckTrueFields(e, e.names);
    if e.fields[ScanCoverageField].value != CompleteScan && e.escalates {
      violations := violations + [FieldCoverageIncomplete];
    }
    var incomplete := CheckArtifactCoverage(e, e.artifacts);
    violations := violations + incomplete;
  }

  method CheckTrueFields(e: Evidence, names: seq<FieldName>) returns (violations: seq<Violation>)
    requires HasAllFields(e)
    ensures violations == FlatMap(names, TrueCheck(e))
  {
    violations := [];
    for i := 0 to |names|
      invariant violations == FlatMap(names[..i], TrueCheck(e))
    {
      FlatMapStep(names, i, TrueCheck(e));
      var field := e.fields[names[i]];
      if field.value == True && field.evidence == [] {
        violations := violations + [TrueWithoutEvidence(names[i])];
      }
    }
    assert names[..|names|] == names;
  }

  method CheckArtifactCoverage(e: Evidence, artifacts: seq<Artifact>) returns (violations: seq<Violation>)
    ensures violations == FlatMap(artifacts, CoverageCheck(e))
  {
    violations := [];
    for i := 0 to |artifacts|
      invariant violations == FlatMap(artifacts[..i], CoverageCheck(e))
    {
      FlatMapStep(artifacts, i, CoverageCheck(e));
      if artifacts[i].coverage != Complete && e.escalates {
        violations := violations + [ArtifactCoverageIncomplete(artifacts[i].id)];
      }
    }
    assert artifacts[..|artifacts|] == artifacts;
  }

  /** `_capability_delta_violations`, up to the rules about repository writes. */
  method CheckEscalation(e: Evidence) returns (violations: seq<Violation>)
    ensures violations == EscalationViolations(e)
  {
    violations := [];
    if e.escalates && !e.requiresRecomposition {
      violations := violations + [RecompositionMissing];
    }
    var unknown := UnknownNames(e);
    if (set f | f in unknown :: FieldText(f)) != e.unknownFields {
      violations := violations + [UnknownFieldsDiffer];
    }
    if e.escalates && unknown * BlockingFields() != {} && !NonEscalating(e.status) {
      violations := violations + [UnknownMustBlock];
    }
    if e.escalates && e.status == Allowed {
      violations := violations + [EscalationAllowed];
    }
  }

  method CheckWrite(e: Evidence) returns (violations: seq<Violation>)
    requires ExplicitWriteIntent in e.fields && RepositoryBound in e.fields
    ensures violations == WriteViolations(e)
  {
    violations := [];
    if RepoWrite in e.toCapabilities && !NonEscalating(e.status) {
      if e.fields[ExplicitWriteIntent].value != True {
        violations := violations + [WriteIntentMissing];
      }
      if e.fields[RepositoryBound].value != True {
        violations := violations + [RepositoryUnbound];
      }
    }
  }

  /** The coverage loop of `scanner_coverage_violations`. */
  method CheckCoverage(p: Patterns, e: Evidence) returns (violations: seq<Violation>)
    ensures violations == CoverageViolations(p, e)
  {
    violations := [];
    var signals := ScanArtifacts(p, e.artifacts);
    for i := 0 to |signals|
      invariant violations == FlatMap(signals[..i], CoveredCheck(e))
    {
      FlatMapStep(signals, i, CoveredCheck(e));
      if !Covered(e, signals[i]) {
        violations := violations + [SignalUncovered(signals[i])];
      }
    }
    assert signals[..|signals|] == signals;
  }

  method ScanArtifacts(p: Patterns, artifacts: seq<Artifact>) returns (signals: seq<Signal>)
    ensures signals == FlatMap(artifacts, ScanArtifact(p))
  {
    signals := [];
    for i := 0 to |artifacts|
      invariant signals == FlatMap(artifacts[..i], ScanArtifact(p))
    {
      FlatMapStep(artifacts, i, ScanArtifact(p));
      var found := ScanOne(p, artifacts[i]);
      signals := signals + found;
    }
    assert artifacts[..|artifacts|] == artifacts;
  }

  method ScanOne(p: Patterns, a: Artifact) returns (signals: seq<Signal>)
    ensures signals == ScanArtifact(p)(a)
  {
    signals := ScanTransitionSignals(p, a.id, a.text);
  }

  // ---------- accepted evidence is complete ----------

  ghost predicate Accepted(p: Patterns, e: Evidence) {
    HasAllFields(e) && Violations(p, e) == []
  }

  lemma {:induction false} FlatMapHas<T, U>(xs: seq<T>, f: T -> seq<U>, x: T, u: U)
    requires x in xs && u in f(x)
    ensures u in FlatMap(xs, f)
  {
    var init, last := xs[..|xs| - 1], xs[|xs| - 1];
    assert xs == init + [last];
    if x in init {
      FlatMapHas(init, f, x, u);
    }
  }

  lemma SpanIsASite(e: Evidence, k: Kind, i: nat) returns (site: Site)
    requires HasAllFields(e) && i < |SpansFor(e, k)|
    ensures site in Sites(e) && site.span == SpansFor(e, k)[i]
  {
    if k == PathReference {
      site := MentionSites(e)[i];
      assert site in MentionSites(e);
    } else {
      var f := FieldFor(k);
      site := FieldSites(f, e.fields[f].evidence)[i];
      assert site in SitesOf(e)(f);
      FlatMapHas(e.names, SitesOf(e), f, site);
    }
  }

  lemma AcceptedParts(p: Patterns, e: Evidence)
    requires Accepted(p, e)
    ensures FlatMap(ArtifactIndex(e), HashCheck(p)) == []
    ensures FlatMap(Sites(e), SpanCheck(ArtifactIndex(e))) == []
    ensures FieldViolations(e) == [] && EscalationViolations(e) == [] && CoverageViolations(p, e) == []
  {
    EmptyParts(FlatMap(ArtifactIndex(e), HashCheck(p)), FlatMap(Sites(e), SpanCheck(ArtifactIndex(e))),
               FieldViolations(e), EscalationViolations(e), WriteViolations(e), VersionViolations(e),
               CoverageViolations(p, e), AuditViolations(e));
  }

  lemma EmptyParts(a: seq<Violation>, b: seq<Violation>, c: seq<Violation>, d: seq<Violation>,
                   e: seq<Violation>, f: seq<Violation>, g: seq<Violation>, h: seq<Violation>)
    requires a + b + c + d + e + f + g + h == []
    ensures a == [] && b == [] && c == [] && d == [] && g == []
  {
    assert |a| + |b| + |c| + |d| + |e| + |f| + |g| + |h| == |a + b + c + d + e + f + g + h|;
  }

  lemma CleanElement<T>(xs: seq<T>, f: T -> seq<Violation>, x: T)
    requires FlatMap(xs, f) == [] && x in xs
    ensures f(x) == []
  {
    FlatMapEmpty(xs, f);
    var i :| 0 <= i < |xs| && xs[i] == x;
    assert f(xs[i]) == [];
  }

  lemma CleanSpan(site: Site, index: Dict<string, Artifact>)
    requires SpanCheck(index)(site) == []
    ensures Get(index, site.span.artifactId).Some?
    ensures var a := Get(index, site.span.artifactId).value;
            && site.span.artifactHash == a.hash && site.span.start < site.span.end <= |a.text|
            && a.text[site.span.start..site.span.end] == site.span.text
  {
  }

  /** What acceptance says about one evidence span. */
  lemma AcceptedSite(p: Patterns, e: Evidence, site: Site) returns (a: Artifact)
    requires Accepted(p, e) && site in Sites(e)
    ensures Get(ArtifactIndex(e), site.span.artifactId) == Some(a)
    ensures site.span.artifactHash == a.hash == p.hash(a.text)
    ensures site.span.start < site.span.end <= |a.text| && a.text[site.span.start..site.span.end] == site.span.text
  {
    var index := ArtifactIndex(e);
    AcceptedParts(p, e);
    CleanElement(Sites(e), SpanCheck(index), site);
    CleanSpan(site, index);
    a := Get(index, site.span.artifactId).value;
    IndexedHash(p, index, site.span.artifactId);
  }

  lemma IndexedHash(p: Patterns, index: Dict<string, Artifact>, id: string)
    requires FlatMap(index, HashCheck(p)) == [] && Get(index, id).Some?
    ensures Get(index, id).value.hash == p.hash(Get(index, id).value.text)
  {
    GetFacts(index, id);
    CleanElement(index, HashCheck(p), Entry(id, Get(index, id).value));
  }

  lemma AcceptedSignal(p: Patterns, e: Evidence, a: Artifact, s: Signal)
    requires Accepted(p, e) && a in e.artifacts && s in Scan(p, a.id, a.text)
    ensures Covered(e, s)
  {
    AcceptedParts(p, e);
    FlatMapHas(e.artifacts, ScanArtifact(p), a, s);
    CleanElement(ArtifactSignals(p, e), CoveredCheck(e), s);
  }

  /** Two different texts with one hash. */
  ghost predicate Collision(p: Patterns, a: string, b: string) {
    a != b && p.hash(a) == p.hash(b)
  }

  /** The span is the exact slice of the text. */
  ghost predicate ExactSlice(span: EvidenceSpan, text: string) {
    span.start <= span.end <= |text| && text[span.start..span.end] == span.text
  }

  /** The signal lies inside the span, and the span's text holds the signal's text at that place. */
  ghost predicate Quotes(span: EvidenceSpan, s: Signal) {
    && span.start <= s.start <= s.end <= span.end && |span.text| == span.end - span.start
    && span.text[s.start - span.start..s.end - span.start] == s.span
  }

  lemma SliceQuotes(span: EvidenceSpan, text: string, s: Signal)
    requires ExactSlice(span, text) && span.start <= s.start <= s.end <= span.end && s.span == text[s.start..s.end]
    ensures Quotes(span, s)
  {
    SliceOfSlice(text, span.start, span.end, s.start, s.end);
  }

  lemma SliceOfSlice(t: string, a: nat, b: nat, i: nat, j: nat)
    requires a <= i <= j <= b <= |t|
    ensures t[a..b][i - a..j - a] == t[i..j]
  {
    var x, y := t[a..b][i - a..j - a], t[i..j];
    forall k | 0 <= k < j - i ensures x[k] == y[k] {
      assert x[k] == t[a..b][i - a + k] == t[i + k];
    }
  }

  lemma CoveringSpan(p: Patterns, e: Evidence, a: Artifact, s: Signal) returns (span: EvidenceSpan, site: Site)
    requires Accepted(p, e) && a in e.artifacts && s in Scan(p, a.id, a.text)
    ensures span in SpansFor(e, s.kind) && SpanCovers(span, s)
    ensures site in Sites(e) && site.span == span
  {
    AcceptedSignal(p, e, a, s);
    var i :| 0 <= i < |SpansFor(e, s.kind)| && SpanCovers(SpansFor(e, s.kind)[i], s);
    span := SpansFor(e, s.kind)[i];
    site := SpanIsASite(e, s.kind, i);
  }

  lemma SignalIsSound(p: Patterns, id: string, text: string, s: Signal)
    requires Matching(p, text) && s in Scan(p, id, text)
    ensures Sound(p, id, text, s)
  {
    ScanIsExact(p, id, text);
  }

  /**
   Complete coverage, which no single check states.  In accepted evidence every signal that the
   scanner finds in any raw artifact, replaced duplicates included, lies inside an evidence span
   of the field for its kind.  That span is the exact slice of the indexed artifact, and, short of
   a hash collision, the indexed artifact has the scanned text, so the span quotes the signal.
   */
  lemma AcceptedEvidenceIsComplete(p: Patterns, e: Evidence, a: Artifact, s: Signal)
    returns (span: EvidenceSpan, indexed: Artifact)
    requires Accepted(p, e) && a in e.artifacts && Matching(p, a.text) && s in Scan(p, a.id, a.text)
    ensures span in SpansFor(e, s.kind) && span.start <= s.start <= s.end <= span.end
    ensures Get(ArtifactIndex(e), a.id) == Some(indexed)
    ensures ExactSlice(span, indexed.text)
    ensures (indexed.text == a.text && Quotes(span, s)) || Collision(p, indexed.text, a.text)
  {
    SignalIsSound(p, a.id, a.text, s);
    var site;
    span, site := CoveringSpan(p, e, a, s);
    indexed := AcceptedSite(p, e, site);
    if indexed.text == a.text {
      SliceQuotes(span, a.text, s);
    }
  }

  // ---------- escalation ----------

  /** What acceptance guarantees when authority is escalated. */
  lemma AcceptedEscalation(p: Patterns, e: Evidence)
    requires Accepted(p, e) && e.escalates
    ensures e.requiresRecomposition && e.status != Allowed
    ensures e.fields[ScanCoverageField].value == CompleteScan
    ensures forall a :: a in e.artifacts ==> a.coverage == Complete
    ensures e.status == RecompositionRequired ==> UnknownNames(e) <= {ExplicitDestructiveIntent}
  {
    AcceptedParts(p, e);
    assert FlatMap(e.artifacts, CoverageCheck(e)) == [];
    forall a | a in e.artifacts ensures a.coverage == Complete {
      CleanElement(e.artifacts, CoverageCheck(e), a);
    }
    EscalationRules(e);
  }

  lemma EscalationRules(e: Evidence)
    requires EscalationViolations(e) == [] && e.escalates
    ensures e.requiresRecomposition && e.status != Allowed
    ensures !NonEscalating(e.status) ==> UnknownNames(e) <= {ExplicitDestructiveIntent}
  {
    if !NonEscalating(e.status) {
      forall f | f in UnknownNames(e) ensures f == ExplicitDestructiveIntent {
        assert f !in UnknownNames(e) * BlockingFields();
      }
    }
  }

  /** The written policy: an unknown critical field, destructive intent included, blocks escalation. */
  ghost predicate PolicyBlocksUnknown(e: Evidence) {
    e.escalates && UnknownNames(e) != {} ==> NonEscalating(e.status)
  }

  /**
   The checker meets that policy on accepted evidence exactly when it does not escalate by
   recomposition with destructive intent unknown, the one field its blocking set leaves out.
   */
  lemma PolicyGap(p: Patterns, e: Evidence)
    requires Accepted(p, e)
    ensures PolicyBlocksUnknown(e) <==>
            !(e.escalates && e.status == RecompositionRequired && e.fields[ExplicitDestructiveIntent].value == Unknown)
  {
    if e.escalates {
      AcceptedEscalation(p, e);
      if e.status == RecompositionRequired && UnknownNames(e) != {} {
        var f :| f in UnknownNames(e);
        assert f in {ExplicitDestructiveIntent};
      }
      assert e.fields[ExplicitDestructiveIntent].value == Unknown <==> ExplicitDestructiveIntent in UnknownNames(e);
    }
  }

  /** None of the seven patterns matches. */
  predicate Silent(p: Patterns, text: string) {
    && p.path(text) == [] && p.write(text) == [] && p.destructive(text) == [] && p.repository(text) == []
    && p.pullRequest(text) == [] && p.branch(text) == [] && p.commit(text) == []
  }

  function GapEvidence(hash: string, text: string): Evidence {
    var no := Field(False, []);
    Evidence(
      [Artifact("turn-a", hash, text, Complete)],
      FieldNames(),
      map[RepositoryBound := no, ExplicitWriteIntent := no, ExplicitDestructiveIntent := Field(Unknown, []),
          ProtectedPathField := no, ScanCoverageField := Field(CompleteScan, []), RawArtifactHashVerified := no,
          PreviousProfileAuthorityVerified := no],
      [],
      map id | id in RequiredScanners() + SortedScanners() :: "0.1.0",
      [Research], true, true, RecompositionRequired, {"explicit_destructive_intent"}, ForbiddenAuditContent())
  }

  lemma SilentScan(p: Patterns, id: string, text: string)
    requires Silent(p, text)
    ensures Scan(p, id, text) == []
  {
    assert AllPathSignals(p, id, text, []) == [];
    assert IntentSignals(p, id, text) == [];
    assert ReferenceSignals(p, id, text) == [];
    assert Build(Entries([])) == [];
    assert Values([]) == [];
  }

  lemma NoSpansNoSites(e: Evidence)
    requires forall f: FieldName :: f in e.fields ==> e.fields[f].evidence == []
    requires e.mentioned == []
    ensures Sites(e) == []
  {
    FlatMapEmpty(e.names, SitesOf(e));
  }

  lemma OneArtifactIndex(e: Evidence, a: Artifact)
    requires e.artifacts == [a]
    ensures ArtifactIndex(e) == [Entry(a.id, a)]
  {
    var entry := Entry(a.id, a);
    assert ArtifactEntries(e.artifacts) == [entry];
    assert UniqueKeys([entry]);
    BuildUnique([entry]);
  }

  lemma AcceptedFromParts(p: Patterns, e: Evidence)
    requires HasAllFields(e) && Sites(e) == []
    requires FlatMap(ArtifactIndex(e), HashCheck(p)) == [] && FieldViolations(e) == [] && EscalationViolations(e) == []
    requires WriteViolations(e) == [] && VersionViolations(e) == [] && CoverageViolations(p, e) == []
    requires AuditViolations(e) == []
    ensures Accepted(p, e)
  {
  }

  lemma GapScan(p: Patterns, text: string)
    requires Silent(p, text)
    ensures CoverageViolations(p, GapEvidence(p.hash(text), text)) == []
    ensures FlatMap(ArtifactIndex(GapEvidence(p.hash(text), text)), HashCheck(p)) == []
  {
    var e := GapEvidence(p.hash(text), text);
    var a := Artifact("turn-a", p.hash(text), text, Complete);
    SilentScan(p, a.id, a.text);
    FlatMapOne(a, ScanArtifact(p));
    OneArtifactIndex(e, a);
    FlatMapOne(Entry(a.id, a), HashCheck(p));
  }

  lemma GapSites(hash: string, text: string)
    ensures Sites(GapEvidence(hash, text)) == []
  {
    NoSpansNoSites(GapEvidence(hash, text));
  }

  lemma GapFields(hash: string, text: string)
    ensures FieldViolations(GapEvidence(hash, text)) == []
  {
    var e := GapEvidence(hash, text);
    FlatMapEmpty(e.names, TrueCheck(e));
    FlatMapOne(e.artifacts[0], CoverageCheck(e));
  }

  lemma GapVersions(hash: string, text: string)
    ensures VersionViolations(GapEvidence(hash, text)) == []
  {
    var e := GapEvidence(hash, text);
    FlatMapEmpty(SortedScanners(), MissingCheck(e));
    FlatMapEmpty(RequiredScanners(), VersionCheck(e));
  }

  lemma AllNamed(f: FieldName)
    ensures f in FieldNames()
  {
    var i := match f {
      case RepositoryBound => 0
      case ExplicitWriteIntent => 1
      case ExplicitDestructiveIntent => 2
      case ProtectedPathField => 3
      case ScanCoverageField => 4
      case RawArtifactHashVerified => 5
      case PreviousProfileAuthorityVerified => 6
    };
    assert FieldNames()[i] == f;
  }

  lemma GapHasAllFields(hash: string, text: string)
    ensures HasAllFields(GapEvidence(hash, text))
  {
    forall f: FieldName ensures f in GapEvidence(hash, text).fields && f in FieldNames() {
      AllNamed(f);
      match f {
        case RepositoryBound =>
        case ExplicitWriteIntent =>
        case ExplicitDestructiveIntent =>
        case ProtectedPathField =>
        case ScanCoverageField =>
        case RawArtifactHashVerified =>
        case PreviousProfileAuthorityVerified =>
      }
    }
  }

  lemma GapEscalation(hash: string, text: string)
    ensures UnknownNames(GapEvidence(hash, text)) == {ExplicitDestructiveIntent}
    ensures EscalationViolations(GapEvidence(hash, text)) == [] && WriteViolations(GapEvidence(hash, text)) == []
  {
    var e := GapEvidence(hash, text);
    assert UnknownNames(e) == {ExplicitDestructiveIntent};
    assert (set f | f in UnknownNames(e) :: FieldText(f)) == {FieldText(ExplicitDestructiveIntent)};
  }

  lemma GapAudit(hash: string, text: string)
    ensures AuditViolations(GapEvidence(hash, text)) == []
  {
    assert ForbiddenAuditContent() - GapEvidence(hash, text).forbiddenContent == {};
  }

  lemma GapViolatesPolicy(hash: string, text: string)
    ensures !PolicyBlocksUnknown(GapEvidence(hash, text))
  {
    GapEscalation(hash, text);
    assert ExplicitDestructiveIntent in UnknownNames(GapEvidence(hash, text));
  }

  lemma GapAccepted(p: Patterns, text: string, e: Evidence)
    requires Silent(p, text) && e == GapEvidence(p.hash(text), text)
    ensures Accepted(p, e)
  {
    var hash := p.hash(text);
    GapHasAllFields(hash, text);
    GapEscalation(hash, text);
    GapVersions(hash, text);
    GapScan(p, text);
    GapFields(hash, text);
    GapSites(hash, text);
    GapAudit(hash, text);
    AcceptedFromParts(p, e);
  }

  /**
   For any text without signals and its true hash: evidence that is accepted and escalates although
   destructive intent is unknown.
   */
  lemma PolicyGapExample(p: Patterns, text: string)
    requires Silent(p, text)
    ensures Accepted(p, GapEvidence(p.hash(text), text))
    ensures !PolicyBlocksUnknown(GapEvidence(p.hash(text), text))
  {
    GapAccepted(p, text, GapEvidence(p.hash(text), text));
    GapViolatesPolicy(p.hash(text), text);
  }
}
