/** Acceptance of evidence in elementary terms: one condition for every rule, and nothing else. */
module EvidenceMeaning {
  import opened Common
  import opened Dict
  import opened Scanner
  import opened Evidence

  // ---------- artifacts ----------

  /** No later artifact has the same id, so this is the one the id stands for. */
  ghost predicate Final(e: Evidence, i: nat) {
    i < |e.artifacts| && forall j :: i < j < |e.artifacts| ==> e.artifacts[j].id != e.artifacts[i].id
  }

  lemma FinalIsIndexed(e: Evidence, i: nat)
    requires Final(e, i)
    ensures Get(ArtifactIndex(e), e.artifacts[i].id) == Some(e.artifacts[i])
  {
    var entries := ArtifactEntries(e.artifacts);
    var entry := entries[i];
    BuildKeepsLast(entries, i);
    BuildFacts(entries);
    GetFacts(ArtifactIndex(e), entry.key);
    var found := Get(ArtifactIndex(e), entry.key).value;
    assert Entry(entry.key, found) in ArtifactIndex(e) && entry in ArtifactIndex(e);
  }

  lemma {:induction false} HasFinal(e: Evidence, i: nat) returns (j: nat)
    requires i < |e.artifacts|
    ensures Final(e, j) && e.artifacts[j].id == e.artifacts[i].id
    decreases |e.artifacts| - i
  {
    if Final(e, i) {
      j := i;
    } else {
      var k :| i < k < |e.artifacts| && e.artifacts[k].id == e.artifacts[i].id;
      j := HasFinal(e, k);
    }
  }

  lemma IndexedIsFinal(e: Evidence, id: string) returns (i: nat)
    requires Get(ArtifactIndex(e), id).Some?
    ensures Final(e, i) && e.artifacts[i].id == id && Get(ArtifactIndex(e), id) == Some(e.artifacts[i])
  {
    var index, entries := ArtifactIndex(e), ArtifactEntries(e.artifacts);
    GetFacts(index, id);
    BuildFacts(entries);
    var k :| 0 <= k < |entries| && entries[k] == Entry(id, Get(index, id).value);
    i := HasFinal(e, k);
    FinalIsIndexed(e, i);
  }

  ghost predicate HashesRight(p: Patterns, e: Evidence) {
    forall i :: 0 <= i < |e.artifacts| && Final(e, i) ==> e.artifacts[i].hash == p.hash(e.artifacts[i].text)
  }

  lemma HashesMean(p: Patterns, e: Evidence)
    ensures FlatMap(ArtifactIndex(e), HashCheck(p)) == [] <==> HashesRight(p, e)
  {
    var index := ArtifactIndex(e);
    BuildFacts(ArtifactEntries(e.artifacts));
    FlatMapEmpty(index, HashCheck(p));
    if FlatMap(index, HashCheck(p)) == [] {
      forall i | 0 <= i < |e.artifacts| && Final(e, i)
        ensures e.artifacts[i].hash == p.hash(e.artifacts[i].text)
      {
        FinalIsIndexed(e, i);
        IndexedHash(p, index, e.artifacts[i].id);
      }
    }
    if HashesRight(p, e) {
      forall k | 0 <= k < |index| ensures HashCheck(p)(index[k]) == [] {
        assert index[k] in index;
        EntryIsFinal(e, index[k]);
      }
    }
  }

  /** Every entry of the index is a final artifact under its id. */
  lemma EntryIsFinal(e: Evidence, entry: Entry<string, Artifact>)
    requires entry in ArtifactIndex(e)
    ensures exists i :: 0 <= i < |e.artifacts| && Final(e, i) && e.artifacts[i] == entry.value
  {
    var index, entries := ArtifactIndex(e), ArtifactEntries(e.artifacts);
    BuildFacts(entries);
    GetFacts(index, entry.key);
    var i := IndexedIsFinal(e, entry.key);
    assert Entry(entry.key, e.artifacts[i]) in index;
  }

  // ---------- spans ----------

  /** A span that some critical field or mentioned path gives as evidence. */
  ghost predicate Given(e: Evidence, span: EvidenceSpan) {
    || (exists f :: f in e.fields && span in e.fields[f].evidence)
    || (exists i :: 0 <= i < |e.mentioned| && e.mentioned[i].evidence == span)
  }

  /** It quotes the artifact its id stands for. */
  ghost predicate QuotesRight(e: Evidence, span: EvidenceSpan) {
    exists i :: 0 <= i < |e.artifacts| && Final(e, i) && QuotesArtifact(e.artifacts[i], span)
  }

  ghost predicate QuotesArtifact(a: Artifact, span: EvidenceSpan) {
    && a.id == span.artifactId && a.hash == span.artifactHash
    && span.start < span.end <= |a.text| && a.text[span.start..span.end] == span.text
  }

  lemma SiteMeans(e: Evidence, site: Site)
    ensures SpanCheck(ArtifactIndex(e))(site) == [] <==> QuotesRight(e, site.span)
  {
    var index, span := ArtifactIndex(e), site.span;
    if Get(index, span.artifactId).Some? {
      var i := IndexedIsFinal(e, span.artifactId);
      assert SpanCheck(index)(site) == [] <==> QuotesArtifact(e.artifacts[i], span);
    }
    if QuotesRight(e, span) {
      var i :| 0 <= i < |e.artifacts| && Final(e, i) && QuotesArtifact(e.artifacts[i], span);
      FinalIsIndexed(e, i);
    }
  }

  /** Which violations a span gives: a bad id or bad offsets end its check early. */
  lemma SpanTable(e: Evidence, site: Site, i: nat)
    requires Final(e, i) && e.artifacts[i].id == site.span.artifactId
    ensures var found, a, span := SpanCheck(ArtifactIndex(e))(site), e.artifacts[i], site.span;
            && UnknownArtifact(site.place) !in found
            && (SpanHashMismatch(site.place) in found <==> span.artifactHash != a.hash)
            && (OffsetsReversed(site.place) in found <==> span.start >= span.end)
            && (OffsetBeyondText(site.place) in found <==> span.start < span.end && span.end > |a.text|)
            && (SpanTextMismatch(site.place) in found <==>
                  span.start < span.end <= |a.text| && a.text[span.start..span.end] != span.text)
  {
    FinalIsIndexed(e, i);
  }

  lemma SpanWithoutArtifact(e: Evidence, site: Site)
    requires forall i :: 0 <= i < |e.artifacts| ==> e.artifacts[i].id != site.span.artifactId
    ensures SpanCheck(ArtifactIndex(e))(site) == [UnknownArtifact(site.place)]
  {
    if Get(ArtifactIndex(e), site.span.artifactId).Some? {
      var i := IndexedIsFinal(e, site.span.artifactId);
    }
  }

  lemma GivenIsSite(e: Evidence, span: EvidenceSpan)
    requires HasAllFields(e)
    ensures Given(e, span) <==> exists site :: site in Sites(e) && site.span == span
  {
    var fieldSites := FlatMap(e.names, SitesOf(e));
    if Given(e, span) {
      if f :| f in e.fields && span in e.fields[f].evidence {
        var i :| 0 <= i < |e.fields[f].evidence| && e.fields[f].evidence[i] == span;
        var site := FieldSites(f, e.fields[f].evidence)[i];
        assert site in SitesOf(e)(f);
        FlatMapHas(e.names, SitesOf(e), f, site);
        assert site in Sites(e) && site.span == span;
      } else {
        var i :| 0 <= i < |e.mentioned| && e.mentioned[i].evidence == span;
        var site := MentionSites(e)[i];
        assert site in Sites(e) && site.span == span;
      }
    }
    if site :| site in Sites(e) && site.span == span {
      if site in fieldSites {
        FlatMapMember(e.names, SitesOf(e), site);
        var k :| 0 <= k < |e.names| && site in SitesOf(e)(e.names[k]);
        assert e.names[k] in e.fields && span in e.fields[e.names[k]].evidence;
      } else {
        var i :| 0 <= i < |e.mentioned| && MentionSites(e)[i] == site;
        assert e.mentioned[i].evidence == span;
      }
    }
  }

  lemma SpansMean(e: Evidence)
    requires HasAllFields(e)
    ensures FlatMap(Sites(e), SpanCheck(ArtifactIndex(e))) == [] <==>
            forall span :: Given(e, span) ==> QuotesRight(e, span)
  {
    var sites, check := Sites(e), SpanCheck(ArtifactIndex(e));
    FlatMapEmpty(sites, check);
    if FlatMap(sites, check) == [] {
      forall span | Given(e, span) ensures QuotesRight(e, span) {
        GivenIsSite(e, span);
        var site :| site in sites && site.span == span;
        CleanElement(sites, check, site);
        SiteMeans(e, site);
      }
    }
    if forall span :: Given(e, span) ==> QuotesRight(e, span) {
      forall i | 0 <= i < |sites| ensures check(sites[i]) == [] {
        assert sites[i] in sites;
        GivenIsSite(e, sites[i].span);
        SiteMeans(e, sites[i]);
      }
    }
  }

  // ---------- fields, escalation, writes ----------

  ghost predicate Escalates(s: Status) {
    s == Allowed || s == RecompositionRequired
  }

  ghost predicate FieldsRight(e: Evidence)
    requires HasAllFields(e)
  {
    && (forall f: FieldName :: f in e.fields && e.fields[f].value == True ==> e.fields[f].evidence != [])
    && (e.escalates ==> e.fields[ScanCoverageField].value == CompleteScan)
    && (e.escalates ==> forall a :: a in e.artifacts ==> a.coverage == Complete)
  }

  lemma FieldsMean(e: Evidence)
    requires HasAllFields(e)
    ensures FieldViolations(e) == [] <==> FieldsRight(e)
  {
    FlatMapEmpty(e.names, TrueCheck(e));
    FlatMapEmpty(e.artifacts, CoverageCheck(e));
    TrueFieldsMean(e);
    var a, b := FlatMap(e.names, TrueCheck(e)), FlatMap(e.artifacts, CoverageCheck(e));
    assert (forall i :: 0 <= i < |e.artifacts| ==> CoverageCheck(e)(e.artifacts[i]) == []) <==>
           (e.escalates ==> forall a :: a in e.artifacts ==> a.coverage == Complete);
  }

  lemma TrueFieldsMean(e: Evidence)
    requires HasAllFields(e)
    ensures (forall i :: 0 <= i < |e.names| ==> TrueCheck(e)(e.names[i]) == []) <==>
            forall f: FieldName :: f in e.fields && e.fields[f].value == True ==> e.fields[f].evidence != []
  {
    if forall i :: 0 <= i < |e.names| ==> TrueCheck(e)(e.names[i]) == [] {
      forall f: FieldName | f in e.fields && e.fields[f].value == True ensures e.fields[f].evidence != [] {
        var i :| 0 <= i < |e.names| && e.names[i] == f;
        assert TrueCheck(e)(e.names[i]) == [];
      }
    }
  }

  /** Unknown values other than of destructive intent, which the checker lets pass, block an escalation. */
  ghost predicate EscalationRight(e: Evidence)
    requires HasAllFields(e)
  {
    && e.unknownFields == (set f: FieldName | f in e.fields && e.fields[f].value == Unknown :: FieldText(f))
    && (e.escalates ==> e.requiresRecomposition && e.status != Allowed)
    && (e.escalates && Escalates(e.status) ==>
          && e.fields[RepositoryBound].value != Unknown && e.fields[ExplicitWriteIntent].value != Unknown
          && e.fields[ProtectedPathField].value != Unknown && e.fields[ScanCoverageField].value != Unknown
          && e.fields[RawArtifactHashVerified].value != Unknown
          && e.fields[PreviousProfileAuthorityVerified].value != Unknown)
  }

  lemma EscalationMeans(e: Evidence)
    requires HasAllFields(e)
    ensures EscalationViolations(e) == [] <==> EscalationRight(e)
  {
    var unknown := UnknownNames(e);
    assert (set f | f in unknown :: FieldText(f)) ==
           set f: FieldName | f in e.fields && e.fields[f].value == Unknown :: FieldText(f);
    BlockingMeans(e);
  }

  lemma BlockingMeans(e: Evidence)
    requires HasAllFields(e)
    ensures UnknownNames(e) * BlockingFields() == {} <==>
            && e.fields[RepositoryBound].value != Unknown && e.fields[ExplicitWriteIntent].value != Unknown
            && e.fields[ProtectedPathField].value != Unknown && e.fields[ScanCoverageField].value != Unknown
            && e.fields[RawArtifactHashVerified].value != Unknown
            && e.fields[PreviousProfileAuthorityVerified].value != Unknown
  {
    var both := UnknownNames(e) * BlockingFields();
    forall f: FieldName ensures f in both <==> f in BlockingFields() && e.fields[f].value == Unknown {
    }
  }

  ghost predicate WritesRight(e: Evidence)
    requires HasAllFields(e)
  {
    RepoWrite in e.toCapabilities && Escalates(e.status) ==>
      e.fields[ExplicitWriteIntent].value == True && e.fields[RepositoryBound].value == True
  }

  lemma WritesMean(e: Evidence)
    requires HasAllFields(e)
    ensures WriteViolations(e) == [] <==> WritesRight(e)
  {
  }

  // ---------- scanners and audit ----------

  ghost predicate HasVersion(e: Evidence, id: string) {
    id in e.scannerVersions && e.scannerVersions[id] == "0.1.0"
  }

  ghost predicate ScannersRight(e: Evidence) {
    && HasVersion(e, "path") && HasVersion(e, "repository_reference") && HasVersion(e, "write_intent")
    && HasVersion(e, "destructive_intent") && HasVersion(e, "protected_path")
    && HasVersion(e, "pull_request_reference") && HasVersion(e, "branch_reference")
    && HasVersion(e, "commit_reference")
  }

  lemma RequiredAre(e: Evidence)
    ensures (forall i :: 0 <= i < 8 ==> HasVersion(e, RequiredScanners()[i])) <==> ScannersRight(e)
  {
    var r := RequiredScanners();
    assert r[0] == "path" && r[1] == "repository_reference" && r[2] == "write_intent" && r[3] == "destructive_intent";
    assert r[4] == "protected_path" && r[5] == "pull_request_reference" && r[6] == "branch_reference";
    assert r[7] == "commit_reference";
  }

  lemma SortedAre(e: Evidence)
    ensures (forall i :: 0 <= i < 8 ==> SortedScanners()[i] in e.scannerVersions) <==>
            (forall i :: 0 <= i < 8 ==> RequiredScanners()[i] in e.scannerVersions)
  {
    var r, s, v := RequiredScanners(), SortedScanners(), e.scannerVersions;
    assert s[0] == r[6] && s[1] == r[7] && s[2] == r[3] && s[3] == r[0];
    assert s[4] == r[4] && s[5] == r[5] && s[6] == r[1] && s[7] == r[2];
    assert (s[0] in v && s[1] in v && s[2] in v && s[3] in v && s[4] in v && s[5] in v && s[6] in v && s[7] in v) <==>
           (r[0] in v && r[1] in v && r[2] in v && r[3] in v && r[4] in v && r[5] in v && r[6] in v && r[7] in v);
  }

  lemma ScannersMean(e: Evidence)
    ensures VersionViolations(e) == [] <==> ScannersRight(e)
  {
    FlatMapEmpty(SortedScanners(), MissingCheck(e));
    FlatMapEmpty(RequiredScanners(), VersionCheck(e));
    RequiredAre(e);
    SortedAre(e);
    var a, b := FlatMap(SortedScanners(), MissingCheck(e)), FlatMap(RequiredScanners(), VersionCheck(e));
    assert a + b == [] <==> a == [] && b == [];
    assert a == [] <==> forall i :: 0 <= i < 8 ==> SortedScanners()[i] in e.scannerVersions;
  }

  ghost predicate AuditRight(e: Evidence) {
    && "secret_values" in e.forbiddenContent && "private_keys" in e.forbiddenContent
    && "bearer_tokens" in e.forbiddenContent && "raw_runtime_traces" in e.forbiddenContent
    && "raw_tool_outputs" in e.forbiddenContent && "confidential_customer_data" in e.forbiddenContent
  }

  lemma AuditMeans(e: Evidence)
    ensures AuditViolations(e) == [] <==> AuditRight(e)
  {
    var f := ForbiddenAuditContent();
    if f - e.forbiddenContent == {} {
      forall x | x in f ensures x in e.forbiddenContent {
        assert x !in f - e.forbiddenContent;
      }
      assert "secret_values" in f && "private_keys" in f && "bearer_tokens" in f;
      assert "raw_runtime_traces" in f && "raw_tool_outputs" in f && "confidential_customer_data" in f;
    }
    if AuditRight(e) {
      assert f <= e.forbiddenContent;
    }
  }

  // ---------- coverage ----------

  ghost predicate Encloses(span: EvidenceSpan, s: Signal) {
    && span.artifactId == s.artifactId && span.artifactHash == s.artifactHash
    && span.start <= s.start && s.end <= span.end
  }

  ghost predicate FieldEncloses(e: Evidence, f: FieldName, s: Signal) {
    f in e.fields && exists i :: 0 <= i < |e.fields[f].evidence| && Encloses(e.fields[f].evidence[i], s)
  }

  /** The evidence for the signal's kind encloses it. */
  ghost predicate Enclosed(e: Evidence, s: Signal) {
    match s.kind
    case PathReference => exists i :: 0 <= i < |e.mentioned| && Encloses(e.mentioned[i].evidence, s)
    case ProtectedPathReference => FieldEncloses(e, ProtectedPathField, s)
    case WriteIntent => FieldEncloses(e, ExplicitWriteIntent, s)
    case DestructiveIntent => FieldEncloses(e, ExplicitDestructiveIntent, s)
    case RepositoryReference => FieldEncloses(e, RepositoryBound, s)
    case PullRequestReference => FieldEncloses(e, RepositoryBound, s)
    case BranchReference => FieldEncloses(e, RepositoryBound, s)
    case CommitReference => FieldEncloses(e, RepositoryBound, s)
  }

  lemma CoveredMeans(e: Evidence, s: Signal)
    ensures Covered(e, s) <==> Enclosed(e, s)
  {
    var spans := SpansFor(e, s.kind);
    if Covered(e, s) {
      var i :| 0 <= i < |spans| && SpanCovers(spans[i], s);
      assert Encloses(spans[i], s);
    }
    if s.kind == PathReference {
      assert forall i :: 0 <= i < |e.mentioned| ==> spans[i] == e.mentioned[i].evidence;
    }
    assert forall i :: 0 <= i < |spans| && Encloses(spans[i], s) ==> SpanCovers(spans[i], s);
  }

  ghost predicate SignalsRight(p: Patterns, e: Evidence) {
    forall i, s :: 0 <= i < |e.artifacts| && s in Scan(p, e.artifacts[i].id, e.artifacts[i].text) ==> Enclosed(e, s)
  }

  lemma CoverageMeans(p: Patterns, e: Evidence)
    ensures CoverageViolations(p, e) == [] <==> SignalsRight(p, e)
  {
    var signals := ArtifactSignals(p, e);
    FlatMapEmpty(signals, CoveredCheck(e));
    if CoverageViolations(p, e) == [] {
      forall i, s | 0 <= i < |e.artifacts| && s in Scan(p, e.artifacts[i].id, e.artifacts[i].text)
        ensures Enclosed(e, s)
      {
        assert s in ScanArtifact(p)(e.artifacts[i]);
        FlatMapMember(e.artifacts, ScanArtifact(p), s);
        CleanElement(signals, CoveredCheck(e), s);
        CoveredMeans(e, s);
      }
    }
    if SignalsRight(p, e) {
      forall k | 0 <= k < |signals| ensures CoveredCheck(e)(signals[k]) == [] {
        FlatMapMember(e.artifacts, ScanArtifact(p), signals[k]);
        var i :| 0 <= i < |e.artifacts| && signals[k] in ScanArtifact(p)(e.artifacts[i]);
        CoveredMeans(e, signals[k]);
      }
    }
  }

  // ---------- acceptance ----------

  lemma AllEmpty(a: seq<Violation>, b: seq<Violation>, c: seq<Violation>, d: seq<Violation>,
                 e: seq<Violation>, f: seq<Violation>, g: seq<Violation>, h: seq<Violation>)
    ensures a + b + c + d + e + f + g + h == [] <==>
            a == [] && b == [] && c == [] && d == [] && e == [] && f == [] && g == [] && h == []
  {
    assert |a| + |b| + |c| + |d| + |e| + |f| + |g| + |h| == |a + b + c + d + e + f + g + h|;
  }

  lemma NoViolation(p: Patterns, e: Evidence)
    requires HasAllFields(e)
    ensures Violations(p, e) == [] <==>
            && FlatMap(ArtifactIndex(e), HashCheck(p)) == [] && FlatMap(Sites(e), SpanCheck(ArtifactIndex(e))) == []
            && FieldViolations(e) == [] && EscalationViolations(e) == [] && WriteViolations(e) == []
            && VersionViolations(e) == [] && CoverageViolations(p, e) == [] && AuditViolations(e) == []
  {
    AllEmpty(FlatMap(ArtifactIndex(e), HashCheck(p)), FlatMap(Sites(e), SpanCheck(ArtifactIndex(e))),
             FieldViolations(e), EscalationViolations(e), WriteViolations(e), VersionViolations(e),
             CoverageViolations(p, e), AuditViolations(e));
  }

  /**
   The checker reports no violation if and only if hashes and quotations are right, true fields have
   evidence, an escalation is complete and not blocked, a repository write is intended and bound,
   the scanners have their versions, every scanned signal is enclosed by its own kind of evidence,
   and the audit forbids what it must.
   */
  lemma AcceptedMeans(p: Patterns, e: Evidence)
    requires HasAllFields(e)
    ensures Violations(p, e) == [] <==>
            && HashesRight(p, e) && (forall span :: Given(e, span) ==> QuotesRight(e, span))
            && FieldsRight(e) && EscalationRight(e) && WritesRight(e) && ScannersRight(e)
            && SignalsRight(p, e) && AuditRight(e)
  {
    NoViolation(p, e);
    HashesMean(p, e);
    SpansMean(e);
    FieldsMean(e);
    EscalationMeans(e);
    WritesMean(e);
    ScannersMean(e);
    CoverageMeans(p, e);
    AuditMeans(e);
  }

  /** The names of the critical fields, which `unknown_fields` must list. */
  lemma FieldTexts()
    ensures FieldText(RepositoryBound) == "repository_bound"
    ensures FieldText(ExplicitWriteIntent) == "explicit_write_intent"
    ensures FieldText(ExplicitDestructiveIntent) == "explicit_destructive_intent"
    ensures FieldText(ProtectedPathField) == "protected_path_reference"
    ensures FieldText(ScanCoverageField) == "scan_coverage"
    ensures FieldText(RawArtifactHashVerified) == "raw_artifact_hash_verified"
    ensures FieldText(PreviousProfileAuthorityVerified) == "previous_profile_authority_verified"
  {
  }
}
