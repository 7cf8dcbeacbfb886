/** What a scan reports, said about the text, the matches of each pattern and the offsets alone. */
module ScannerMeaning {
  import opened Common
  import opened Scanner

  // ---------- protected paths ----------

  function Slash(c: char): char {
    if c == '\\' then '/' else c
  }

  /** The text begins like the literal, a back slash counting as a slash. */
  ghost predicate Begins(s: string, literal: string) {
    |literal| <= |s| && forall i :: 0 <= i < |literal| ==> Slash(s[i]) == literal[i]
  }

  ghost predicate BeginsProtected(s: string) {
    || Begins(s, ".github/") || Begins(s, "docs/adr/") || Begins(s, "docs/policies/") || Begins(s, "migrations/")
    || Begins(s, "policies/") || Begins(s, "schemas/")
    || Begins(s, "src/skill_centric_agent_system/composition/")
    || Begins(s, "src/skill_centric_agent_system/runtime/") || Begins(s, "workers/control-api/")
  }

  /** After any number of `./`, one of the protected directories. */
  ghost predicate Guarded(s: string) {
    BeginsProtected(s) || (Begins(s, "./") && Guarded(s[2..]))
  }

  lemma BeginsIsStart(s: string, literal: string)
    ensures Begins(s, literal) <==> StartsWith(Slashes(s), literal)
  {
    if StartsWith(Slashes(s), literal) {
      forall i | 0 <= i < |literal| ensures Slash(s[i]) == literal[i] {
        StartsWithAt(Slashes(s), literal, i);
      }
    }
    if Begins(s, literal) {
      assert Slashes(s)[0..|literal|] == literal;
    }
  }

  lemma BeginsProtectedIsPrefix(s: string)
    ensures BeginsProtected(s) <==> HasProtectedPrefix(Slashes(s))
  {
    var ps := ProtectedPrefixes();
    forall i | 0 <= i < 9 ensures Begins(s, ps[i]) <==> StartsWith(Slashes(s), ps[i]) {
      BeginsIsStart(s, ps[i]);
    }
    assert ps[0] == ".github/" && ps[1] == "docs/adr/" && ps[2] == "docs/policies/" && ps[3] == "migrations/";
    assert ps[4] == "policies/" && ps[5] == "schemas/" && ps[6] == "src/skill_centric_agent_system/composition/";
    assert ps[7] == "src/skill_centric_agent_system/runtime/" && ps[8] == "workers/control-api/";
  }

  lemma DotSlashIsNotProtected(s: string)
    requires StartsWith(s, "./")
    ensures !HasProtectedPrefix(s)
  {
    StartsWithAt(s, "./", 1);
    forall i | 0 <= i < |ProtectedPrefixes()| ensures !StartsWith(s, ProtectedPrefixes()[i]) {
      PrefixShape(i);
      StartsWithAt(s, ProtectedPrefixes()[i], 1);
    }
  }

  /** The protection test of the scanner is exactly this. */
  lemma {:induction false} ProtectedMeans(s: string)
    ensures ProtectedPath(s) <==> Guarded(s)
    decreases |s|
  {
    BeginsProtectedIsPrefix(s);
    BeginsIsStart(s, "./");
    if Begins(s, "./") {
      DotSlashIsNotProtected(Slashes(s));
      ProtectedMeans(s[2..]);
      assert Slashes(s)[2..] == Slashes(s[2..]);
    }
  }

  // ---------- one signal ----------

  predicate Punctuation(c: char) {
    c in ".,;:)]}'\"`"
  }

  /** Offset `end` is where the match from `a` to `b` ends once punctuation is cut off. */
  ghost predicate CutAt(text: string, a: nat, b: nat, end: nat)
    requires a <= b <= |text|
  {
    && a <= end <= b && (forall i :: end <= i < b ==> Punctuation(text[i]))
    && (end > a ==> !Punctuation(text[end - 1]))
  }

  /** A path match that yields a path: cut, not empty, and with some slash. */
  ghost predicate PathAt(p: Patterns, text: string, a: nat, end: nat) {
    && a < end <= |text| && ('/' in text[a..end] || '\\' in text[a..end])
    && exists m :: m in p.path(text) && m.start == a && a <= m.end <= |text| && CutAt(text, a, m.end, end)
  }

  /** What a signal of each kind stands for. */
  ghost predicate StandsFor(p: Patterns, text: string, s: Signal) {
    match s.kind
    case PathReference =>
      PathAt(p, text, s.start, s.end) && s.source == FromPath && s.pathKind == PathKindOf(s.value)
    case ProtectedPathReference =>
      PathAt(p, text, s.start, s.end) && Guarded(s.value) && s.source == FromProtectedPath &&
      s.pathKind == PathKindOf(s.value)
    case WriteIntent =>
      Span(s.start, s.end) in p.write(text) && s.source == FromWriteIntent && s.pathKind == NoPath
    case DestructiveIntent =>
      Span(s.start, s.end) in p.destructive(text) && s.source == FromDestructiveIntent && s.pathKind == NoPath
    case RepositoryReference =>
      Span(s.start, s.end) in p.repository(text) && s.source == FromRepositoryReference && s.pathKind == NoPath
    case PullRequestReference =>
      Span(s.start, s.end) in p.pullRequest(text) && s.source == FromRepositoryReference && s.pathKind == NoPath
    case BranchReference =>
      Span(s.start, s.end) in p.branch(text) && s.source == FromRepositoryReference && s.pathKind == NoPath
    case CommitReference =>
      Span(s.start, s.end) in p.commit(text) && s.source == FromRepositoryReference && s.pathKind == NoPath
  }

  /** Origin and quotation, which all signals share. */
  ghost predicate QuotedFrom(p: Patterns, id: string, text: string, s: Signal) {
    && s.artifactId == id && s.artifactHash == p.hash(text)
    && s.start <= s.end <= |text| && s.value == s.span == text[s.start..s.end]
  }

  // ---------- patterns ----------

  /** The signals of one pattern are its matches. */
  lemma PatternMeans(p: Patterns, id: string, text: string, ms: seq<Span>, kind: Kind, s: Signal)
    requires InRange(ms, text) && kind != PathReference && kind != ProtectedPathReference
    ensures s in PatternSignals(p, id, text, ms, kind) <==>
            && s.kind == kind && QuotedFrom(p, id, text, s) && Span(s.start, s.end) in ms
            && s.source == SourceOf(kind) && s.pathKind == NoPath
  {
    var signals := PatternSignals(p, id, text, ms, kind);
    if s in signals {
      var i :| 0 <= i < |signals| && signals[i] == s;
      assert ms[i] == Span(s.start, s.end);
    }
    if s.kind == kind && QuotedFrom(p, id, text, s) && Span(s.start, s.end) in ms && s.source == SourceOf(kind) &&
       s.pathKind == NoPath {
      var i :| 0 <= i < |ms| && ms[i] == Span(s.start, s.end);
      assert signals[i] == s;
    }
  }

  // ---------- paths ----------

  lemma {:induction false} TrimIsCut(t: string, n: nat)
    ensures n == |TrimPathToken(t)| <==>
            && n <= |t| && (forall i :: n <= i < |t| ==> Punctuation(t[i])) && (n > 0 ==> !Punctuation(t[n - 1]))
  {
    if t != [] && Punctuation(t[|t| - 1]) {
      var init := t[..|t| - 1];
      TrimIsCut(init, n);
      assert TrimPathToken(t) == TrimPathToken(init);
      assert forall i :: 0 <= i < |init| ==> init[i] == t[i];
    }
  }

  lemma TrimIsCutInText(text: string, m: Span, end: nat)
    requires m.start <= m.end <= |text|
    ensures end == m.start + |PathValue(text, m)| <==> CutAt(text, m.start, m.end, end)
    ensures m.start + |PathValue(text, m)| <= m.end
    ensures PathValue(text, m) == text[m.start..m.start + |PathValue(text, m)|]
  {
    var t := text[m.start..m.end];
    var n := |PathValue(text, m)|;
    assert forall i :: 0 <= i < |t| ==> t[i] == text[m.start + i];
    TrimIsCut(t, n);
    assert PathValue(text, m) == t[..n];
    if end >= m.start {
      TrimIsCut(t, end - m.start);
      if CutAt(text, m.start, m.end, end) {
        assert forall i :: end - m.start <= i < |t| ==> Punctuation(t[i]);
      }
    }
  }

  /** The record quotes the match at `start`, cut to `value`. */
  ghost predicate Quotes(p: Patterns, id: string, text: string, start: nat, value: string, s: Signal) {
    && s.artifactId == id && s.artifactHash == p.hash(text) && s.value == value
    && s.start == start && s.end == start + |value| && s.span == Slice(text, s.start, s.end)
  }

  lemma PathRecordsAre(p: Patterns, id: string, text: string, start: nat, value: string, s: Signal)
    ensures s in PathRecords(p, id, text, start, value) <==>
            && value != "" && !SentenceFragment(value) && Quotes(p, id, text, start, value, s) && PathRecord(s)
  {
    RecordAgrees(p, id, text, start, value, s);
  }

  /** Kind, source and path kind of a record fit its value. */
  ghost predicate PathRecord(s: Signal) {
    && s.pathKind == PathKindOf(s.value)
    && ((s.kind == PathReference && s.source == FromPath) ||
        (s.kind == ProtectedPathReference && s.source == FromProtectedPath && ProtectedPath(s.value)))
  }

  lemma RecordAgrees(p: Patterns, id: string, text: string, start: nat, value: string, s: Signal)
    ensures var end, k := start + |value|, PathKindOf(value);
            Quotes(p, id, text, start, value, s) && PathRecord(s) <==>
            || s == MakeSignal(p, id, text, PathReference, value, start, end, k)
            || (ProtectedPath(value) && s == MakeSignal(p, id, text, ProtectedPathReference, value, start, end, k))
  {
  }

  /** What a path match yields. */
  ghost predicate CutOutOf(p: Patterns, id: string, text: string, m: Span, s: Signal)
    requires m.start <= m.end <= |text|
  {
    && QuotedFrom(p, id, text, s) && s.start == m.start && CutAt(text, m.start, m.end, s.end)
    && s.start < s.end && ('/' in s.value || '\\' in s.value)
  }

  lemma QuotesMeans(p: Patterns, id: string, text: string, m: Span, s: Signal)
    requires m.start <= m.end <= |text|
    ensures var value := PathValue(text, m);
            value != "" && !SentenceFragment(value) && Quotes(p, id, text, m.start, value, s) <==>
            CutOutOf(p, id, text, m, s)
  {
    var value := PathValue(text, m);
    TrimIsCutInText(text, m, s.end);
    var end := m.start + |value|;
    assert text[m.start..end] == value && Slice(text, m.start, end) == value;
  }

  lemma PathSignalsMean(p: Patterns, id: string, text: string, m: Span, s: Signal)
    requires m.start <= m.end <= |text|
    ensures s in PathSignals(p, id, text, m) <==> CutOutOf(p, id, text, m, s) && PathRecord(s)
  {
    PathRecordsAre(p, id, text, m.start, PathValue(text, m), s);
    QuotesMeans(p, id, text, m, s);
  }

  lemma SomeCut(p: Patterns, id: string, text: string, s: Signal)
    requires InRange(p.path(text), text)
    ensures (exists i :: 0 <= i < |p.path(text)| && CutOutOf(p, id, text, p.path(text)[i], s)) <==>
            QuotedFrom(p, id, text, s) && PathAt(p, text, s.start, s.end)
  {
    var ms := p.path(text);
    assert forall i :: 0 <= i < |ms| ==> ms[i] in ms;
  }

  lemma AllPathSignalsMean(p: Patterns, id: string, text: string, s: Signal)
    requires InRange(p.path(text), text)
    ensures s in AllPathSignals(p, id, text, p.path(text)) <==>
            && (s.kind == PathReference || s.kind == ProtectedPathReference)
            && QuotedFrom(p, id, text, s) && StandsFor(p, text, s)
  {
    var ms := p.path(text);
    FlatMapMember(ms, PathSignalsOf(p, id, text), s);
    forall i | 0 <= i < |ms|
      ensures s in PathSignalsOf(p, id, text)(ms[i]) <==> CutOutOf(p, id, text, ms[i], s) && PathRecord(s)
    {
      PathSignalsMean(p, id, text, ms[i], s);
    }
    SomeCut(p, id, text, s);
    ProtectedMeans(s.value);
  }

  // ---------- the scan ----------

  lemma IntentsMean(p: Patterns, id: string, text: string, s: Signal)
    requires Matching(p, text)
    ensures s in IntentSignals(p, id, text) <==>
            && (s.kind == WriteIntent || s.kind == DestructiveIntent)
            && QuotedFrom(p, id, text, s) && StandsFor(p, text, s)
  {
    PatternMeans(p, id, text, p.write(text), WriteIntent, s);
    PatternMeans(p, id, text, p.destructive(text), DestructiveIntent, s);
  }

  lemma ReferencesMean(p: Patterns, id: string, text: string, s: Signal)
    requires Matching(p, text)
    ensures s in ReferenceSignals(p, id, text) <==>
            && s.kind in {RepositoryReference, PullRequestReference, BranchReference, CommitReference}
            && QuotedFrom(p, id, text, s) && StandsFor(p, text, s)
  {
    PatternMeans(p, id, text, p.repository(text), RepositoryReference, s);
    PatternMeans(p, id, text, p.pullRequest(text), PullRequestReference, s);
    PatternMeans(p, id, text, p.branch(text), BranchReference, s);
    PatternMeans(p, id, text, p.commit(text), CommitReference, s);
  }

  /**
   For every text: a record is in the scan if and only if it quotes the text at its offsets and
   stands for a match of the very pattern of its kind; a path for a match cut off before trailing
   punctuation that still holds a slash, a protected path for such a path that is guarded.
   */
  lemma ScanMeans(p: Patterns, id: string, text: string, s: Signal)
    requires Matching(p, text)
    ensures s in Scan(p, id, text) <==> QuotedFrom(p, id, text, s) && StandsFor(p, text, s)
  {
    ScanIsExact(p, id, text);
    AllPathSignalsMean(p, id, text, s);
    IntentsMean(p, id, text, s);
    ReferencesMean(p, id, text, s);
  }

  // ---------- order and path kinds ----------

  function KindName(k: Kind): string {
    match k
    case BranchReference => "branch_reference"
    case CommitReference => "commit_reference"
    case DestructiveIntent => "destructive_intent"
    case PathReference => "path_reference"
    case ProtectedPathReference => "protected_path_reference"
    case PullRequestReference => "pull_request_reference"
    case RepositoryReference => "repository_reference"
    case WriteIntent => "write_intent"
  }

  lemma {:induction false} LexReflexive(s: string)
    ensures LexLe(s, s)
  {
    if s != [] {
      LexReflexive(s[1..]);
    }
  }

  lemma Initials(k: Kind)
    ensures |KindName(k)| >= 2
    ensures KindName(k)[..2] == match k {
      case BranchReference => "br"
      case CommitReference => "co"
      case DestructiveIntent => "de"
      case PathReference => "pa"
      case ProtectedPathReference => "pr"
      case PullRequestReference => "pu"
      case RepositoryReference => "re"
      case WriteIntent => "wr"
    }
  {
  }

  lemma LexByInitials(a: string, b: string)
    requires |a| >= 2 && |b| >= 2 && (a[0] < b[0] || (a[0] == b[0] && a[1] < b[1]))
    ensures LexLe(a, b)
  {
    assert a[1..][0] == a[1] && b[1..][0] == b[1];
  }

  lemma RankIsAlphabetical(k: Kind, l: Kind)
    requires Rank(k) <= Rank(l)
    ensures LexLe(KindName(k), KindName(l))
  {
    if k == l {
      LexReflexive(KindName(k));
    } else {
      var a, b := KindName(k), KindName(l);
      Initials(k);
      Initials(l);
      assert a[0] == a[..2][0] && a[1] == a[..2][1] && b[0] == b[..2][0] && b[1] == b[..2][1];
      LexByInitials(a, b);
    }
  }

  /** The records of a scan come by start offset, and at one offset by the name of their kind. */
  lemma ScanOrder(p: Patterns, id: string, text: string, i: nat, j: nat)
    requires Matching(p, text) && i < j < |Scan(p, id, text)|
    ensures var s, t := Scan(p, id, text)[i], Scan(p, id, text)[j];
            s.start < t.start || (s.start == t.start && LexLe(KindName(s.kind), KindName(t.kind)))
  {
    OfOneArtifact(p, id, text);
    OrderOf(Scan(p, id, text), i, j);
  }

  lemma OfOneArtifact(p: Patterns, id: string, text: string)
    requires Matching(p, text)
    ensures SortedSignals(Scan(p, id, text)) && forall s :: s in Scan(p, id, text) ==> s.artifactId == id
  {
    ScanIsExact(p, id, text);
  }

  lemma OrderOf(signals: seq<Signal>, i: nat, j: nat)
    requires SortedSignals(signals) && i < j < |signals|
    requires forall s, t :: s in signals && t in signals ==> s.artifactId == t.artifactId
    ensures signals[i].start < signals[j].start ||
            (signals[i].start == signals[j].start && LexLe(KindName(signals[i].kind), KindName(signals[j].kind)))
  {
    assert forall k :: 0 <= k < |signals| ==> signals[k] in signals;
    SortedTransitive(signals, i, j);
    if signals[i].start == signals[j].start {
      RankIsAlphabetical(signals[i].kind, signals[j].kind);
    }
  }

  lemma {:induction false} SortedTransitive(signals: seq<Signal>, i: nat, j: nat)
    requires SortedSignals(signals) && i < j < |signals|
    requires forall k :: 0 <= k < |signals| ==> signals[k].artifactId == signals[0].artifactId
    ensures signals[i].start < signals[j].start ||
            (signals[i].start == signals[j].start && Rank(signals[i].kind) <= Rank(signals[j].kind))
    decreases j
  {
    if i < j - 1 {
      SortedTransitive(signals, i, j - 1);
    }
  }

  /** One path of each kind. */
  lemma PathKindExamples()
    ensures PathKindOf("C:\\x") == WindowsPath
    ensures PathKindOf("http://x") == UrlPath && PathKindOf("https://x") == UrlPath
    ensures PathKindOf("/x") == PosixPath && PathKindOf("./x") == PosixPath && PathKindOf("../x") == PosixPath
    ensures PathKindOf("a/x") == RepoPath
  {
    assert "http://x"[0..7] == "http://" && "https://x"[0..8] == "https://";
    assert "/x"[0..1] == "/" && "./x"[0..2] == "./" && "../x"[0..3] == "../";
  }
}
