/**
 The transition-signal scanner.  Each regular expression is an abstract matcher that returns the
 spans of its group in the text; the hash is an abstract function.
 */
module Scanner {
  import opened Common
  import opened Permutations
  import opened Dict

  // ---------- data ----------

  /** In alphabetical order of the names the scanner sorts by. */
  datatype Kind =
    | BranchReference | CommitReference | DestructiveIntent | PathReference
    | ProtectedPathReference | PullRequestReference | RepositoryReference | WriteIntent

  datatype Source = FromPath | FromProtectedPath | FromWriteIntent | FromDestructiveIntent | FromRepositoryReference

  datatype PathKind = NoPath | WindowsPath | UrlPath | PosixPath | RepoPath

  datatype Signal = Signal(
    kind: Kind,
    value: string,
    artifactId: string,
    artifactHash: string,
    span: string,
    start: nat,
    end: nat,
    source: Source,
    pathKind: PathKind
  )

  datatype Span = Span(start: nat, end: nat)

  datatype Patterns = Patterns(
    path: string -> seq<Span>,
    write: string -> seq<Span>,
    destructive: string -> seq<Span>,
    repository: string -> seq<Span>,
    pullRequest: string -> seq<Span>,
    branch: string -> seq<Span>,
    commit: string -> seq<Span>,
    hash: string -> string
  )

  predicate InRange(spans: seq<Span>, text: string) {
    forall i :: 0 <= i < |spans| ==> spans[i].start <= spans[i].end <= |text|
  }

  /** What a regular expression engine guarantees about the spans of a group. */
  predicate Matching(p: Patterns, text: string) {
    && InRange(p.path(text), text) && InRange(p.write(text), text) && InRange(p.destructive(text), text)
    && InRange(p.repository(text), text) && InRange(p.pullRequest(text), text)
    && InRange(p.branch(text), text) && InRange(p.commit(text), text)
  }

  // ---------- paths ----------

  predicate Trailing(c: char) {
    c in ".,;:)]}'\"`"
  }

  function TrimPathToken(value: string): (r: string)
    ensures r <= value
  {
    TrimEnd(value, Trailing)
  }

  predicate SentenceFragment(value: string) {
    '/' !in value && '\\' !in value  // a "://" contains a slash
  }

  predicate IsLetter(c: char) {
    'A' <= c <= 'Z' || 'a' <= c <= 'z'
  }

  function PathKindOf(value: string): PathKind {
    if |value| >= 3 && IsLetter(value[0]) && value[1] == ':' && value[2] == '\\' then WindowsPath
    else if StartsWith(value, "http://") || StartsWith(value, "https://") then UrlPath
    else if StartsWith(value, "/") || StartsWith(value, "./") || StartsWith(value, "../") then PosixPath
    else RepoPath
  }

  function Slashes(value: string): (r: string)
    ensures |r| == |value|
  {
    seq(|value|, i requires 0 <= i < |value| => if value[i] == '\\' then '/' else value[i])
  }

  function StripDotSlash(s: string): string {
    if StartsWith(s, "./") then StripDotSlash(s[2..]) else s
  }

  function ProtectedPrefixes(): seq<string> {
    [
      ".github/", "docs/adr/", "docs/policies/", "migrations/", "policies/", "schemas/",
      "src/skill_centric_agent_system/composition/", "src/skill_centric_agent_system/runtime/",
      "workers/control-api/"
    ]
  }

  predicate HasProtectedPrefix(s: string) {
    exists i :: 0 <= i < |ProtectedPrefixes()| && StartsWith(s, ProtectedPrefixes()[i])
  }

  predicate ProtectedPath(value: string) {
    HasProtectedPrefix(StripDotSlash(Slashes(value)))
  }

  method IsProtectedPath(value: string) returns (r: bool)
    ensures r == ProtectedPath(value)
  {
    var normalized := Slashes(value);
    while StartsWith(normalized, "./")
      invariant StripDotSlash(normalized) == StripDotSlash(Slashes(value))
      decreases |normalized|
    {
      normalized := normalized[2..];
    }
    r := HasProtectedPrefix(normalized);
  }

  // ---------- signals of one text ----------

  function SourceOf(kind: Kind): Source {
    match kind
    case PathReference => FromPath
    case ProtectedPathReference => FromProtectedPath
    case WriteIntent => FromWriteIntent
    case DestructiveIntent => FromDestructiveIntent
    case _ => FromRepositoryReference
  }

  /** A Python slice `text[a:b]`, which is never out of range. */
  function Slice(text: string, a: nat, b: nat): (r: string)
    ensures a <= b <= |text| ==> r == text[a..b]
  {
    if a <= Min(b, |text|) then text[a..Min(b, |text|)] else ""
  }

  /** `_signal`. */
  function MakeSignal(p: Patterns, id: string, text: string, kind: Kind, value: string, start: nat, end: nat,
                      pathKind: PathKind): Signal
  {
    Signal(kind, value, id, p.hash(text), Slice(text, start, end), start, end, SourceOf(kind), pathKind)
  }

  function PathValue(text: string, m: Span): string {
    TrimPathToken(Slice(text, m.start, m.end))
  }

  function PathSignals(p: Patterns, id: string, text: string, m: Span): seq<Signal> {
    PathRecords(p, id, text, m.start, PathValue(text, m))
  }

  /** The records of a path match that starts at `start`, cut to `value`. */
  function PathRecords(p: Patterns, id: string, text: string, start: nat, value: string): seq<Signal> {
    var end, pathKind := start + |value|, PathKindOf(value);
    if value == "" || SentenceFragment(value) then []
    else
      [MakeSignal(p, id, text, PathReference, value, start, end, pathKind)] +
      if ProtectedPath(value) then [MakeSignal(p, id, text, ProtectedPathReference, value, start, end, pathKind)]
      else []
  }

  function PathSignalsOf(p: Patterns, id: string, text: string): Span -> seq<Signal> {
    (m: Span) => PathSignals(p, id, text, m)
  }

  function AllPathSignals(p: Patterns, id: string, text: string, ms: seq<Span>): seq<Signal> {
    FlatMap(ms, PathSignalsOf(p, id, text))
  }

  function PatternSignal(p: Patterns, id: string, text: string, m: Span, kind: Kind): Signal {
    MakeSignal(p, id, text, kind, Slice(text, m.start, m.end), m.start, m.end, NoPath)
  }

  function PatternSignals(p: Patterns, id: string, text: string, ms: seq<Span>, kind: Kind): seq<Signal> {
    seq(|ms|, i requires 0 <= i < |ms| => PatternSignal(p, id, text, ms[i], kind))
  }

  function IntentSignals(p: Patterns, id: string, text: string): seq<Signal> {
    PatternSignals(p, id, text, p.write(text), WriteIntent) +
    PatternSignals(p, id, text, p.destructive(text), DestructiveIntent)
  }

  function ReferenceSignals(p: Patterns, id: string, text: string): seq<Signal> {
    PatternSignals(p, id, text, p.repository(text), RepositoryReference) +
    PatternSignals(p, id, text, p.pullRequest(text), PullRequestReference) +
    PatternSignals(p, id, text, p.branch(text), BranchReference) +
    PatternSignals(p, id, text, p.commit(text), CommitReference)
  }

  function RawSignals(p: Patterns, id: string, text: string): seq<Signal> {
    AllPathSignals(p, id, text, p.path(text)) + IntentSignals(p, id, text) + ReferenceSignals(p, id, text)
  }

  /** `_pattern_signals`. */
  method CollectPattern(p: Patterns, id: string, text: string, ms: seq<Span>, kind: Kind, source: Source)
    returns (signals: seq<Signal>)
    requires source == SourceOf(kind)
    ensures signals == PatternSignals(p, id, text, ms, kind)
  {
    signals := [];
    for i := 0 to |ms|
      invariant signals == PatternSignals(p, id, text, ms[..i], kind)
    {
      var m := ms[i];
      var span := Slice(text, m.start, m.end);
      signals := signals + [Signal(kind, span, id, p.hash(text), span, m.start, m.end, source, NoPath)];
    }
    assert ms[..|ms|] == ms;
  }

  method CollectPaths(p: Patterns, id: string, text: string, ms: seq<Span>) returns (signals: seq<Signal>)
    ensures signals == AllPathSignals(p, id, text, ms)
  {
    signals := [];
    for i := 0 to |ms|
      invariant signals == AllPathSignals(p, id, text, ms[..i])
    {
      assert ms[..i + 1][..i] == ms[..i];
      var found := CollectPath(p, id, text, ms[i]);
      signals := signals + found;
    }
    assert ms[..|ms|] == ms;
  }

  /** One turn of the loop over path matches. */
  method CollectPath(p: Patterns, id: string, text: string, m: Span) returns (signals: seq<Signal>)
    ensures signals == PathSignals(p, id, text, m)
  {
    var value := TrimPathToken(Slice(text, m.start, m.end));
    var start, end := m.start, m.start + |value|;
    if value == "" || SentenceFragment(value) {
      return [];
    }
    var pathKind := PathKindOf(value);
    var span := Slice(text, start, end);
    signals := [Signal(PathReference, value, id, p.hash(text), span, start, end, FromPath, pathKind)];
    var guarded := IsProtectedPath(value);
    if guarded {
      signals := signals + [Signal(ProtectedPathReference, value, id, p.hash(text), span, start, end,
                                   FromProtectedPath, pathKind)];
    }
  }

  /** `scan_transition_signals`. */
  method ScanTransitionSignals(p: Patterns, id: string, text: string) returns (signals: seq<Signal>)
    ensures signals == Scan(p, id, text)
  {
    signals := CollectPaths(p, id, text, p.path(text));
    var intents := CollectIntents(p, id, text);
    signals := signals + intents;
    var references := CollectReferences(p, id, text);
    signals := signals + references;
    signals := DedupeSignals(signals);
  }

  method CollectIntents(p: Patterns, id: string, text: string) returns (signals: seq<Signal>)
    ensures signals == IntentSignals(p, id, text)
  {
    signals := CollectPattern(p, id, text, p.write(text), WriteIntent, FromWriteIntent);
    var more := CollectPattern(p, id, text, p.destructive(text), DestructiveIntent, FromDestructiveIntent);
    signals := signals + more;
  }

  method CollectReferences(p: Patterns, id: string, text: string) returns (signals: seq<Signal>)
    ensures signals == ReferenceSignals(p, id, text)
  {
    signals := CollectPattern(p, id, text, p.repository(text), RepositoryReference, FromRepositoryReference);
    var more := CollectPattern(p, id, text, p.pullRequest(text), PullRequestReference, FromRepositoryReference);
    signals := signals + more;
    more := CollectPattern(p, id, text, p.branch(text), BranchReference, FromRepositoryReference);
    signals := signals + more;
    more := CollectPattern(p, id, text, p.commit(text), CommitReference, FromRepositoryReference);
    signals := signals + more;
  }

  // ---------- deduplication ----------

  datatype Key = Key(kind: Kind, artifactId: string, start: nat, end: nat)

  function KeyOf(s: Signal): Key {
    Key(s.kind, s.artifactId, s.start, s.end)
  }

  function Entries(signals: seq<Signal>): seq<Entry<Key, Signal>> {
    seq(|signals|, i requires 0 <= i < |signals| => Entry(KeyOf(signals[i]), signals[i]))
  }

  function Values(d: Dict<Key, Signal>): seq<Signal> {
    seq(|d|, i requires 0 <= i < |d| => d[i].value)
  }

  /** Comparison of strings by code point, as Python compares them. */
  predicate LexLe(a: string, b: string) {
    a == [] || (b != [] && (a[0] < b[0] || (a[0] == b[0] && LexLe(a[1..], b[1..]))))
  }

  function Rank(k: Kind): nat {
    match k
    case BranchReference => 0
    case CommitReference => 1
    case DestructiveIntent => 2
    case PathReference => 3
    case ProtectedPathReference => 4
    case PullRequestReference => 5
    case RepositoryReference => 6
    case WriteIntent => 7
  }

  predicate SignalLe(a: Signal, b: Signal) {
    if a.artifactId != b.artifactId then LexLe(a.artifactId, b.artifactId)
    else if a.start != b.start then a.start < b.start
    else Rank(a.kind) <= Rank(b.kind)
  }

  /** Places `s` after the last element it does not have to precede. */
  function InsertSorted(sorted: seq<Signal>, s: Signal): seq<Signal> {
    if sorted == [] || SignalLe(sorted[|sorted| - 1], s) then sorted + [s]
    else InsertSorted(sorted[..|sorted| - 1], s) + [sorted[|sorted| - 1]]
  }

  /** A stable sort. */
  function SortSignals(signals: seq<Signal>): seq<Signal> {
    if signals == [] then []
    else InsertSorted(SortSignals(signals[..|signals| - 1]), signals[|signals| - 1])
  }

  function Dedupe(signals: seq<Signal>): seq<Signal> {
    SortSignals(Values(Build(Entries(signals))))
  }

  function Scan(p: Patterns, id: string, text: string): seq<Signal> {
    Dedupe(RawSignals(p, id, text))
  }

  method DedupeSignals(signals: seq<Signal>) returns (r: seq<Signal>)
    ensures r == Dedupe(signals)
  {
    var deduped: Dict<Key, Signal> := [];
    for i := 0 to |signals|
      invariant deduped == Build(Entries(signals[..i]))
    {
      var entries := Entries(signals[..i + 1]);
      assert entries[..|entries| - 1] == Entries(signals[..i]);
      var s := signals[i];
      deduped := Put(deduped, Key(s.kind, s.artifactId, s.start, s.end), s);
    }
    assert signals[..|signals|] == signals;
    r := SortSignals(Values(deduped));
  }

  ghost predicate SortedSignals(s: seq<Signal>) {
    forall i :: 0 <= i < |s| - 1 ==> SignalLe(s[i], s[i + 1])
  }

  ghost predicate DistinctKeys(s: seq<Signal>) {
    forall i, j :: 0 <= i < j < |s| ==> KeyOf(s[i]) != KeyOf(s[j])
  }

  lemma {:induction false} LexTotal(a: string, b: string)
    ensures LexLe(a, b) || LexLe(b, a)
  {
    if a != [] && b != [] && a[0] == b[0] {
      LexTotal(a[1..], b[1..]);
    }
  }

  lemma SignalLeTotal(a: Signal, b: Signal)
    ensures SignalLe(a, b) || SignalLe(b, a)
  {
    LexTotal(a.artifactId, b.artifactId);
  }

  lemma SortedAppend(s: seq<Signal>, last: Signal)
    requires SortedSignals(s) && (s != [] ==> SignalLe(s[|s| - 1], last))
    ensures SortedSignals(s + [last])
  {
    var r := s + [last];
    assert forall i :: 0 <= i < |s| ==> r[i] == s[i];
  }

  lemma {:induction false} InsertSortedLast(sorted: seq<Signal>, s: Signal)
    ensures |InsertSorted(sorted, s)| == |sorted| + 1
    ensures var last := InsertSorted(sorted, s)[|sorted|];
            last == s || (sorted != [] && last == sorted[|sorted| - 1])
  {
    if sorted != [] && !SignalLe(sorted[|sorted| - 1], s) {
      InsertSortedLast(sorted[..|sorted| - 1], s);
    }
  }

  lemma {:induction false} InsertSortedKeepsOrder(sorted: seq<Signal>, s: Signal)
    requires SortedSignals(sorted)
    ensures SortedSignals(InsertSorted(sorted, s))
  {
    if sorted == [] || SignalLe(sorted[|sorted| - 1], s) {
      SortedAppend(sorted, s);
    } else {
      var n := |sorted|;
      var init, last := sorted[..n - 1], sorted[n - 1];
      InsertSortedKeepsOrder(init, s);
      var r := InsertSorted(init, s);
      InsertSortedLast(init, s);
      assert SignalLe(r[n - 1], last) by {
        SignalLeTotal(last, s);
        assert n >= 2 ==> SignalLe(sorted[n - 2], sorted[n - 2 + 1]);
      }
      SortedAppend(r, last);
    }
  }

  lemma {:induction false} InsertSortedMembers(sorted: seq<Signal>, s: Signal)
    ensures multiset(InsertSorted(sorted, s)) == multiset(sorted) + multiset{s}
  {
    if sorted != [] && !SignalLe(sorted[|sorted| - 1], s) {
      var init, last := sorted[..|sorted| - 1], sorted[|sorted| - 1];
      InsertSortedMembers(init, s);
      assert sorted == init + [last];
    }
  }

  lemma {:induction false} SortSignalsFacts(signals: seq<Signal>)
    ensures SortedSignals(SortSignals(signals))
    ensures multiset(SortSignals(signals)) == multiset(signals)
  {
    if signals != [] {
      var init, last := signals[..|signals| - 1], signals[|signals| - 1];
      SortSignalsFacts(init);
      InsertSortedKeepsOrder(SortSignals(init), last);
      InsertSortedMembers(SortSignals(init), last);
      assert signals == init + [last];
    }
  }

  lemma {:induction false} SortSorted(signals: seq<Signal>)
    requires SortedSignals(signals)
    ensures SortSignals(signals) == signals
  {
    if signals != [] {
      var init, last := signals[..|signals| - 1], signals[|signals| - 1];
      SortSorted(init);
      assert signals == init + [last];
      assert init != [] ==> SignalLe(signals[|signals| - 2], signals[|signals| - 1]);
    }
  }

  /** Entries in which a record stands under its own key. */
  ghost predicate Keyed(d: Dict<Key, Signal>) {
    forall e :: e in d ==> e.key == KeyOf(e.value)
  }

  lemma EntriesKeyed(signals: seq<Signal>)
    ensures Keyed(Entries(signals))
    ensures forall s :: s in signals <==> Entry(KeyOf(s), s) in Entries(signals)
  {
    forall s | s in signals ensures Entry(KeyOf(s), s) in Entries(signals) {
      var i :| 0 <= i < |signals| && signals[i] == s;
      assert Entries(signals)[i] == Entry(KeyOf(s), s);
    }
  }

  lemma ValuesOfKeyed(d: Dict<Key, Signal>)
    requires UniqueKeys(d) && Keyed(d)
    ensures DistinctKeys(Values(d))
    ensures forall s :: s in Values(d) <==> Entry(KeyOf(s), s) in d
  {
    forall i | 0 <= i < |d| ensures d[i].key == KeyOf(Values(d)[i]) {
      assert d[i] in d;
    }
    forall s | Entry(KeyOf(s), s) in d ensures s in Values(d) {
      var i :| 0 <= i < |d| && d[i] == Entry(KeyOf(s), s);
      assert Values(d)[i] == s;
    }
    forall s | s in Values(d) ensures Entry(KeyOf(s), s) in d {
      var i :| 0 <= i < |d| && Values(d)[i] == s;
      assert d[i] == Entry(KeyOf(s), s);
    }
  }

  lemma ValuesOfBuilt(signals: seq<Signal>)
    ensures DistinctKeys(Values(Build(Entries(signals))))
    ensures forall s :: s in Values(Build(Entries(signals))) ==> s in signals
  {
    BuildFacts(Entries(signals));
    EntriesKeyed(signals);
    ValuesOfKeyed(Build(Entries(signals)));
  }

  lemma ValuesCover(signals: seq<Signal>, s: Signal) returns (t: Signal)
    requires s in signals
    ensures t in Values(Build(Entries(signals))) && KeyOf(t) == KeyOf(s)
  {
    EntriesKeyed(signals);
    BuildFacts(Entries(signals));
    var f := BuildCovers(Entries(signals), Entry(KeyOf(s), s));
    ValuesOfKeyed(Build(Entries(signals)));
    t := f.value;
    assert f == Entry(KeyOf(t), t);
  }

  /** Distinct keys survive rearranging. */
  lemma DistinctKeysPermute(a: seq<Signal>, b: seq<Signal>)
    requires DistinctKeys(a) && multiset(a) == multiset(b)
    ensures DistinctKeys(b)
  {
    PermutedMembers(a, b);
    DistinctPermutes(a, b);
    forall i, j | 0 <= i < j < |b| ensures KeyOf(b[i]) != KeyOf(b[j]) {
      assert b[i] in a && b[j] in a;
      var x :| 0 <= x < |a| && a[x] == b[i];
      var y :| 0 <= y < |a| && a[y] == b[j];
      assert x != y;
    }
  }

  /** Deduplication returns sorted input records with unique keys, one for every key of the input. */
  lemma DedupeFacts(signals: seq<Signal>)
    ensures SortedSignals(Dedupe(signals)) && DistinctKeys(Dedupe(signals))
    ensures forall s :: s in Dedupe(signals) ==> s in signals
    ensures forall s :: s in signals ==> exists t :: t in Dedupe(signals) && KeyOf(t) == KeyOf(s)
  {
    var values := Values(Build(Entries(signals)));
    ValuesOfBuilt(signals);
    SortSignalsFacts(values);
    PermutedMembers(SortSignals(values), values);
    DistinctKeysPermute(values, SortSignals(values));
    forall s | s in signals ensures exists t :: t in Dedupe(signals) && KeyOf(t) == KeyOf(s) {
      var t := ValuesCover(signals, s);
    }
  }

  lemma DedupeIdempotent(signals: seq<Signal>)
    ensures Dedupe(Dedupe(signals)) == Dedupe(signals)
  {
    var r := Dedupe(signals);
    DedupeFacts(signals);
    BuildUnique(Entries(r));
    assert Values(Entries(r)) == r;
    SortSorted(r);
  }

  // ---------- what the scanner reports ----------

  /** The record is determined by its kind and offsets, and quotes the text at those offsets. */
  ghost predicate Sound(p: Patterns, id: string, text: string, s: Signal) {
    && s.start <= s.end <= |text|
    && s.artifactId == id && s.artifactHash == p.hash(text)
    && s.value == s.span == text[s.start..s.end]
    && s.source == SourceOf(s.kind)
    && s.pathKind == if s.kind == PathReference || s.kind == ProtectedPathReference then PathKindOf(s.value) else NoPath
  }

  lemma PathSignalsSound(p: Patterns, id: string, text: string, m: Span)
    requires m.start <= m.end <= |text|
    ensures forall s :: s in PathSignals(p, id, text, m) ==> Sound(p, id, text, s)
  {
    var value := PathValue(text, m);
    assert text[m.start..m.start + |value|] == value;
  }

  lemma {:induction false} AllPathSignalsSound(p: Patterns, id: string, text: string, ms: seq<Span>)
    requires InRange(ms, text)
    ensures forall s :: s in AllPathSignals(p, id, text, ms) ==> Sound(p, id, text, s)
  {
    if ms != [] {
      AllPathSignalsSound(p, id, text, ms[..|ms| - 1]);
      PathSignalsSound(p, id, text, ms[|ms| - 1]);
    }
  }

  /** The signals of every path match are collected. */
  lemma PathSignalsCollected(p: Patterns, id: string, text: string, ms: seq<Span>, i: nat)
    requires i < |ms|
    ensures forall s :: s in PathSignals(p, id, text, ms[i]) ==> s in AllPathSignals(p, id, text, ms)
  {
    var f := PathSignalsOf(p, id, text);
    forall s | s in f(ms[i]) ensures s in FlatMap(ms, f) {
      FlatMapMember(ms, f, s);
    }
  }

  lemma RawSignalsSound(p: Patterns, id: string, text: string)
    requires Matching(p, text)
    ensures forall s :: s in RawSignals(p, id, text) ==> Sound(p, id, text, s)
  {
    AllPathSignalsSound(p, id, text, p.path(text));
    PatternSignalsSound(p, id, text, p.write(text), WriteIntent);
    PatternSignalsSound(p, id, text, p.destructive(text), DestructiveIntent);
    PatternSignalsSound(p, id, text, p.repository(text), RepositoryReference);
    PatternSignalsSound(p, id, text, p.pullRequest(text), PullRequestReference);
    PatternSignalsSound(p, id, text, p.branch(text), BranchReference);
    PatternSignalsSound(p, id, text, p.commit(text), CommitReference);
  }

  lemma PatternSignalsSound(p: Patterns, id: string, text: string, ms: seq<Span>, kind: Kind)
    requires InRange(ms, text) && kind != PathReference && kind != ProtectedPathReference
    ensures forall s :: s in PatternSignals(p, id, text, ms, kind) ==> Sound(p, id, text, s)
  {
  }

  lemma SameKeySameSignal(p: Patterns, id: string, text: string, s: Signal, t: Signal)
    requires Sound(p, id, text, s) && Sound(p, id, text, t) && KeyOf(s) == KeyOf(t)
    ensures s == t
  {
  }

  /**
   Every reported signal quotes the text exactly, and deduplication loses nothing: the scan
   reports the collected records, each once, because two records with one key are identical.
   */
  lemma ScanIsExact(p: Patterns, id: string, text: string)
    requires Matching(p, text)
    ensures SortedSignals(Scan(p, id, text)) && DistinctKeys(Scan(p, id, text))
    ensures forall s :: s in Scan(p, id, text) <==> s in RawSignals(p, id, text)
    ensures forall s :: s in Scan(p, id, text) ==> Sound(p, id, text, s)
  {
    var raw := RawSignals(p, id, text);
    RawSignalsSound(p, id, text);
    DedupeFacts(raw);
    forall s | s in raw ensures s in Dedupe(raw) {
      var t :| t in Dedupe(raw) && KeyOf(t) == KeyOf(s);
      SameKeySameSignal(p, id, text, s, t);
    }
  }

  // ---------- protected paths ----------

  lemma PrefixShape(i: nat)
    requires i < |ProtectedPrefixes()|
    ensures |ProtectedPrefixes()[i]| >= 2 && ProtectedPrefixes()[i][|ProtectedPrefixes()[i]| - 1] == '/'
    ensures ProtectedPrefixes()[i][1] != '/'
  {
  }

  /** A protected path is recognised from a beginning of it that ends in a slash. */
  lemma {:induction false} ProtectedBeginning(s: string) returns (n: nat)
    requires HasProtectedPrefix(StripDotSlash(s))
    ensures 0 < n <= |s| && s[n - 1] == '/' && HasProtectedPrefix(StripDotSlash(s[..n]))
    decreases |s|
  {
    if StartsWith(s, "./") {
      var m := ProtectedBeginning(s[2..]);
      n := m + 2;
      assert s[..n][..2] == "./" && s[..n][2..] == s[2..][..m];
      assert s[n - 1] == s[2..][m - 1];
    } else {
      var i :| 0 <= i < |ProtectedPrefixes()| && StartsWith(s, ProtectedPrefixes()[i]);
      PrefixShape(i);
      n := |ProtectedPrefixes()[i]|;
      assert s[..n] == ProtectedPrefixes()[i];
      assert s[n - 1] == ProtectedPrefixes()[i][n - 1];
      assert StartsWith(s[..n], ProtectedPrefixes()[i]);
    }
  }

  /** Text added at the end never takes protection away. */
  lemma {:induction false} LongerStaysProtected(s: string, t: string)
    requires s <= t && HasProtectedPrefix(StripDotSlash(s))
    ensures HasProtectedPrefix(StripDotSlash(t))
    decreases |s|
  {
    if StartsWith(s, "./") {
      assert t[..2] == s[..2];
      LongerStaysProtected(s[2..], t[2..]);
    } else {
      var i :| 0 <= i < |ProtectedPrefixes()| && StartsWith(s, ProtectedPrefixes()[i]);
      PrefixShape(i);
      var prefix := ProtectedPrefixes()[i];
      assert t[..|prefix|] == s[..|prefix|] == prefix;
      assert t[1] == prefix[1];
      assert StartsWith(t, prefix);
    }
  }

  lemma {:induction false} TrimEndKeeps(s: string, drop: char -> bool, i: nat)
    requires i < |s| && !drop(s[i])
    ensures i < |TrimEnd(s, drop)|
  {
    if drop(s[|s| - 1]) {
      TrimEndKeeps(s[..|s| - 1], drop, i);
    }
  }

  /** Cutting punctuation off the end of a path neither loses nor adds protection. */
  lemma TrimKeepsProtection(value: string)
    ensures ProtectedPath(TrimPathToken(value)) <==> ProtectedPath(value)
    ensures ProtectedPath(value) ==> TrimPathToken(value) != "" && !SentenceFragment(TrimPathToken(value))
  {
    var trimmed := TrimPathToken(value);
    var long, short := Slashes(value), Slashes(trimmed);
    assert short == long[..|short|];
    if ProtectedPath(trimmed) {
      LongerStaysProtected(short, long);
    }
    if ProtectedPath(value) {
      var n := ProtectedBeginning(long);
      assert !Trailing(value[n - 1]);
      TrimEndKeeps(value, Trailing, n - 1);
      assert long[..n] <= short;
      LongerStaysProtected(long[..n], short);
      assert trimmed[n - 1] == value[n - 1];
    }
  }

  /**
   Every path match that begins like a protected path, before trimming, is reported both as a
   path and as a protected path, at the same offsets.
   */
  lemma ProtectedMatchIsReported(p: Patterns, id: string, text: string, i: nat) returns (a: Signal, b: Signal)
    requires Matching(p, text) && i < |p.path(text)|
    requires ProtectedPath(text[p.path(text)[i].start..p.path(text)[i].end])
    ensures a in Scan(p, id, text) && a.kind == PathReference
    ensures b in Scan(p, id, text) && b.kind == ProtectedPathReference
    ensures a.start == b.start == p.path(text)[i].start && a.end == b.end
  {
    var m := p.path(text)[i];
    TrimKeepsProtection(text[m.start..m.end]);
    PathSignalsCollected(p, id, text, p.path(text), i);
    var found := PathSignals(p, id, text, m);
    assert |found| == 2;
    a, b := found[0], found[1];
    assert a in found && b in found;
    ScanIsExact(p, id, text);
  }
}
