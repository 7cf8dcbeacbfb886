/**
 Two independent checks that workflow actions are pinned: the hardening check on workflow lines,
 and the bill of materials that is generated from the same lines and then validated.
 */
module ActionPins {
  import opened Common

  // ---------- references in workflow lines ----------

  predicate RefChar(c: char) {
    !IsSpace(c) && c != '#'
  }

  function RefLength(s: string): (n: nat)
    ensures n <= |s| && forall i :: 0 <= i < n ==> RefChar(s[i])
  {
    if s == [] || !RefChar(s[0]) then 0
    else
      var n := 1 + RefLength(s[1..]);
      assert forall i :: 1 <= i < n ==> s[i] == s[1..][i - 1];
      n
  }

  /** The regular expression `^\s*(?:-\s*)?uses:\s*(?P<ref>[^\s#]+)`. */
  function MatchUses(line: string): (r: Option<string>)
    ensures r.Some? ==> forall i :: 0 <= i < |r.value| ==> RefChar(r.value[i])
  {
    var s := TrimStart(line, IsSpace);
    var item := if StartsWith(s, "-") then TrimStart(s[1..], IsSpace) else s;
    if !StartsWith(item, "uses:") then None
    else
      var rest := TrimStart(item[5..], IsSpace);
      var n := RefLength(rest);
      if n == 0 then None else Some(rest[..n])
  }

  predicate DoubleQuote(c: char) {
    c == '"'
  }

  predicate SingleQuote(c: char) {
    c == '\''
  }

  function ReferenceOf(line: string): Option<string> {
    match MatchUses(line)
    case None => None
    case Some(ref) => Some(Strip(Strip(Strip(ref, IsSpace), DoubleQuote), SingleQuote))
  }

  // ---------- the hardening check ----------

  predicate Hex(c: char) {
    '0' <= c <= '9' || 'a' <= c <= 'f'
  }

  predicate AllHex(s: string) {
    forall i :: 0 <= i < |s| ==> Hex(s[i])
  }

  predicate PinEndsAt(s: string, end: nat)
    requires end <= |s|
  {
    end >= 41 && s[end - 41] == '@' && AllHex(s[end - 40..end])
  }

  /** `@[0-9a-f]{40}$`, where `$` also matches before a final line feed. */
  predicate SearchFullSha(s: string) {
    PinEndsAt(s, |s|) || (s != [] && s[|s| - 1] == '\n' && PinEndsAt(s, |s| - 1))
  }

  predicate Contains(s: string, part: string) {
    exists i :: 0 <= i <= |s| && StartsAt(s, i, part)
  }

  predicate IsLocal(ref: string) {
    StartsWith(ref, "./") || StartsWith(ref, "../")
  }

  predicate ReferenceAllowed(ref: string) {
    if IsLocal(ref) then true
    else if StartsWith(ref, "docker://") then Contains(ref, "@sha256:")
    else SearchFullSha(ref)
  }

  predicate HardeningRejects(line: string) {
    var ref := ReferenceOf(line);
    ref.Some? && !ReferenceAllowed(ref.value)
  }

  /** The pin loop of `check_workflow_hardening`: numbers of the rejected lines. */
  method CheckPins(lines: seq<string>) returns (rejected: seq<nat>)
    ensures rejected == RejectedLines(lines)
  {
    rejected := [];
    for i := 0 to |lines|
      invariant rejected == RejectedLines(lines[..i])
    {
      assert lines[..i + 1][..i] == lines[..i];
      assert lines[..i + 1][i] == lines[i];
      var ref := ReferenceOf(lines[i]);
      assert HardeningRejects(lines[i]) <==> ref.Some? && !ReferenceAllowed(ref.value);
      if ref.None? {
        continue;
      }
      if !ReferenceAllowed(ref.value) {
        rejected := rejected + [i + 1];
      }
    }
    assert lines[..|lines|] == lines;
  }

  function RejectedLines(lines: seq<string>): seq<nat> {
    if lines == [] then []
    else RejectedLines(lines[..|lines| - 1]) + if HardeningRejects(lines[|lines| - 1]) then [|lines|] else []
  }

  // ---------- the bill of materials ----------

  /** `Other` can only come from a file that was not generated. */
  datatype ActionKind = Local | Docker | External | Other(text: string)

  datatype Entry = Entry(line: nat, kind: ActionKind, name: string, reference: string, pin: string,
                         shaPinned: bool, dockerDigestPinned: bool)

  datatype Bom = Bom(version: string, actions: seq<Entry>)

  function KindOf(ref: string): ActionKind {
    if IsLocal(ref) then Local else if StartsWith(ref, "docker://") then Docker else External
  }

  /** Length of the part after the last `@`, or of the whole text when there is none. */
  function TailLength(s: string): (n: nat)
    ensures n <= |s| && '@' !in s[|s| - n..]
    ensures n < |s| ==> s[|s| - n - 1] == '@'
  {
    if s == [] || s[|s| - 1] == '@' then 0
    else
      var init := s[..|s| - 1];
      var n := 1 + TailLength(init);
      assert s[|s| - n..] == init[|init| - (n - 1)..] + [s[|s| - 1]];
      n
  }

  /** `reference.rsplit("@", 1)`, with an empty pin when there is no `@`. */
  function SplitPin(ref: string): (string, string) {
    if '@' !in ref then (ref, "")
    else (ref[..Max(|ref| - TailLength(ref) - 1, 0)], ref[|ref| - TailLength(ref)..])
  }

  predicate FullSha(pin: string) {
    |pin| == 40 && AllHex(pin)
  }

  function EntryFor(line: nat, ref: string): Entry {
    var kind := KindOf(ref);
    var (name, pin) := SplitPin(ref);
    Entry(line, kind, name, ref, pin, kind != External || FullSha(pin), kind != Docker || Contains(ref, "@sha256:"))
  }

  function Entries(lines: seq<string>): seq<Entry> {
    if lines == [] then []
    else
      var ref := ReferenceOf(lines[|lines| - 1]);
      Entries(lines[..|lines| - 1]) + if ref.Some? then [EntryFor(|lines|, ref.value)] else []
  }

  /** The inner loop of `collect_actions`. */
  method CollectActions(lines: seq<string>) returns (entries: seq<Entry>)
    ensures entries == Entries(lines)
  {
    entries := [];
    for i := 0 to |lines|
      invariant entries == Entries(lines[..i])
    {
      assert lines[..i + 1][..i] == lines[..i];
      var ref := ReferenceOf(lines[i]);
      if ref.None? {
        continue;
      }
      entries := entries + [EntryFor(i + 1, ref.value)];
    }
    assert lines[..|lines|] == lines;
  }

  /** `build_actions_bom`, for the lines of one workflow. */
  function GeneratedBom(lines: seq<string>): Bom {
    Bom("0.1.0", Entries(lines))
  }

  datatype BomFailure =
    | WrongVersion | NotShaPinned(line: nat) | NotDigestPinned(line: nat) | UnknownKind(line: nat)

  function EntryFailures(e: Entry): seq<BomFailure> {
    match e.kind
    case External => if e.shaPinned then [] else [NotShaPinned(e.line)]
    case Docker => if e.dockerDigestPinned then [] else [NotDigestPinned(e.line)]
    case Local => []
    case Other(_) => [UnknownKind(e.line)]
  }

  function BomFailures(b: Bom): seq<BomFailure> {
    (if b.version != "0.1.0" then [WrongVersion] else []) + FlatMap(b.actions, EntryFailures)
  }

  /** `validate_actions_bom_file`. */
  method ValidateBom(b: Bom) returns (failures: seq<BomFailure>)
    ensures failures == BomFailures(b)
  {
    failures := if b.version != "0.1.0" then [WrongVersion] else [];
    for i := 0 to |b.actions|
      invariant failures == BomFailures(Bom(b.version, b.actions[..i]))
    {
      FlatMapStep(b.actions, i, EntryFailures);
      var more := CheckEntry(b.actions[i]);
      failures := failures + more;
    }
    assert b.actions[..|b.actions|] == b.actions;
  }

  /** One turn of that loop. */
  method CheckEntry(e: Entry) returns (failures: seq<BomFailure>)
    ensures failures == EntryFailures(e)
  {
    failures := [];
    if e.kind == External && !e.shaPinned {
      failures := failures + [NotShaPinned(e.line)];
    }
    if e.kind == Docker && !e.dockerDigestPinned {
      failures := failures + [NotDigestPinned(e.line)];
    }
    if e.kind != Local && e.kind != Docker && e.kind != External {
      failures := failures + [UnknownKind(e.line)];
    }
  }

  // ---------- agreement ----------

  lemma {:induction false} TailLengthIs(name: string, pin: string)
    requires '@' !in pin
    ensures TailLength(name + ("@" + pin)) == |pin|
  {
    var s := name + ("@" + pin);
    if pin != [] {
      var init := pin[..|pin| - 1];
      assert s[..|s| - 1] == name + ("@" + init);
      TailLengthIs(name, init);
    }
  }

  /** "Ends with @ and 40 hex digits" is "the part after the last @ is 40 hex digits". */
  lemma PinFormsAgree(ref: string)
    ensures PinEndsAt(ref, |ref|) <==> FullSha(SplitPin(ref).1)
  {
    if PinEndsAt(ref, |ref|) {
      var name, pin := ref[..|ref| - 41], ref[|ref| - 40..];
      assert ref == name + ("@" + pin);
      assert pin == ref[|ref| - 40..|ref|];
      assert forall i :: 0 <= i < |pin| ==> Hex(pin[i]);
      TailLengthIs(name, pin);
      assert ref[|ref| - 41] in ref;
    }
    if FullSha(SplitPin(ref).1) {
      assert '@' in ref;
      assert ref[|ref| - |ref|..] == ref;
      assert TailLength(ref) < |ref|;
    }
  }

  lemma {:induction false} TrimStartKeeps(s: string, drop: char -> bool, test: char -> bool)
    requires forall i :: 0 <= i < |s| ==> test(s[i])
    ensures forall i :: 0 <= i < |TrimStart(s, drop)| ==> test(TrimStart(s, drop)[i])
  {
    if s != [] && drop(s[0]) {
      TrimStartKeeps(s[1..], drop, test);
    }
  }

  lemma StripKeeps(s: string, drop: char -> bool, test: char -> bool)
    requires forall i :: 0 <= i < |s| ==> test(s[i])
    ensures forall i :: 0 <= i < |Strip(s, drop)| ==> test(Strip(s, drop)[i])
  {
    TrimStartKeeps(s, drop, test);
  }

  /** A reference holds no white space, so the final line feed plays no part. */
  lemma ReferenceHasNoSpace(line: string)
    requires ReferenceOf(line).Some?
    ensures forall i :: 0 <= i < |ReferenceOf(line).value| ==> RefChar(ReferenceOf(line).value[i])
  {
    var ref := MatchUses(line).value;
    StripKeeps(ref, IsSpace, RefChar);
    var bare := Strip(ref, IsSpace);
    StripKeeps(bare, DoubleQuote, RefChar);
    StripKeeps(Strip(bare, DoubleQuote), SingleQuote, RefChar);
  }

  /** The numbers of the lines that failures name. */
  function FailureLines(failures: seq<BomFailure>): seq<nat> {
    FlatMap(failures, FailureLine)
  }

  function FailureLine(f: BomFailure): seq<nat> {
    if f.WrongVersion? then [] else [f.line]
  }

  lemma {:induction false} EntryLines(e: Entry)
    ensures |EntryFailures(e)| <= 1
    ensures FailureLines(EntryFailures(e)) == if EntryFailures(e) != [] then [e.line] else []
  {
    FlatMapOne(NotShaPinned(e.line), FailureLine);
    FlatMapOne(NotDigestPinned(e.line), FailureLine);
    FlatMapOne(UnknownKind(e.line), FailureLine);
  }

  lemma {:induction false} EntryAgrees(ref: string, number: nat)
    requires forall i :: 0 <= i < |ref| ==> RefChar(ref[i])
    ensures EntryFailures(EntryFor(number, ref)) != [] <==> !ReferenceAllowed(ref)
  {
    PinFormsAgree(ref);
    assert SearchFullSha(ref) <==> PinEndsAt(ref, |ref|);
  }

  lemma {:induction false} LineAgrees(line: string, number: nat)
    requires ReferenceOf(line).Some?
    ensures FailureLines(EntryFailures(EntryFor(number, ReferenceOf(line).value))) ==
            if HardeningRejects(line) then [number] else []
  {
    var ref := ReferenceOf(line).value;
    ReferenceHasNoSpace(line);
    EntryAgrees(ref, number);
    EntryLines(EntryFor(number, ref));
  }

  lemma FailureLinesAppend(a: seq<BomFailure>, b: seq<BomFailure>)
    requires |b| <= 1
    ensures FailureLines(a + b) == FailureLines(a) + FailureLines(b)
  {
    if b == [] {
      assert a + b == a;
    } else {
      assert b == [] + [b[0]];
      FlatMapAppend([], b[0], FailureLine);
      FlatMapAppend(a, b[0], FailureLine);
    }
  }

  lemma {:induction false} EntriesAgree(lines: seq<string>)
    ensures FailureLines(FlatMap(Entries(lines), EntryFailures)) == RejectedLines(lines)
  {
    if lines != [] {
      var init, last := lines[..|lines| - 1], lines[|lines| - 1];
      EntriesAgree(init);
      if ReferenceOf(last).Some? {
        var e := EntryFor(|lines|, ReferenceOf(last).value);
        LineAgrees(last, |lines|);
        FlatMapAppend(Entries(init), e, EntryFailures);
        FailureLinesAppend(FlatMap(Entries(init), EntryFailures), EntryFailures(e));
      } else {
        assert Entries(lines) == Entries(init);
      }
    }
  }

  /**
   For every workflow, validating the generated bill of materials complains about exactly the lines
   that the hardening check rejects, in the same order, and about nothing else.
   */
  lemma PinChecksAgree(lines: seq<string>)
    ensures FailureLines(BomFailures(GeneratedBom(lines))) == RejectedLines(lines)
    ensures |BomFailures(GeneratedBom(lines))| == |RejectedLines(lines)|
  {
    EntriesAgree(lines);
    var failures := FlatMap(Entries(lines), EntryFailures);
    assert BomFailures(GeneratedBom(lines)) == failures;
    NoVersionFailure(Entries(lines));
    OneLineEach(failures);
  }

  lemma {:induction false} NoVersionFailure(entries: seq<Entry>)
    ensures forall f :: f in FlatMap(entries, EntryFailures) ==> !f.WrongVersion?
  {
    if entries != [] {
      NoVersionFailure(entries[..|entries| - 1]);
    }
  }

  lemma {:induction false} OneLineEach(failures: seq<BomFailure>)
    requires forall f :: f in failures ==> !f.WrongVersion?
    ensures |FailureLines(failures)| == |failures|
  {
    if failures != [] {
      var init := failures[..|failures| - 1];
      assert forall f :: f in init ==> f in failures;
      OneLineEach(init);
      assert failures[|init|] in failures;
    }
  }

  // ---------- which lines are rejected ----------

  ghost predicate AllSpace(s: string) {
    forall i :: 0 <= i < |s| ==> IsSpace(s[i])
  }

  /** A line that uses an action: blanks, perhaps a dash, the keyword, blanks, and the raw reference. */
  ghost predicate UsesLine(line: string, left: string, dash: string, gap: string, raw: string, rest: string) {
    && line == left + (dash + ("uses:" + (gap + (raw + rest))))
    && AllSpace(left) && AllSpace(gap) && (dash == "" || (dash[0] == '-' && AllSpace(dash[1..])))
    && raw != "" && (forall i :: 0 <= i < |raw| ==> RefChar(raw[i])) && (rest == "" || !RefChar(rest[0]))
  }

  lemma {:induction false} RefLengthIs(raw: string, rest: string)
    requires (forall i :: 0 <= i < |raw| ==> RefChar(raw[i])) && (rest == "" || !RefChar(rest[0]))
    ensures RefLength(raw + rest) == |raw|
  {
    if raw == [] {
      assert raw + rest == rest;
    } else {
      RefLengthIs(raw[1..], rest);
      assert (raw + rest)[1..] == raw[1..] + rest;
    }
  }

  lemma {:induction false} RefLengthSplits(s: string)
    ensures var n := RefLength(s); n <= |s| && (n == |s| || !RefChar(s[n]))
  {
    if s != [] && RefChar(s[0]) {
      RefLengthSplits(s[1..]);
    }
  }

  lemma AfterKeyword(gap: string, raw: string, rest: string)
    requires AllSpace(gap) && raw != "" && (forall i :: 0 <= i < |raw| ==> RefChar(raw[i]))
    requires rest == "" || !RefChar(rest[0])
    ensures var s := TrimStart(gap + (raw + rest), IsSpace); RefLength(s) == |raw| && s[..|raw|] == raw
  {
    TrimStartMeans(gap, raw + rest, IsSpace);
    RefLengthIs(raw, rest);
  }

  lemma KeywordIsFound(x: string)
    ensures StartsWith("uses:" + x, "uses:") && ("uses:" + x)[5..] == x && !StartsWith("uses:" + x, "-")
    ensures !IsSpace(("uses:" + x)[0])
  {
    assert ("uses:" + x)[0..5] == "uses:" && ("uses:" + x)[0] == 'u';
    StartsWithAt("uses:" + x, "-", 0);
  }

  lemma UsesLineMatches(line: string, left: string, dash: string, gap: string, raw: string, rest: string)
    requires UsesLine(line, left, dash, gap, raw, rest)
    ensures MatchUses(line) == Some(raw)
  {
    var tail := gap + (raw + rest);
    var item := "uses:" + tail;
    KeywordIsFound(tail);
    AfterKeyword(gap, raw, rest);
    if dash == "" {
      assert dash + item == item;
      TrimStartMeans(left, item, IsSpace);
    } else {
      assert dash == "-" + dash[1..];
      assert dash + item == "-" + (dash[1..] + item);
      assert (dash + item)[0..1] == "-" && (dash + item)[1..] == dash[1..] + item;
      TrimStartMeans(left, dash + item, IsSpace);
      TrimStartMeans(dash[1..], item, IsSpace);
    }
  }

  /** What `MatchUses` looks at after blanks and an optional dash. */
  function ItemOf(line: string): string {
    var s := TrimStart(line, IsSpace);
    if StartsWith(s, "-") then TrimStart(s[1..], IsSpace) else s
  }

  lemma DashSplits(s: string, pad: string, item: string)
    requires StartsWith(s, "-") && s[1..] == pad + item
    ensures s == ("-" + pad) + item && ("-" + pad)[0] == '-' && ("-" + pad)[1..] == pad
  {
    StartsWithAt(s, "-", 0);
    assert s == [s[0]] + s[1..];
  }

  lemma ItemSplits(line: string) returns (left: string, dash: string)
    ensures line == left + (dash + ItemOf(line)) && AllSpace(left)
    ensures dash == "" || (dash[0] == '-' && AllSpace(dash[1..]))
  {
    left := TrimStartSplits(line, IsSpace);
    var s := TrimStart(line, IsSpace);
    if StartsWith(s, "-") {
      var pad := TrimStartSplits(s[1..], IsSpace);
      dash := "-" + pad;
      DashSplits(s, pad, ItemOf(line));
    } else {
      dash := "";
      assert dash + s == s;
    }
  }

  lemma TailSplits(tail: string) returns (gap: string, raw: string, rest: string)
    ensures tail == gap + (raw + rest) && AllSpace(gap)
    ensures raw == TrimStart(tail, IsSpace)[..RefLength(TrimStart(tail, IsSpace))]
    ensures (forall i :: 0 <= i < |raw| ==> RefChar(raw[i])) && (rest == "" || !RefChar(rest[0]))
  {
    gap := TrimStartSplits(tail, IsSpace);
    var refs := TrimStart(tail, IsSpace);
    var n := RefLength(refs);
    RefLengthSplits(refs);
    raw, rest := refs[..n], refs[n..];
    assert refs == raw + rest;
  }

  lemma MatchIsItem(line: string)
    requires MatchUses(line).Some?
    ensures var item := ItemOf(line);
            && StartsWith(item, "uses:") && item == "uses:" + item[5..]
            && var refs := TrimStart(item[5..], IsSpace);
               RefLength(refs) > 0 && MatchUses(line) == Some(refs[..RefLength(refs)])
  {
  }

  lemma MatchIsUsesLine(line: string) returns (left: string, dash: string, gap: string, raw: string, rest: string)
    requires MatchUses(line).Some?
    ensures UsesLine(line, left, dash, gap, raw, rest) && MatchUses(line) == Some(raw)
  {
    MatchIsItem(line);
    left, dash := ItemSplits(line);
    gap, raw, rest := TailSplits(ItemOf(line)[5..]);
  }

  /** A local action, a container image with a digest, or an action pinned to a full hash. */
  ghost predicate Pinned(ref: string) {
    || StartsWith(ref, "./") || StartsWith(ref, "../")
    || (StartsWith(ref, "docker://") && exists i :: 0 <= i && StartsAt(ref, i, "@sha256:"))
    || (!StartsWith(ref, "docker://") && |ref| >= 41 && ref[|ref| - 41] == '@' &&
        forall i :: |ref| - 40 <= i < |ref| ==> '0' <= ref[i] <= '9' || 'a' <= ref[i] <= 'f')
  }

  lemma AllowedMeans(ref: string)
    requires forall i :: 0 <= i < |ref| ==> RefChar(ref[i])
    ensures ReferenceAllowed(ref) <==> Pinned(ref)
  {
    assert SearchFullSha(ref) <==> PinEndsAt(ref, |ref|);
    if |ref| >= 41 {
      var tail := ref[|ref| - 40..|ref|];
      assert forall i :: 0 <= i < |tail| ==> tail[i] == ref[|ref| - 40 + i];
      assert AllHex(tail) <==> forall i :: |ref| - 40 <= i < |ref| ==> Hex(ref[i]) by {
        if AllHex(tail) {
          forall i | |ref| - 40 <= i < |ref| ensures Hex(ref[i]) {
            assert tail[i - (|ref| - 40)] == ref[i];
          }
        }
      }
    }
  }

  /**
   A workflow line is rejected if and only if it uses an action whose reference, without its quotes,
   is not pinned; a line that uses none is never rejected.
   */
  lemma RejectedMeans(line: string)
    ensures MatchUses(line).None? ==> !HardeningRejects(line)
    ensures MatchUses(line).Some? ==>
              (HardeningRejects(line) <==>
               !Pinned(Strip(Strip(Strip(MatchUses(line).value, IsSpace), DoubleQuote), SingleQuote)))
  {
    if MatchUses(line).Some? {
      ReferenceHasNoSpace(line);
      AllowedMeans(ReferenceOf(line).value);
    }
  }

  // ---------- entries ----------

  /** An entry takes its reference apart at the last `@` and names its kind. */
  lemma EntryMeans(number: nat, ref: string)
    ensures var e := EntryFor(number, ref);
            && e.line == number && e.reference == ref
            && (if '@' in ref then ref == e.name + ("@" + e.pin) && '@' !in e.pin else e.name == ref && e.pin == "")
            && (e.kind == Local <==> StartsWith(ref, "./") || StartsWith(ref, "../"))
            && (e.kind == Docker <==> e.kind != Local && StartsWith(ref, "docker://"))
            && (e.kind == External <==> e.kind != Local && e.kind != Docker)
  {
    assert ref[|ref| - |ref|..] == ref;
    if '@' in ref {
      var n := TailLength(ref);
      assert ref == ref[..|ref| - n - 1] + ("@" + ref[|ref| - n..]);
    }
  }

  /** What a correct entry has: a pin of its kind, and a known kind. */
  ghost predicate WellPinned(e: Entry) {
    && e.kind in {Local, Docker, External}
    && (e.kind == External ==> e.shaPinned) && (e.kind == Docker ==> e.dockerDigestPinned)
  }

  /** A bill of materials passes if and only if it has the version and every entry is well pinned. */
  lemma BomMeans(b: Bom)
    ensures BomFailures(b) == [] <==>
            b.version == "0.1.0" && forall i :: 0 <= i < |b.actions| ==> WellPinned(b.actions[i])
  {
    FlatMapEmpty(b.actions, EntryFailures);
    forall i | 0 <= i < |b.actions| ensures EntryFailures(b.actions[i]) == [] <==> WellPinned(b.actions[i]) {
    }
  }
}
