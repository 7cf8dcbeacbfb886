/**
 The hand-written PDF file: a writer that keeps byte offsets while it appends, and a reader
 that follows `startxref`, the cross-reference table and `/Length` (sections 7.5.4 and 7.5.5
 of ISO 32000-1) to get objects and text lines back.
 */
module PdfDocument {
  import opened Common
  import opened Decimals
  import opened PdfText

  // ---------- layout of the file ----------

  const MAX_LINES: nat := 52
  const MAX_CHARS: nat := 105

  function Header(): string {
    "%PDF-1.4\n%\U{E2}\U{E3}\U{CF}\U{D3}\n"
  }

  function ObjectText(number: nat, obj: string): string {
    Render(number) + (" 0 obj\n" + (obj + "\nendobj\n"))
  }

  /** Header and numbered objects. */
  function Body(objs: seq<string>): string {
    if objs == [] then Header()
    else Body(objs[..|objs| - 1]) + ObjectText(|objs|, objs[|objs| - 1])
  }

  /** Byte index where object `k` (counted from 1) starts. */
  function Offset(objs: seq<string>, k: nat): nat
    requires 1 <= k <= |objs|
  {
    |Body(objs[..k - 1])|
  }

  function EntryText(offset: nat): string {
    Padded(offset, 10) + " 00000 n \n"
  }

  /** Cross-reference entries 0 to `n`. */
  function Entries(objs: seq<string>, n: nat): string
    requires n <= |objs|
  {
    if n == 0 then "0000000000 65535 f \n" else Entries(objs, n - 1) + EntryText(Offset(objs, n))
  }

  /** An indirect reference, `k 0 R`. */
  function Reference(k: nat): string {
    Render(k) + " 0 R"
  }

  function TrailerDict(size: nat): string {
    "trailer\n" + ("<< " + ("/Size " + (Render(size) + (" " + ("/Root " + (Reference(1) + " >>\n"))))))
  }

  function Table(objs: seq<string>): string {
    "xref\n0 " + (Render(|objs| + 1) + ("\n" + (Entries(objs, |objs|) + TrailerDict(|objs| + 1))))
  }

  function Tail(xref: nat): string {
    "startxref\n" + (Render(xref) + "\n%%EOF\n")
  }

  function Document(objs: seq<string>): string {
    Body(objs) + (Table(objs) + Tail(|Body(objs)|))
  }

  // ---------- text content ----------

  function Join(parts: seq<string>): string {
    if parts == [] then []
    else if |parts| == 1 then parts[0]
    else parts[0] + ("\n" + Join(parts[1..]))
  }

  function ShowOp(line: string): string {
    "(" + (Escape(Take(line, MAX_CHARS)) + ") Tj")
  }

  /** Operators for lines `i` and later, then the end of the text object. */
  function ShowOps(lines: seq<string>, i: nat): seq<string>
    requires i <= |lines|
    decreases |lines| - i
  {
    if i == |lines| then ["ET"]
    else (if i > 0 then ["T*"] else []) + ([ShowOp(lines[i])] + ShowOps(lines, i + 1))
  }

  function Preamble(): seq<string> {
    ["BT", "/F1 11 Tf", "50 790 Td", "14 TL"]
  }

  function PageLines(title: string, lines: seq<string>): seq<string> {
    Take([title, ""] + lines, MAX_LINES)
  }

  function Stream(title: string, lines: seq<string>): string {
    Latin1(Join(Preamble() + ShowOps(PageLines(title, lines), 0)))
  }

  function StreamObject(stream: string): string {
    "<< /Length " + (Render(|stream|) + (" >>\nstream\n" + (stream + "\nendstream")))
  }

  function CatalogObject(): string {
    "<< " + ("/Type " + ("/Catalog " + ("/Pages " + (Reference(2) + " >>"))))
  }

  function PagesObject(): string {
    "<< " + ("/Type " + ("/Pages " + ("/Kids [" + (Reference(3) + "] /Count 1 >>"))))
  }

  function PageObject(): string {
    "<< " + ("/Type " + ("/Page " + ("/Parent 2 0 R " + ("/MediaBox [0 0 595 842] " +
    ("/Resources << " + ("/Font << " + ("/F1 4 0 R >> >> " + ("/Contents " + (Reference(5) + " >>")))))))))
  }

  function Objects(stream: string): seq<string> {
    [CatalogObject(), PagesObject(), PageObject(), "<< /Type /Font /Subtype /Type1 /BaseFont /Helvetica >>",
     StreamObject(stream)]
  }

  // ---------- writing ----------

  /** `simple_pdf`: builds the content list, then appends to one buffer, recording positions. */
  method SimplePdf(title: string, lines: seq<string>) returns (output: string)
    ensures output == Document(Objects(Stream(title, lines)))
  {
    var textLines := Take([title, ""] + lines, MAX_LINES);
    var content := Preamble();
    ghost var all := Preamble() + ShowOps(textLines, 0);
    var index := 0;
    while index < |textLines|
      invariant index <= |textLines|
      invariant content + ShowOps(textLines, index) == all
    {
      AppendOps(content, textLines, index);
      if index > 0 {
        content := content + ["T*"];
      }
      content := content + [ShowOp(textLines[index])];
      index := index + 1;
    }
    content := content + ["ET"];
    var stream := Latin1(Join(content));
    output := WriteDocument(Objects(stream));
  }

  lemma AppendOps(content: seq<string>, lines: seq<string>, i: nat)
    requires i < |lines|
    ensures (if i > 0 then content + ["T*"] else content) + [ShowOp(lines[i])] + ShowOps(lines, i + 1) ==
            content + ShowOps(lines, i)
  {
    var op, rest := [ShowOp(lines[i])], ShowOps(lines, i + 1);
    if i > 0 {
      assert content + ["T*"] + op + rest == content + (["T*"] + (op + rest));
    } else {
      assert ShowOps(lines, i) == op + rest;
      assert content + op + rest == content + (op + rest);
    }
  }

  /** One `BytesIO` buffer; positions are taken as the objects are written. */
  method WriteDocument(objects: seq<string>) returns (output: string)
    ensures output == Document(objects)
  {
    output := Header();
    var offsets: seq<nat> := [0];
    var number := 1;
    while number <= |objects|
      invariant 1 <= number <= |objects| + 1
      invariant output == Body(objects[..number - 1])
      invariant |offsets| == number
      invariant forall k :: 1 <= k < number ==> offsets[k] == Offset(objects, k)
    {
      assert objects[..number][..number - 1] == objects[..number - 1];
      offsets := offsets + [|output|];
      output := WriteObject(output, number, objects[number - 1]);
      number := number + 1;
    }
    assert objects[..|objects|] == objects;
    var body := output;
    var entries := WriteEntries(objects, offsets);
    ghost var size := Render(|objects| + 1);
    Shift(body, "xref\n0 " + (size + "\n"), entries);
    TableShape(body, size, entries, TrailerDict(|objects| + 1), Tail(|body|));
    output := output + ("xref\n0 " + (Render(|objects| + 1) + "\n"));
    output := output + entries;
    output := output + (TrailerDict(|objects| + 1) + Tail(|body|));
  }

  method WriteObject(output: string, number: nat, obj: string) returns (r: string)
    ensures r == output + ObjectText(number, obj)
  {
    r := output + (Render(number) + " 0 obj\n");
    r := r + obj;
    r := r + "\nendobj\n";
    Shift(output + (Render(number) + " 0 obj\n"), obj, "\nendobj\n");
    Shift(output, Render(number) + " 0 obj\n", obj + "\nendobj\n");
    Shift(Render(number), " 0 obj\n", obj + "\nendobj\n");
  }

  method WriteEntries(objects: seq<string>, offsets: seq<nat>) returns (r: string)
    requires |offsets| == |objects| + 1
    requires forall k :: 1 <= k <= |objects| ==> offsets[k] == Offset(objects, k)
    ensures r == Entries(objects, |objects|)
  {
    r := "0000000000 65535 f \n";
    var k := 1;
    while k < |offsets|
      invariant 1 <= k <= |offsets|
      invariant r == Entries(objects, k - 1)
    {
      r := r + (Padded(offsets[k], 10) + " 00000 n \n");
      k := k + 1;
    }
  }

  lemma Shift(a: string, b: string, c: string)
    ensures a + (b + c) == (a + b) + c
  {
  }

  lemma TableShape(body: string, size: string, entries: string, dict: string, tail: string)
    ensures body + ("xref\n0 " + (size + "\n")) + entries + (dict + tail) ==
            body + (("xref\n0 " + (size + ("\n" + (entries + dict)))) + tail)
  {
    var x := "xref\n0 ";
    TableShapeGeneric(body, x, size, "\n", entries, dict, tail);
  }

  lemma TableShapeGeneric(b: string, x: string, s: string, n: string, e: string, d: string, t: string)
    ensures b + (x + (s + n)) + e + (d + t) == b + ((x + (s + (n + (e + d)))) + t)
  {
    Shift(b + (x + (s + n)) + e, d, t);
    Shift(b, x + (s + n), e);
    Shift(b, x + (s + n) + e, d);
    Shift(b, x + (s + n) + e + d, t);
    Shift(x + (s + n), e, d);
    Shift(x, s + n, e + d);
    Shift(s, n, e + d);
  }

  // ---------- reading the file ----------

  /** What follows `prefix`, if `s` starts with it. */
  function After(s: string, prefix: string): (r: Option<string>)
    ensures r.Some? ==> |r.value| == |s| - |prefix|
  {
    if StartsWith(s, prefix) then Some(s[|prefix|..]) else None
  }

  /** What precedes `suffix`, if `s` ends with it. */
  function Before(s: string, suffix: string): (r: Option<string>)
    ensures r.Some? ==> |r.value| == |s| - |suffix|
  {
    if EndsWith(s, suffix) then Some(s[..|s| - |suffix|]) else None
  }

  /** Length of the longest run of digits that ends `s`. */
  function TrailingDigits(s: string): (n: nat)
    ensures n <= |s| && AllDigits(s[|s| - n..])
  {
    if s == [] || !IsDigit(s[|s| - 1]) then 0
    else
      var init := s[..|s| - 1];
      var n := 1 + TrailingDigits(init);
      assert s[|s| - n..] == init[|init| - (n - 1)..] + [s[|s| - 1]];
      n
  }

  datatype Number = NoNumber | Number(value: nat, rest: string)

  function ReadNumber(s: string): (r: Number) {
    var n := LeadingDigits(s);
    if n == 0 then NoNumber else Number(Value(s[..n]), s[n..])
  }

  function ReadStartXref(doc: string): Option<nat> {
    match Before(doc, "\n%%EOF\n")
    case None => None
    case Some(s) =>
      var n := TrailingDigits(s);
      if n > 0 && EndsWith(s[..|s| - n], "startxref\n") then Some(Value(s[|s| - n..])) else None
  }

  /** Offset recorded by in-use entry `k` of the cross-reference table that starts `s`. */
  function ReadEntry(s: string, k: nat): Option<nat> {
    match After(s, "xref\n0 ")
    case None => None
    case Some(s1) =>
      match ReadNumber(s1)
      case NoNumber => None
      case Number(size, s2) =>
        match After(s2, "\n")
        case None => None
        case Some(entries) =>
          if k < size && 20 * (k + 1) <= |entries| then ParseEntry(entries[20 * k..20 * (k + 1)]) else None
  }

  /** Every entry takes exactly 20 bytes. */
  function ParseEntry(entry: string): Option<nat>
    requires |entry| == 20
  {
    if AllDigits(entry[..10]) && entry[10] == ' ' && AllDigits(entry[11..16]) && entry[16..] == " n \n"
    then Some(Value(entry[..10])) else None
  }

  /** The file from just after the head `k 0 obj` of object `k`. */
  function ReadObject(doc: string, k: nat): Option<string> {
    match ReadStartXref(doc)
    case None => None
    case Some(xref) =>
      if xref > |doc| then None
      else
        match ReadEntry(doc[xref..], k)
        case None => None
        case Some(offset) =>
          if offset > |doc| then None
          else
            match After(doc[offset..], Render(k))
            case None => None
            case Some(s) => After(s, " 0 obj\n")
  }

  /** The `/Length` bytes of the stream object that starts `s`. */
  function ReadStream(s: string): Option<string> {
    match After(s, "<< /Length ")
    case None => None
    case Some(s1) =>
      match ReadNumber(s1)
      case NoNumber => None
      case Number(length, s2) =>
        match After(s2, " >>\nstream\n")
        case None => None
        case Some(s3) =>
          if length <= |s3| && StartsWith(s3[length..], "\nendstream") then Some(s3[..length]) else None
  }

  /** The strings shown by a content stream, after its fixed preamble. */
  function ReadShows(s: string, first: bool): Option<seq<string>>
    decreases |s|
  {
    if s == "ET" then Some([])
    else
      match After(s, if first then "" else "T*\n")
      case None => None
      case Some(op) =>
        match After(op, "(")
        case None => None
        case Some(inner) =>
          match ReadLiteral(inner, 0)
          case Malformed => None
          case Literal(text, rest) =>
            match After(rest, " Tj\n")
            case None => None
            case Some(next) =>
              match ReadShows(next, false)
              case None => None
              case Some(texts) => Some([text] + texts)
  }

  function PreambleBytes(): string {
    "BT" + "\n" + "/F1 11 Tf" + "\n" + "50 790 Td" + "\n" + "14 TL" + "\n"
  }

  function ReadContent(stream: string): Option<seq<string>> {
    match After(stream, PreambleBytes())
    case None => None
    case Some(ops) => ReadShows(ops, true)
  }

  // ---------- offsets ----------

  lemma AfterPrefix(prefix: string, rest: string)
    ensures After(prefix + rest, prefix) == Some(rest)
    ensures (prefix + rest)[|prefix|..] == rest
  {
  }

  lemma BeforeSuffix(rest: string, suffix: string)
    ensures Before(rest + suffix, suffix) == Some(rest)
  {
  }

  lemma TrailingDigitsStep(s: string)
    requires s != [] && IsDigit(s[|s| - 1])
    ensures TrailingDigits(s) == 1 + TrailingDigits(s[..|s| - 1])
  {
  }

  lemma {:induction false} TrailingDigitsAre(rest: string, digits: string)
    requires AllDigits(digits) && (rest == [] || !IsDigit(rest[|rest| - 1]))
    ensures TrailingDigits(rest + digits) == |digits|
  {
    if digits == [] {
      assert rest + digits == rest;
    } else {
      var s, init := rest + digits, digits[..|digits| - 1];
      assert AllDigits(init);
      TrailingDigitsAre(rest, init);
      assert s[..|s| - 1] == rest + init && s[|s| - 1] == digits[|init|];
      TrailingDigitsStep(s);
    }
  }

  lemma ReadRendered(n: nat, rest: string)
    requires rest == [] || !IsDigit(rest[0])
    ensures ReadNumber(Render(n) + rest) == Number(n, rest)
  {
    LeadingDigitsAre(Render(n), rest);
    AfterPrefix(Render(n), rest);
    assert (Render(n) + rest)[..|Render(n)|] == Render(n);
  }

  lemma TailIsRead(front: string, xref: nat)
    ensures ReadStartXref(front + Tail(xref)) == Some(xref)
  {
    var mark, number, eof := "startxref\n", Render(xref), "\n%%EOF\n";
    var lead := front + mark;
    Shift(front, mark, number + eof);
    Shift(lead, number, eof);
    var s := lead + number;
    BeforeSuffix(s, eof);
    assert lead[|lead| - 1] == '\n';
    TrailingDigitsAre(lead, number);
    assert s[|s| - |number|..] == number && s[..|s| - |number|] == lead;
    BeforeSuffix(front, mark);
  }

  /** `startxref` gives the byte index at which the cross-reference table begins. */
  lemma StartXrefIsRight(objs: seq<string>)
    ensures ReadStartXref(Document(objs)) == Some(|Body(objs)|)
    ensures |Body(objs)| <= |Document(objs)|
    ensures Document(objs)[|Body(objs)|..] == Table(objs) + Tail(|Body(objs)|)
  {
    var body := Body(objs);
    Shift(body, Table(objs), Tail(|body|));
    TailIsRead(body + Table(objs), |body|);
    AfterPrefix(body, Table(objs) + Tail(|body|));
  }

  lemma {:induction false} BodySplit(objs: seq<string>, k: nat) returns (before: string, after: string)
    requires 1 <= k <= |objs|
    ensures Body(objs) == before + (ObjectText(k, objs[k - 1]) + after)
    ensures |before| == Offset(objs, k)
    decreases |objs|
  {
    var init, last := objs[..|objs| - 1], objs[|objs| - 1];
    if k == |objs| {
      before, after := Body(init), "";
      assert ObjectText(k, last) + "" == ObjectText(k, last);
    } else {
      before, after := BodySplit(init, k);
      assert init[..k - 1] == objs[..k - 1];
      var text, more := ObjectText(k, objs[k - 1]), ObjectText(|objs|, last);
      Shift(before, text + after, more);
      Shift(text, after, more);
      after := after + more;
    }
  }

  lemma EntryWidth(offset: nat)
    requires offset < Pow10(10)
    ensures |EntryText(offset)| == 20 && ParseEntry(EntryText(offset)) == Some(offset)
  {
    RenderWidth(offset, 10);
    var e := EntryText(offset);
    assert e[..10] == Padded(offset, 10);
    assert e[10..] == " 00000 n \n";
    assert e[11..16] == e[10..][1..6] && e[16..] == e[10..][6..] && e[10] == e[10..][0];
  }

  lemma OffsetBelowBody(objs: seq<string>, k: nat)
    requires 1 <= k <= |objs|
    ensures Offset(objs, k) < |Body(objs)|
  {
    var before, after := BodySplit(objs, k);
  }

  lemma {:induction false} EntriesLength(objs: seq<string>, n: nat)
    requires n <= |objs| && |Body(objs)| < Pow10(10)
    ensures |Entries(objs, n)| == 20 * (n + 1)
  {
    if n > 0 {
      EntriesLength(objs, n - 1);
      OffsetBelowBody(objs, n);
      EntryWidth(Offset(objs, n));
    }
  }

  lemma SliceOfFront(front: string, last: string, i: nat, j: nat)
    requires i <= j <= |front|
    ensures (front + last)[i..j] == front[i..j]
  {
  }

  /** Entry `k` occupies bytes 20k to 20k+20 of the table. */
  lemma {:induction false} EntrySlice(objs: seq<string>, n: nat, k: nat)
    requires 1 <= k <= n <= |objs| && |Body(objs)| < Pow10(10)
    ensures |Entries(objs, n)| == 20 * (n + 1)
    ensures Entries(objs, n)[20 * k..20 * (k + 1)] == EntryText(Offset(objs, k))
  {
    EntriesLength(objs, n);
    EntriesLength(objs, n - 1);
    var front, last := Entries(objs, n - 1), EntryText(Offset(objs, n));
    if k == n {
      AfterPrefix(front, last);
    } else {
      EntrySlice(objs, n - 1, k);
      SliceOfFront(front, last, 20 * k, 20 * (k + 1));
    }
  }

  lemma TableIsRead(size: nat, entries: string, rest: string, k: nat)
    requires k < size && 20 * (k + 1) <= |entries|
    ensures ReadEntry("xref\n0 " + (Render(size) + ("\n" + (entries + rest))), k) ==
            ParseEntry(entries[20 * k..20 * (k + 1)])
  {
    var s3 := entries + rest;
    AfterPrefix("xref\n0 ", Render(size) + ("\n" + s3));
    ReadRendered(size, "\n" + s3);
    AfterPrefix("\n", s3);
    assert s3[20 * k..20 * (k + 1)] == entries[20 * k..20 * (k + 1)];
  }

  lemma EntryIsRead(objs: seq<string>, k: nat, rest: string)
    requires 1 <= k <= |objs| && |Body(objs)| < Pow10(10)
    ensures ReadEntry(Table(objs) + rest, k) == Some(Offset(objs, k))
  {
    var entries, dict := Entries(objs, |objs|), TrailerDict(|objs| + 1);
    EntrySlice(objs, |objs|, k);
    OffsetBelowBody(objs, k);
    EntryWidth(Offset(objs, k));
    TableIsRead(|objs| + 1, entries, dict + rest, k);
    Regroup("xref\n0 ", Render(|objs| + 1), "\n", entries, dict, rest);
  }

  lemma Regroup(x: string, s: string, n: string, e: string, d: string, r: string)
    ensures (x + (s + (n + (e + d)))) + r == x + (s + (n + (e + (d + r))))
  {
    Shift(x, s + (n + (e + d)), r);
    Shift(s, n + (e + d), r);
    Shift(n, e + d, r);
    Shift(e, d, r);
  }

  /** Entry `k` of the table records the byte index at which `k 0 obj` and its object start. */
  lemma EntryIsRight(objs: seq<string>, k: nat)
    requires 1 <= k <= |objs| && |Body(objs)| < Pow10(10)
    ensures ReadEntry(Document(objs)[|Body(objs)|..], k) == Some(Offset(objs, k))
    ensures Offset(objs, k) < |Document(objs)|
    ensures StartsWith(Document(objs)[Offset(objs, k)..], ObjectText(k, objs[k - 1]))
  {
    var body := Body(objs);
    StartXrefIsRight(objs);
    EntryIsRead(objs, k, Tail(|body|));
    OffsetBelowBody(objs, k);
    var before, after := BodySplit(objs, k);
    PartIsFound(before, ObjectText(k, objs[k - 1]), after, Table(objs) + Tail(|body|));
  }

  lemma PartIsFound(before: string, part: string, after: string, end: string)
    ensures StartsWith(((before + (part + after)) + end)[|before|..], part)
  {
    Shift(before, part + after, end);
    Shift(part, after, end);
    AfterPrefix(before, part + (after + end));
  }

  // ---------- content ----------

  lemma Latin1Bytes(s: string)
    requires AllBytes(s)
    ensures Latin1(s) == s
  {
  }

  /** What a reader is meant to see of one line. */
  function Shown(line: string): string {
    NormalizeEol(Latin1(Take(line, MAX_CHARS)))
  }

  function ShownLines(lines: seq<string>, i: nat): seq<string>
    requires i <= |lines|
    decreases |lines| - i
  {
    if i == |lines| then [] else [Shown(lines[i])] + ShownLines(lines, i + 1)
  }

  function OpsText(lines: seq<string>, i: nat): string
    requires i <= |lines|
  {
    Latin1(Join(ShowOps(lines, i)))
  }

  /** Text of one shown line: `lead` is the line feed operator, absent on the first line. */
  function ShowText(lead: string, bytes: string, next: string): string {
    lead + ("(" + (EscapeOnePass(bytes) + (")" + (" Tj\n" + next))))
  }

  lemma JoinCons(head: string, rest: seq<string>)
    requires rest != []
    ensures Join([head] + rest) == head + ("\n" + Join(rest))
  {
    assert ([head] + rest)[1..] == rest;
  }

  lemma JoinOp(esc: string, rest: seq<string>)
    requires rest != []
    ensures Join(["(" + (esc + ") Tj")] + rest) == "(" + (esc + (") Tj" + ("\n" + Join(rest))))
  {
    JoinCons("(" + (esc + ") Tj"), rest);
    var next := "\n" + Join(rest);
    Shift("(", esc + ") Tj", next);
    Shift(esc, ") Tj", next);
  }

  lemma JoinShowOps(lines: seq<string>, i: nat)
    requires i < |lines|
    ensures Join(ShowOps(lines, i)) ==
            (if i > 0 then "T*" + "\n" else "") +
            ("(" + (Escape(Take(lines[i], MAX_CHARS)) + (") Tj" + ("\n" + Join(ShowOps(lines, i + 1))))))
  {
    var rest := ShowOps(lines, i + 1);
    var tail := [ShowOp(lines[i])] + rest;
    JoinOp(Escape(Take(lines[i], MAX_CHARS)), rest);
    if i > 0 {
      JoinCons("T*", tail);
      Shift("T*", "\n", Join(tail));
    } else {
      assert ShowOps(lines, i) == tail;
      assert "" + Join(tail) == Join(tail);
    }
  }

  lemma Latin1Show(lead: string, esc: string, rest: string)
    ensures Latin1(lead + ("(" + (esc + (") Tj" + ("\n" + rest))))) ==
            Latin1(lead) + ("(" + (Latin1(esc) + (") Tj" + ("\n" + Latin1(rest)))))
  {
    Latin1Concat(lead, "(" + (esc + (") Tj" + ("\n" + rest))));
    Latin1Concat("(", esc + (") Tj" + ("\n" + rest)));
    Latin1Concat(esc, ") Tj" + ("\n" + rest));
    Latin1Concat(") Tj", "\n" + rest);
    Latin1Concat("\n", rest);
    Latin1Bytes("(");
    Latin1Bytes(") Tj");
    Latin1Bytes("\n");
  }

  lemma OpsTextStep(lines: seq<string>, i: nat)
    requires i < |lines|
    ensures OpsText(lines, i) ==
            ShowText(if i > 0 then "T*\n" else "", Latin1(Take(lines[i], MAX_CHARS)), OpsText(lines, i + 1))
  {
    var text := Take(lines[i], MAX_CHARS);
    var lead := if i > 0 then "T*" + "\n" else "";
    JoinShowOps(lines, i);
    EscapeIsOnePass(text);
    EscapeLatin1(text);
    Latin1Show(lead, Escape(text), Join(ShowOps(lines, i + 1)));
    Latin1Bytes(lead);
    OperatorText(OpsText(lines, i + 1));
  }

  lemma OperatorText(next: string)
    ensures ") Tj" + ("\n" + next) == ")" + (" Tj\n" + next)
  {
    Shift(") Tj", "\n", next);
    Shift(")", " Tj\n", next);
    assert ") Tj" + "\n" == ")" + " Tj\n";
  }

  lemma ReadShowsStep(first: bool, bytes: string, next: string, texts: seq<string>)
    requires ReadShows(next, false) == Some(texts)
    ensures ReadShows(ShowText(if first then "" else "T*\n", bytes, next), first) ==
            Some([NormalizeEol(bytes)] + texts)
  {
    var lead := if first then "" else "T*\n";
    var rest := " Tj\n" + next;
    var inner := EscapeOnePass(bytes) + (")" + rest);
    var op := "(" + inner;
    var s := lead + op;
    assert s[0] == if first then '(' else 'T';
    assert s[1] == '*' || first;
    assert s != "ET";
    AfterPrefix(lead, op);
    AfterPrefix("(", inner);
    Shift(EscapeOnePass(bytes), ")", rest);
    LiteralRoundTrip(bytes, rest);
    AfterPrefix(" Tj\n", next);
  }

  lemma {:induction false} ReadShowsRoundTrip(lines: seq<string>, i: nat)
    requires i <= |lines|
    ensures ReadShows(OpsText(lines, i), i == 0) == Some(ShownLines(lines, i))
    decreases |lines| - i
  {
    if i == |lines| {
      Latin1Bytes("ET");
    } else {
      ReadShowsRoundTrip(lines, i + 1);
      OpsTextStep(lines, i);
      ReadShowsStep(i == 0, Latin1(Take(lines[i], MAX_CHARS)), OpsText(lines, i + 1), ShownLines(lines, i + 1));
    }
  }

  lemma PreambleText(ops: seq<string>)
    requires ops != []
    ensures Join(Preamble() + ops) == PreambleBytes() + Join(ops)
  {
    var p3 := ["14 TL"] + ops;
    var p2 := ["50 790 Td"] + p3;
    var p1 := ["/F1 11 Tf"] + p2;
    assert Preamble() + ops == ["BT"] + p1;
    JoinCons("BT", p1);
    JoinCons("/F1 11 Tf", p2);
    JoinCons("50 790 Td", p3);
    JoinCons("14 TL", ops);
    FourLines("BT", "/F1 11 Tf", "50 790 Td", "14 TL", "\n", Join(ops));
  }

  lemma FourLines(a: string, b: string, c: string, d: string, n: string, r: string)
    ensures a + (n + (b + (n + (c + (n + (d + (n + r))))))) == a + n + b + n + c + n + d + n + r
  {
    Shift(a, n, b + (n + (c + (n + (d + (n + r))))));
    Shift(a + n, b, n + (c + (n + (d + (n + r)))));
    Shift(a + n + b, n, c + (n + (d + (n + r))));
    Shift(a + n + b + n, c, n + (d + (n + r)));
    Shift(a + n + b + n + c, n, d + (n + r));
    Shift(a + n + b + n + c + n, d, n + r);
    Shift(a + n + b + n + c + n + d, n, r);
  }

  lemma StreamText(title: string, lines: seq<string>)
    ensures Stream(title, lines) == PreambleBytes() + OpsText(PageLines(title, lines), 0)
  {
    var ops := ShowOps(PageLines(title, lines), 0);
    PreambleText(ops);
    Latin1Concat(PreambleBytes(), Join(ops));
    PreambleIsBytes();
  }

  lemma PreambleIsBytes()
    ensures Latin1(PreambleBytes()) == PreambleBytes()
  {
    Latin1Bytes(PreambleBytes());
  }

  lemma ContentRoundTrip(title: string, lines: seq<string>)
    ensures ReadContent(Stream(title, lines)) == Some(ShownLines(PageLines(title, lines), 0))
  {
    var page := PageLines(title, lines);
    StreamText(title, lines);
    AfterPrefix(PreambleBytes(), OpsText(page, 0));
    ReadShowsRoundTrip(page, 0);
  }

  // ---------- size ----------

  lemma {:induction false} OpsTextLength(lines: seq<string>, i: nat)
    requires i <= |lines|
    ensures |OpsText(lines, i)| <= 219 * (|lines| - i) + 2
    decreases |lines| - i
  {
    if i < |lines| {
      OpsTextLength(lines, i + 1);
      OpsTextStep(lines, i);
      EscapeLength(Latin1(Take(lines[i], MAX_CHARS)));
    }
  }

  lemma {:induction false} BodyLength(objs: seq<string>, limit: nat)
    requires |objs| < 10 && forall k :: 0 <= k < |objs| ==> |objs[k]| <= limit
    ensures |Body(objs)| <= 15 + |objs| * (limit + 16)
  {
    if objs != [] {
      var init := objs[..|objs| - 1];
      BodyLength(init, limit);
      assert |Render(|objs|)| == 1;
    }
  }

  lemma StreamLength(title: string, lines: seq<string>)
    ensures |Stream(title, lines)| <= 12000
  {
    var page := PageLines(title, lines);
    StreamText(title, lines);
    OpsTextLength(page, 0);
    assert |PreambleBytes()| == 29;
  }

  lemma ObjectsLength(stream: string)
    requires |stream| <= 12000
    ensures forall k :: 0 <= k < 5 ==> |Objects(stream)[k]| <= 12100
  {
    assert Pow10(1) == 10 && Pow10(5) == 100000;
    RenderWidth(2, 1);
    RenderWidth(3, 1);
    RenderWidth(5, 1);
    RenderWidth(|stream|, 5);
    assert |CatalogObject()| <= 100 && |PagesObject()| <= 100 && |PageObject()| <= 200;
    assert |StreamObject(stream)| <= 12100;
  }

  /** The two truncations keep the whole file far below the ten digits of an entry. */
  lemma OffsetsFit(title: string, lines: seq<string>)
    ensures |Body(Objects(Stream(title, lines)))| < 100000 < Pow10(10)
  {
    StreamLength(title, lines);
    ObjectsLength(Stream(title, lines));
    BodyLength(Objects(Stream(title, lines)), 12100);
    assert Pow10(5) == 100000 && Pow10(10) == 10000000000;
  }

  // ---------- the whole file ----------

  lemma StreamIsRead(stream: string, rest: string)
    ensures ReadStream(StreamObject(stream) + rest) == Some(stream)
  {
    var open, mid, close := "<< /Length ", " >>\nstream\n", "\nendstream";
    var digits := Render(|stream|);
    Regroup(open, digits, mid, stream, close, rest);
    var end := close + rest;
    AfterPrefix(open, digits + (mid + (stream + end)));
    ReadRendered(|stream|, mid + (stream + end));
    AfterPrefix(mid, stream + end);
    AfterPrefix(stream, end);
    AfterPrefix(close, rest);
    assert (stream + end)[..|stream|] == stream;
  }

  lemma ObjectIsRead(k: nat, obj: string, rest: string)
    ensures After(ObjectText(k, obj) + rest, Render(k)) == Some(" 0 obj\n" + (obj + ("\nendobj\n" + rest)))
    ensures After(" 0 obj\n" + (obj + ("\nendobj\n" + rest)), " 0 obj\n") == Some(obj + ("\nendobj\n" + rest))
  {
    Shift(Render(k), " 0 obj\n" + (obj + "\nendobj\n"), rest);
    Shift(" 0 obj\n", obj + "\nendobj\n", rest);
    Shift(obj, "\nendobj\n", rest);
    AfterPrefix(Render(k), " 0 obj\n" + (obj + ("\nendobj\n" + rest)));
    AfterPrefix(" 0 obj\n", obj + ("\nendobj\n" + rest));
  }

  lemma ReadObjectAt(doc: string, k: nat, xref: nat, offset: nat, obj: string, rest: string)
    requires ReadStartXref(doc) == Some(xref) && xref <= |doc|
    requires ReadEntry(doc[xref..], k) == Some(offset) && offset <= |doc|
    requires doc[offset..] == ObjectText(k, obj) + rest
    ensures ReadObject(doc, k) == Some(obj + ("\nendobj\n" + rest))
  {
    ObjectIsRead(k, obj, rest);
  }

  /** Every object is found through the cross-reference table. */
  lemma ObjectIsFound(objs: seq<string>, k: nat) returns (rest: string)
    requires 1 <= k <= |objs| && |Body(objs)| < Pow10(10)
    ensures ReadObject(Document(objs), k) == Some(objs[k - 1] + ("\nendobj\n" + rest))
  {
    StartXrefIsRight(objs);
    EntryIsRight(objs, k);
    var text, found := ObjectText(k, objs[k - 1]), Document(objs)[Offset(objs, k)..];
    rest := found[|text|..];
    SplitPrefix(found, text);
    ReadObjectAt(Document(objs), k, |Body(objs)|, Offset(objs, k), objs[k - 1], rest);
  }

  lemma SplitPrefix(s: string, prefix: string)
    requires StartsWith(s, prefix)
    ensures s == prefix + s[|prefix|..]
  {
  }

  lemma {:induction false} NormalizeEolBytes(s: string)
    requires AllBytes(s)
    ensures AllBytes(NormalizeEol(s))
    decreases |s|
  {
    if s != [] {
      NormalizeEolBytes(if StartsWith(s, "\r\n") then s[2..] else s[1..]);
      NormalizeEolBytes(s[1..]);
    }
  }

  /** A line is shown unaltered exactly when its kept part is Latin-1 text without CR. */
  lemma ShownExactly(line: string)
    ensures Shown(line) == Take(line, MAX_CHARS) <==>
            AllBytes(Take(line, MAX_CHARS)) && '\r' !in Take(line, MAX_CHARS)
  {
    var t := Take(line, MAX_CHARS);
    NormalizeEolIdentity(Latin1(t));
    NormalizeEolBytes(Latin1(t));
    if AllBytes(t) {
      Latin1Bytes(t);
    }
  }
}
