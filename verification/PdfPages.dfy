/**
 Reading the page of a written file the way a viewer does: from the trailer through the catalogue
 and the page tree to the content stream (sections 7.5.5, 7.7.2 and 7.7.3 of ISO 32000-1).
 */
module PdfPages {
  import opened Common
  import opened Decimals
  import opened PdfText
  import opened PdfDocument

  // ---------- reader ----------

  /** What follows the first occurrence of `key`. */
  function Locate(s: string, key: string): Option<string> {
    if StartsWith(s, key) then Some(s[|key|..])
    else if s == [] then None
    else Locate(s[1..], key)
  }

  /** Number of the object that the value of `key` refers to. */
  function ReadReference(s: string, key: string): Option<nat> {
    match Locate(s, key)
    case None => None
    case Some(value) =>
      match ReadNumber(value)
      case NoNumber => None
      case Number(k, rest) => if StartsWith(rest, " 0 R") then Some(k) else None
  }

  /** The trailer dictionary after the cross-reference table that starts `s`. */
  function ReadTrailer(s: string): Option<string> {
    match After(s, "xref\n0 ")
    case None => None
    case Some(s1) =>
      match ReadNumber(s1)
      case NoNumber => None
      case Number(size, s2) =>
        match After(s2, "\n")
        case None => None
        case Some(entries) => if 20 * size <= |entries| then After(entries[20 * size..], "trailer\n") else None
  }

  function FindTrailer(doc: string): Option<string> {
    match ReadStartXref(doc)
    case None => None
    case Some(xref) => if xref <= |doc| then ReadTrailer(doc[xref..]) else None
  }

  /** The object that the value of `key` in dictionary `dict` refers to. */
  function Follow(doc: string, dict: Option<string>, key: string): Option<string> {
    match dict
    case None => None
    case Some(s) =>
      match ReadReference(s, key)
      case None => None
      case Some(k) => ReadObject(doc, k)
  }

  /** Text lines of the first page. */
  function ReadPage(doc: string): Option<seq<string>> {
    var catalog := Follow(doc, FindTrailer(doc), "/Root ");
    var pages := Follow(doc, catalog, "/Pages ");
    var page := Follow(doc, pages, "/Kids [");
    match Follow(doc, page, "/Contents ")
    case None => None
    case Some(s) =>
      match ReadStream(s)
      case None => None
      case Some(stream) => ReadContent(stream)
  }

  // ---------- finding a key ----------

  /** A part of a dictionary in which no key with the second character `c` starts. */
  predicate SkipsKey(part: string, c: char) {
    && part != []
    && (part[0] == '/' ==> |part| > 1 && part[1] != c)
    && (forall i :: 1 <= i < |part| ==> part[i] != '/')
  }

  lemma {:induction false} LocateWithout(part: string, rest: string, key: string)
    requires |key| >= 2 && key[0] == '/' && forall i :: 0 <= i < |part| ==> part[i] != '/'
    ensures Locate(part + rest, key) == Locate(rest, key)
  {
    if part == [] {
      assert part + rest == rest;
    } else {
      var s := part + rest;
      assert s[0] != '/' && s[1..] == part[1..] + rest;
      LocateWithout(part[1..], rest, key);
    }
  }

  lemma StartsWithKey(s: string, key: string)
    requires |key| >= 2
    ensures StartsWith(s, key) ==> |s| >= 2 && s[0] == key[0] && s[1] == key[1]
  {
  }

  lemma SkipPart(part: string, x: string, end: string, key: string)
    requires |key| >= 2 && key[0] == '/' && SkipsKey(part, key[1])
    ensures Locate((part + x) + end, key) == Locate(x + end, key)
  {
    Shift(part, x, end);
    var rest := x + end;
    var s := part + rest;
    assert s[0] == part[0] && (|part| > 1 ==> s[1] == part[1]);
    StartsWithKey(s, key);
    assert s[1..] == part[1..] + rest;
    LocateWithout(part[1..], rest, key);
  }

  lemma SkipThree(a: string, b: string, c: string, x: string, end: string, key: string)
    requires |key| >= 2 && key[0] == '/' && SkipsKey(a, key[1]) && SkipsKey(b, key[1]) && SkipsKey(c, key[1])
    ensures Locate((a + (b + (c + x))) + end, key) == Locate(x + end, key)
  {
    SkipPart(a, b + (c + x), end, key);
    SkipPart(b, c + x, end, key);
    SkipPart(c, x, end, key);
  }

  lemma ReferenceIsRead(key: string, k: nat, tail: string, end: string)
    ensures ReadReference((key + (Reference(k) + tail)) + end, key) == Some(k)
  {
    var x := Reference(k) + tail;
    Shift(key, x, end);
    AfterPrefix(key, x + end);
    Shift(Reference(k), tail, end);
    Shift(Render(k), " 0 R", tail + end);
    ReadRendered(k, " 0 R" + (tail + end));
    AfterPrefix(" 0 R", tail + end);
  }

  lemma SameReference(s: string, t: string, key: string)
    requires Locate(s, key) == Locate(t, key)
    ensures ReadReference(s, key) == ReadReference(t, key)
  {
  }

  // ---------- the four dictionaries ----------

  lemma CatalogIsRead(end: string)
    ensures ReadReference(CatalogObject() + end, "/Pages ") == Some(2)
  {
    var key := "/Pages ";
    var x := key + (Reference(2) + " >>");
    SkipThree("<< ", "/Type ", "/Catalog ", x, end, key);
    ReferenceIsRead(key, 2, " >>", end);
    SameReference(CatalogObject() + end, x + end, key);
  }

  lemma PagesAreRead(end: string)
    ensures ReadReference(PagesObject() + end, "/Kids [") == Some(3)
  {
    var key := "/Kids [";
    var x := key + (Reference(3) + "] /Count 1 >>");
    SkipThree("<< ", "/Type ", "/Pages ", x, end, key);
    ReferenceIsRead(key, 3, "] /Count 1 >>", end);
    SameReference(PagesObject() + end, x + end, key);
  }

  /** The page dictionary from its resources on, and from its parent on. */
  function PageEnd(): string {
    "/Resources << " + ("/Font << " + ("/F1 4 0 R >> >> " + ("/Contents " + (Reference(5) + " >>"))))
  }

  function PageMiddle(): string {
    "/Parent 2 0 R " + ("/MediaBox [0 0 595 842] " + PageEnd())
  }

  lemma PageEndIsRead(end: string)
    ensures ReadReference(PageEnd() + end, "/Contents ") == Some(5)
  {
    var key := "/Contents ";
    var x := key + (Reference(5) + " >>");
    SkipThree("/Resources << ", "/Font << ", "/F1 4 0 R >> >> ", x, end, key);
    ReferenceIsRead(key, 5, " >>", end);
    SameReference(PageEnd() + end, x + end, key);
  }

  lemma PageMiddleIsRead(x: string, end: string, key: string)
    requires |key| >= 2 && key[0] == '/' && key[1] != 'P' && key[1] != 'M'
    ensures Locate(("/Parent 2 0 R " + ("/MediaBox [0 0 595 842] " + x)) + end, key) == Locate(x + end, key)
  {
    var parent, box := "/Parent 2 0 R ", "/MediaBox [0 0 595 842] ";
    assert parent[1] == 'P' && box[1] == 'M';
    SkipPart(parent, box + x, end, key);
    SkipPart(box, x, end, key);
  }

  lemma PageIsRead(end: string)
    ensures ReadReference(PageObject() + end, "/Contents ") == Some(5)
  {
    var key := "/Contents ";
    SkipThree("<< ", "/Type ", "/Page ", PageMiddle(), end, key);
    assert key[1] == 'C';
    PageMiddleIsRead(PageEnd(), end, key);
    SameReference(PageObject() + end, PageEnd() + end, key);
    PageEndIsRead(end);
  }

  /** The trailer dictionary without the keyword before it. */
  function TrailerBody(size: nat): string {
    "<< " + ("/Size " + (Render(size) + (" " + ("/Root " + (Reference(1) + " >>\n")))))
  }

  lemma TrailerIsRead(size: nat, end: string)
    ensures ReadReference(TrailerBody(size) + end, "/Root ") == Some(1)
  {
    var key := "/Root ";
    var x4 := key + (Reference(1) + " >>\n");
    var x3 := " " + x4;
    var x2 := Render(size) + x3;
    SkipPart("<< ", "/Size " + x2, end, key);
    SkipPart("/Size ", x2, end, key);
    SkipPart(Render(size), x3, end, key);
    SkipPart(" ", x4, end, key);
    ReferenceIsRead(key, 1, " >>\n", end);
    SameReference(TrailerBody(size) + end, x4 + end, key);
  }

  lemma TrailerIsFound(objs: seq<string>)
    requires |Body(objs)| < Pow10(10)
    ensures FindTrailer(Document(objs)) == Some(TrailerBody(|objs| + 1) + Tail(|Body(objs)|))
  {
    var entries, size, tail := Entries(objs, |objs|), |objs| + 1, Tail(|Body(objs)|);
    StartXrefIsRight(objs);
    EntriesLength(objs, |objs|);
    Regroup("xref\n0 ", Render(size), "\n", entries, TrailerDict(size), tail);
    Shift("trailer\n", TrailerBody(size), tail);
    AfterTable(size, entries, TrailerBody(size) + tail);
  }

  lemma AfterTable(size: nat, entries: string, rest: string)
    requires |entries| == 20 * size
    ensures ReadTrailer("xref\n0 " + (Render(size) + ("\n" + (entries + ("trailer\n" + rest))))) == Some(rest)
  {
    var s := entries + ("trailer\n" + rest);
    AfterPrefix("xref\n0 ", Render(size) + ("\n" + s));
    ReadRendered(size, "\n" + s);
    AfterPrefix("\n", s);
    AfterPrefix(entries, "trailer\n" + rest);
    AfterPrefix("trailer\n", rest);
  }

  // ---------- the whole way ----------

  lemma CatalogIsFound(stream: string) returns (end: string)
    requires |Body(Objects(stream))| < Pow10(10)
    ensures var doc := Document(Objects(stream));
            Follow(doc, FindTrailer(doc), "/Root ") == Some(CatalogObject() + end)
  {
    var objs := Objects(stream);
    TrailerIsFound(objs);
    TrailerIsRead(|objs| + 1, Tail(|Body(objs)|));
    var rest := ObjectIsFound(objs, 1);
    end := "\nendobj\n" + rest;
  }

  lemma PagesAreFound(stream: string, s: string) returns (end: string)
    requires |Body(Objects(stream))| < Pow10(10)
    ensures Follow(Document(Objects(stream)), Some(CatalogObject() + s), "/Pages ") == Some(PagesObject() + end)
  {
    CatalogIsRead(s);
    var rest := ObjectIsFound(Objects(stream), 2);
    end := "\nendobj\n" + rest;
  }

  lemma PageIsFound(stream: string, s: string) returns (end: string)
    requires |Body(Objects(stream))| < Pow10(10)
    ensures Follow(Document(Objects(stream)), Some(PagesObject() + s), "/Kids [") == Some(PageObject() + end)
  {
    PagesAreRead(s);
    var rest := ObjectIsFound(Objects(stream), 3);
    end := "\nendobj\n" + rest;
  }

  lemma ContentIsFound(stream: string, s: string) returns (end: string)
    requires |Body(Objects(stream))| < Pow10(10)
    ensures Follow(Document(Objects(stream)), Some(PageObject() + s), "/Contents ") == Some(StreamObject(stream) + end)
  {
    PageIsRead(s);
    var rest := ObjectIsFound(Objects(stream), 5);
    end := "\nendobj\n" + rest;
  }

  // ---------- the font ----------

  /** A part that starts with another key than `key`, which may have the same initial. */
  lemma SkipOther(part: string, x: string, end: string, key: string)
    requires |key| >= 3 && key[0] == '/' && |part| >= 3 && part[2] != key[2]
    requires forall i :: 1 <= i < |part| ==> part[i] != '/'
    ensures Locate((part + x) + end, key) == Locate(x + end, key)
  {
    Shift(part, x, end);
    var s := part + (x + end);
    StartsWithAt(s, key, 2);
    assert s[2] == part[2] && s[1..] == part[1..] + (x + end);
    LocateWithout(part[1..], x + end, key);
  }

  /** The page dictionary from its font on. */
  function FontEnd(): string {
    "/F1 4 0 R >> >> " + ("/Contents " + (Reference(5) + " >>"))
  }

  lemma FontIsNamed(end: string)
    ensures ReadReference(FontEnd() + end, "/F1 ") == Some(4)
  {
    var tail := " >> >> " + ("/Contents " + (Reference(5) + " >>"));
    assert Render(4) == "4";
    assert FontEnd() == "/F1 " + (Reference(4) + tail);
    ReferenceIsRead("/F1 ", 4, tail, end);
  }

  lemma ResourcesNameFont(end: string)
    ensures Locate(PageEnd() + end, "/F1 ") == Locate(FontEnd() + end, "/F1 ")
  {
    var resources, font, key := "/Resources << ", "/Font << ", "/F1 ";
    assert resources[1] == 'R' && font[2] == 'o' && key[1] == 'F' && key[2] == '1';
    SkipPart(resources, font + FontEnd(), end, key);
    SkipOther(font, FontEnd(), end, key);
  }

  lemma PageNamesFont(end: string)
    ensures ReadReference(PageObject() + end, "/F1 ") == Some(4)
  {
    var key := "/F1 ";
    SkipThree("<< ", "/Type ", "/Page ", PageMiddle(), end, key);
    assert key[1] == 'F';
    PageMiddleIsRead(PageEnd(), end, key);
    ResourcesNameFont(end);
    SameReference(PageObject() + end, FontEnd() + end, key);
    FontIsNamed(end);
  }

  /** The font that the content selects as `/F1` leads from the page to Helvetica. */
  lemma FontIsFound(stream: string, s: string) returns (end: string)
    requires |Body(Objects(stream))| < Pow10(10)
    ensures Follow(Document(Objects(stream)), Some(PageObject() + s), "/F1 ") ==
            Some("<< /Type /Font /Subtype /Type1 /BaseFont /Helvetica >>" + end)
  {
    PageNamesFont(s);
    var rest := ObjectIsFound(Objects(stream), 4);
    end := "\nendobj\n" + rest;
  }

  // ---------- the page ----------

  /** The page tree leads to the stream that was written. */
  lemma TreeIsRead(stream: string)
    requires |Body(Objects(stream))| < Pow10(10)
    ensures ReadPage(Document(Objects(stream))) == ReadContent(stream)
  {
    var a := CatalogIsFound(stream);
    var b := PagesAreFound(stream, a);
    var c := PageIsFound(stream, b);
    var d := ContentIsFound(stream, c);
    StreamIsRead(stream, d);
  }

  /**
   A reader that starts from the bytes alone gets back the title, the blank line and the text
   lines, cut to 52 lines of 105 characters, in Latin-1 and with normalised line ends.
   */
  lemma PdfRoundTrip(title: string, lines: seq<string>)
    ensures ReadPage(Document(Objects(Stream(title, lines)))) ==
            Some(ShownLines(PageLines(title, lines), 0))
  {
    OffsetsFit(title, lines);
    TreeIsRead(Stream(title, lines));
    ContentRoundTrip(title, lines);
  }

  /** What a viewer shows of a text: its first 105 characters, in Latin-1, with normalised line ends. */
  function Visible(text: string): string {
    NormalizeEol(Latin1(if |text| <= 105 then text else text[..105]))
  }

  lemma {:induction false} ShownLength(lines: seq<string>, i: nat)
    requires i <= |lines|
    ensures |ShownLines(lines, i)| == |lines| - i
    decreases |lines| - i
  {
    if i < |lines| {
      ShownLength(lines, i + 1);
    }
  }

  lemma {:induction false} ShownLineIs(lines: seq<string>, i: nat, k: nat)
    requires i + k < |lines|
    ensures |ShownLines(lines, i)| == |lines| - i && ShownLines(lines, i)[k] == Visible(lines[i + k])
    decreases k
  {
    ShownLength(lines, i);
    if k > 0 {
      ShownLineIs(lines, i + 1, k - 1);
    }
  }

  lemma PageLinesAre(title: string, lines: seq<string>)
    ensures |PageLines(title, lines)| == if |lines| + 2 <= 52 then |lines| + 2 else 52
    ensures PageLines(title, lines)[0] == title && PageLines(title, lines)[1] == ""
    ensures forall i :: 0 <= i && i + 2 < |PageLines(title, lines)| ==> PageLines(title, lines)[i + 2] == lines[i]
  {
    var all := [title, ""] + lines;
    assert all[0] == title && all[1] == "";
    assert forall i :: 0 <= i < |lines| ==> all[i + 2] == lines[i];
  }

  /** The page shows the title, an empty line and the text lines, up to 52 lines in all. */
  lemma PageShows(title: string, lines: seq<string>) returns (shown: seq<string>)
    ensures ReadPage(Document(Objects(Stream(title, lines)))) == Some(shown)
    ensures |shown| == if |lines| + 2 <= 52 then |lines| + 2 else 52
    ensures shown[0] == Visible(title) && shown[1] == ""
    ensures forall i :: 0 <= i && i + 2 < |shown| ==> shown[i + 2] == Visible(lines[i])
  {
    PdfRoundTrip(title, lines);
    shown := ShownLines(PageLines(title, lines), 0);
    ShownPage(title, lines);
  }

  lemma ShownPage(title: string, lines: seq<string>)
    ensures var shown := ShownLines(PageLines(title, lines), 0);
            && |shown| == (if |lines| + 2 <= 52 then |lines| + 2 else 52)
            && shown[0] == Visible(title) && shown[1] == ""
            && forall i :: 0 <= i && i + 2 < |shown| ==> shown[i + 2] == Visible(lines[i])
  {
    var page := PageLines(title, lines);
    PageLinesAre(title, lines);
    NothingShown();
    var shown := ShownLines(page, 0);
    ShownLineIs(page, 0, 0);
    ShownLineIs(page, 0, 1);
    forall i | 0 <= i && i + 2 < |shown| ensures shown[i + 2] == Visible(lines[i]) {
      ShownLineIs(page, 0, i + 2);
    }
  }

  lemma NothingShown()
    ensures Visible("") == ""
  {
    assert Latin1("") == "";
  }

  /** Characters beyond Latin-1 are shown as question marks. */
  lemma Replacement()
    ensures Visible("a\U{20AC}") == "a?"
  {
    assert Latin1("a\U{20AC}") == "a?";
    assert "a?"[1..] == "?" && "?"[1..] == "";
  }

  /** The file begins and ends as the format asks. */
  lemma FileFrame(title: string, lines: seq<string>)
    ensures StartsWith(Document(Objects(Stream(title, lines))), "%PDF-1.4\n")
    ensures EndsWith(Document(Objects(Stream(title, lines))), "\n%%EOF\n")
  {
    var objs := Objects(Stream(title, lines));
    BodyStartsWithHeader(objs);
    var body, end := Body(objs), Table(objs) + Tail(|Body(objs)|);
    assert Header()[0..9] == "%PDF-1.4\n";
    assert (body + end)[0..9] == body[0..9] == Header()[0..9];
    var lead := "startxref\n" + Render(|body|);
    Shift("startxref\n", Render(|body|), "\n%%EOF\n");
    Shift(body, Table(objs), Tail(|body|));
    Shift(body + Table(objs), lead, "\n%%EOF\n");
    BeforeSuffix(body + Table(objs) + lead, "\n%%EOF\n");
  }

  lemma {:induction false} BodyStartsWithHeader(objs: seq<string>)
    ensures |Header()| <= |Body(objs)| && Body(objs)[..|Header()|] == Header()
  {
    if objs != [] {
      BodyStartsWithHeader(objs[..|objs| - 1]);
    }
  }
}
