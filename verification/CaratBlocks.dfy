/**
 Positions of a CARAT project file.  Input are the parsed lines: the non-blank lines, split at
 `|` into stripped parts.  Supplier-name normalisation is an abstract function.
 */
module CaratBlocks {
  import opened Common
  import opened Dict

  // ---------- data ----------

  type Line = seq<string>

  /** Supplier-name normalisation and `parse_decimal`, both abstract. */
  datatype Texts = Texts(norm: string -> string, number: string -> Option<real>)

  datatype Dimension = Width | Depth | Height

  datatype Supplier = Supplier(code: string, name: string, catalog: string, catalogDate: string, kind: string)

  function Part(l: Line, i: nat): string {
    if i < |l| then l[i] else ""
  }

  datatype Position = Position(
    sourceLine: nat,
    number: string,
    supplierCode: string,
    supplierName: string,
    articleCode: string,
    title: string,
    descriptions: seq<string>,
    quantity: Option<real>,
    dimensions: map<Dimension, real>,
    blockSize: nat
  )

  /** What the supplier section declares. */
  datatype Catalogue = Catalogue(suppliers: seq<Supplier>, bySuffix: Dict<string, Supplier>, ignored: set<string>)

  predicate Zero(c: char) {
    c == '0'
  }

  /** `code[4:].lstrip("0") or code[4:] or code`. */
  function Suffix(code: string): string {
    var tail := if |code| >= 4 then code[4..] else "";
    if TrimStart(tail, Zero) != "" then TrimStart(tail, Zero) else if tail != "" then tail else code
  }

  /** One of the two suffixes ends with the other. */
  predicate Compatible(a: string, b: string) {
    EndsWith(a, b) || EndsWith(b, a)
  }

  // ---------- suppliers ----------

  predicate DeclaresSupplier(l: Line) {
    |l| > 2 && l[0] == "002" && StartsWith(l[1], "2000") && Strip(l[2], IsSpace) != ""
  }

  function SupplierOf(l: Line): Supplier {
    Supplier(Part(l, 1), Strip(Part(l, 2), IsSpace), Part(l, 4), Part(l, 5), Part(l, 6))
  }

  function AddSupplier(c: Catalogue, l: Line, t: Texts): Catalogue {
    if !DeclaresSupplier(l) then c
    else
      var name := Strip(l[2], IsSpace);
      var suffix := Suffix(l[1]);
      if t.norm(name) == "bilddaten" then c.(ignored := c.ignored + {suffix})
      else
        var s := SupplierOf(l);
        Catalogue(c.suppliers + [s], Put(c.bySuffix, suffix, s), c.ignored)
  }

  function Suppliers(lines: seq<Line>, t: Texts): Catalogue {
    if lines == [] then Catalogue([], [], {})
    else AddSupplier(Suppliers(lines[..|lines| - 1], t), lines[|lines| - 1], t)
  }

  method ReadSuppliers(lines: seq<Line>, t: Texts) returns (c: Catalogue)
    ensures c == Suppliers(lines, t)
  {
    c := Catalogue([], [], {});
    for i := 0 to |lines|
      invariant c == Suppliers(lines[..i], t)
    {
      assert lines[..i + 1][..i] == lines[..i];
      var parts := lines[i];
      if |parts| < 2 {
        continue;
      }
      if parts[0] == "002" && StartsWith(parts[1], "2000") && |parts| > 2 {
        var name := Strip(parts[2], IsSpace);
        if name == "" {
          continue;
        }
        var suffix := Suffix(parts[1]);
        if t.norm(name) == "bilddaten" {
          c := c.(ignored := c.ignored + {suffix});
          continue;
        }
        var s := Supplier(parts[1], name, if |parts| > 4 then parts[4] else "", if |parts| > 5 then parts[5] else "",
                          if |parts| > 6 then parts[6] else "");
        c := c.(suppliers := c.suppliers + [s], bySuffix := Put(c.bySuffix, suffix, s));
      }
    }
    assert lines[..|lines|] == lines;
  }

  // ---------- one block ----------

  datatype Block = Block(number: string, articleCode: string, title: string, descriptions: seq<string>,
                         supplier: Option<Supplier>, dimensions: seq<string>, quantity: Option<string>,
                         ignored: bool)
  {
    function SupplierCode(): string {
      if supplier.Some? then supplier.value.code else ""
    }

    function SupplierName(): string {
      if supplier.Some? then supplier.value.name else ""
    }
  }

  const EMPTY_BLOCK: Block := Block("", "", "", [], None, [], None, false)

  function NonEmpty(s: string): seq<string> {
    if s == "" then [] else [s]
  }

  function JoinWords(words: seq<string>): string {
    if words == [] then "" else if |words| == 1 then words[0] else words[0] + " " + JoinWords(words[1..])
  }

  /** `prj_value_after_code` for a line whose code starts with the four-character prefix. */
  function ValueAfterCode(l: Line): string
    requires |l| >= 2 && |l[1]| >= 4
  {
    var value := Strip(l[1][4..], IsSpace);
    var trailing := Strip(JoinWords(FlatMap(l[2..], NonEmpty)), IsSpace);
    Strip(JoinWords(NonEmpty(value) + NonEmpty(trailing)), IsSpace)
  }

  predicate IsArticleLine(l: Line) {
    |l| >= 2 && StartsWith(l[1], "4600")
  }

  predicate HitsIgnored(suffix: string, ignored: set<string>) {
    exists s :: s in ignored && Compatible(suffix, s)
  }

  /** The first declared supplier, in dictionary order, with a compatible suffix. */
  function FindSupplier(d: Dict<string, Supplier>, suffix: string): Option<Supplier> {
    if d == [] then None
    else if Compatible(suffix, d[0].key) then Some(d[0].value)
    else FindSupplier(d[1..], suffix)
  }

  function ReadArticle(b: Block, l: Line, c: Catalogue): Block
    requires |l| >= 2
  {
    var suffix := Suffix(l[1]);
    var found := FindSupplier(c.bySuffix, suffix);
    b.(supplier := if found.Some? then found else b.supplier, articleCode := l[1],
       title := if |l| > 3 && l[3] != "" then l[3] else b.title,
           ignored := b.ignored || HitsIgnored(suffix, c.ignored))
  }

  function ReadLine(b: Block, l: Line, c: Catalogue): Block {
    if |l| < 2 then b
    else if StartsWith(l[1], "4500") && |l| > 2 then
      b.(number := if TrimStart(l[2], Zero) != "" then TrimStart(l[2], Zero) else l[2])
    else if StartsWith(l[1], "4510") && ValueAfterCode(l) != "" then
      b.(descriptions := b.descriptions + [ValueAfterCode(l)])
    else if StartsWith(l[1], "4512") then b.(dimensions := Take(l[2..], 3))
    else if StartsWith(l[1], "4600") then ReadArticle(b, l, c)
    else if StartsWith(l[1], "4627") && |l| > 4 then b.(quantity := Some(l[4]))
    else b
  }

  function ReadLines(lines: seq<Line>, c: Catalogue): Block {
    if lines == [] then EMPTY_BLOCK else ReadLine(ReadLines(lines[..|lines| - 1], c), lines[|lines| - 1], c)
  }

  method ReadBlock(lines: seq<Line>, c: Catalogue) returns (b: Block)
    ensures b == ReadLines(Take(lines, 80), c)
  {
    b := EMPTY_BLOCK;
    var first := Take(lines, 80);
    for i := 0 to |first|
      invariant b == ReadLines(first[..i], c)
    {
      assert first[..i + 1][..i] == first[..i];
      b := ReadParts(b, first[i], c);
    }
    assert first[..|first|] == first;
  }

  /** One turn of the block loop; the code prefixes exclude each other. */
  method ReadParts(b: Block, parts: Line, c: Catalogue) returns (r: Block)
    ensures r == ReadLine(b, parts, c)
  {
    r := b;
    if |parts| < 2 {
      return;
    }
    var code := parts[1];
    CodesExclude(code);
    if StartsWith(code, "4500") && |parts| > 2 {
      r := r.(number := if TrimStart(parts[2], Zero) != "" then TrimStart(parts[2], Zero) else parts[2]);
    }
    if StartsWith(code, "4510") {
      var text := ValueAfterCode(parts);
      if text != "" {
        r := r.(descriptions := r.descriptions + [text]);
      }
    }
    if StartsWith(code, "4512") {
      r := r.(dimensions := Take(parts[2..], 3));
    }
    if StartsWith(code, "4600") {
      r := ReadArticleLine(r, parts, c);
    }
    if StartsWith(code, "4627") && |parts| > 4 {
      r := r.(quantity := Some(parts[4]));
    }
  }

  /** The fourth character tells the codes apart, or the third. */
  lemma CodesExclude(code: string)
    ensures StartsWith(code, "4500") ==> code[2] == '0' && code[1] == '5'
    ensures StartsWith(code, "4510") ==> code[2] == '1' && code[3] == '0'
    ensures StartsWith(code, "4512") ==> code[2] == '1' && code[3] == '2'
    ensures StartsWith(code, "4600") ==> code[2] == '0' && code[1] == '6'
    ensures StartsWith(code, "4627") ==> code[2] == '2'
  {
    CodeHas(code, "4500");
    CodeHas(code, "4510");
    CodeHas(code, "4512");
    CodeHas(code, "4600");
    CodeHas(code, "4627");
  }

  lemma CodeHas(code: string, prefix: string)
    ensures StartsWith(code, prefix) ==> |code| >= |prefix| && forall i :: 0 <= i < |prefix| ==> code[i] == prefix[i]
  {
  }

  method ReadArticleLine(b: Block, parts: Line, c: Catalogue) returns (r: Block)
    requires |parts| >= 2
    ensures r == ReadArticle(b, parts, c)
  {
    r := b.(articleCode := parts[1]);
    if |parts| > 3 && parts[3] != "" {
      r := r.(title := parts[3]);
    }
    var suffix := Suffix(parts[1]);
    if HitsIgnored(suffix, c.ignored) {
      r := r.(ignored := true);
    }
    var i := 0;
    while i < |c.bySuffix|
      invariant i <= |c.bySuffix|
      invariant FindSupplier(c.bySuffix, suffix) == FindSupplier(c.bySuffix[i..], suffix)
    {
      assert c.bySuffix[i..][1..] == c.bySuffix[i + 1..];
      if Compatible(suffix, c.bySuffix[i].key) {
        r := r.(supplier := Some(c.bySuffix[i].value));
        break;
      }
      i := i + 1;
    }
  }

  // ---------- all blocks ----------

  predicate IsMarker(l: Line) {
    |l| >= 2 && l[1] == "9999.Artikel"
  }

  /** Indices of the marker lines below `n`, ascending. */
  function Markers(lines: seq<Line>, n: nat): seq<nat>
    requires n <= |lines|
  {
    if n == 0 then [] else Markers(lines, n - 1) + if IsMarker(lines[n - 1]) then [n - 1] else []
  }

  function BlockEnd(lines: seq<Line>, markers: seq<nat>, i: nat): nat
    requires i < |markers|
  {
    if i + 1 < |markers| then markers[i + 1] else |lines|
  }

  /** Markers are ascending line numbers. */
  ghost predicate Ascending(markers: seq<nat>, n: nat) {
    && (forall i :: 0 <= i < |markers| ==> markers[i] < n)
    && (forall i, j :: 0 <= i < j < |markers| ==> markers[i] < markers[j])
  }

  predicate PictureData(t: Texts, supplierName: string, articleCode: string, title: string) {
    || t.norm(supplierName) == "bilddaten"
    || (Strip(articleCode, IsSpace) == "46000000000" &&
        (t.norm(title) == "decke" || StartsWith(t.norm(title), "wand ")))
  }

  function TitleOf(b: Block): string {
    if b.title == "" && b.descriptions != [] then Take(b.descriptions[0], 120) else b.title
  }

  predicate Emitted(t: Texts, b: Block) {
    TitleOf(b) != "" && !b.ignored && !PictureData(t, b.SupplierName(), b.articleCode, TitleOf(b))
  }

  function Column(d: Dimension): nat {
    match d
    case Width => 0
    case Depth => 1
    case Height => 2
  }

  /** The readable dimensions other than zero. */
  function DimensionsOf(t: Texts, parts: seq<string>): map<Dimension, real> {
    map d | d in {Width, Depth, Height} && Column(d) < |parts| && t.number(parts[Column(d)]).Some? &&
            t.number(parts[Column(d)]).value != 0.0
      :: t.number(parts[Column(d)]).value
  }

  function PositionOf(t: Texts, b: Block, start: nat, size: nat): Position {
    Position(start + 1, b.number, b.SupplierCode(), b.SupplierName(), b.articleCode, TitleOf(b),
             Take(b.descriptions, 6), if b.quantity.Some? then t.number(b.quantity.value) else None,
             DimensionsOf(t, b.dimensions), size)
  }

  /** The position of a block, if it is to be emitted. */
  function Emission(t: Texts, b: Block, start: nat, size: nat): seq<Position> {
    if Emitted(t, b) then [PositionOf(t, b, start, size)] else []
  }

  /** The parts one after the other. */
  function Flatten<P>(parts: seq<seq<P>>): seq<P> {
    FlatMap(parts, (part: seq<P>) => part)
  }

  /** Lines, markers and suppliers of one file. */
  datatype Project = Project(lines: seq<Line>, markers: seq<nat>, catalogue: Catalogue)

  function ProjectOf(lines: seq<Line>, t: Texts): Project {
    Project(lines, Markers(lines, |lines|), Suppliers(lines, t))
  }

  /** The block of marker `i`, as read. */
  function BlockAt(f: Project, i: nat): Block
    requires i < |f.markers| && f.markers[i] <= BlockEnd(f.lines, f.markers, i) <= |f.lines|
  {
    ReadLines(Take(f.lines[f.markers[i]..BlockEnd(f.lines, f.markers, i)], 80), f.catalogue)
  }

  function EmissionAt(f: Project, t: Texts, i: nat): seq<Position> {
    if i < |f.markers| && f.markers[i] <= BlockEnd(f.lines, f.markers, i) <= |f.lines|
    then Emission(t, BlockAt(f, i), f.markers[i], BlockEnd(f.lines, f.markers, i) - f.markers[i])
    else []
  }

  /** For every block the position to report, if any. */
  function Emissions(f: Project, t: Texts): seq<seq<Position>> {
    seq(|f.markers|, i requires 0 <= i < |f.markers| => EmissionAt(f, t, i))
  }

  /** `parse_prjz_content` from the parsed lines on. */
  method ParsePositions(lines: seq<Line>, t: Texts) returns (c: Catalogue, positions: seq<Position>)
    ensures c == Suppliers(lines, t)
    ensures positions == Flatten(Emissions(ProjectOf(lines, t), t))
  {
    c := ReadSuppliers(lines, t);
    var markers := FindMarkers(lines);
    MarkersAscend(lines, |lines|);
    positions := ReadPositions(Project(lines, markers, c), t);
  }

  /** The loop over the markers. */
  method ReadPositions(f: Project, t: Texts) returns (positions: seq<Position>)
    requires Ascending(f.markers, |f.lines|)
    ensures positions == Flatten(Emissions(f, t))
  {
    positions := [];
    ghost var parts: seq<seq<Position>> := [];
    for i := 0 to |f.markers|
      invariant positions == Flatten(parts)
      invariant |parts| == i && forall j :: 0 <= j < i ==> parts[j] == EmissionAt(f, t, j)
    {
      var found := ParseBlock(f, t, i);
      FlatMapAppend(parts, found, (part: seq<Position>) => part);
      parts := parts + [found];
      positions := positions + found;
    }
    assert parts == Emissions(f, t);
  }

  /** One turn of that loop: the position to append, if any. */
  method ParseBlock(f: Project, t: Texts, i: nat) returns (found: seq<Position>)
    requires Ascending(f.markers, |f.lines|) && i < |f.markers|
    ensures found == EmissionAt(f, t, i)
  {
    var b, start, end := ReadMarked(f, i);
    found := Emit(t, b, start, end - start);
  }

  /** The block of marker `i` and its bounds. */
  method ReadMarked(f: Project, i: nat) returns (b: Block, start: nat, end: nat)
    requires Ascending(f.markers, |f.lines|) && i < |f.markers|
    ensures start == f.markers[i] <= end == BlockEnd(f.lines, f.markers, i) <= |f.lines| && b == BlockAt(f, i)
  {
    start, end := f.markers[i], if i + 1 < |f.markers| then f.markers[i + 1] else |f.lines|;
    b := ReadBlock(f.lines[start..end], f.catalogue);
  }

  /** What the loop appends for a block. */
  method Emit(t: Texts, b: Block, start: nat, size: nat) returns (found: seq<Position>)
    ensures found == Emission(t, b, start, size)
  {
    var title := b.title;
    if title == "" && b.descriptions != [] {
      title := Take(b.descriptions[0], 120);
    }
    if title == "" {
      return [];
    }
    if b.ignored || PictureData(t, b.SupplierName(), b.articleCode, title) {
      return [];
    }
    return [PositionOf(t, b, start, size)];
  }

  method FindMarkers(lines: seq<Line>) returns (markers: seq<nat>)
    ensures markers == Markers(lines, |lines|)
  {
    markers := [];
    for i := 0 to |lines|
      invariant markers == Markers(lines, i)
    {
      if |lines[i]| >= 2 && lines[i][1] == "9999.Artikel" {
        markers := markers + [i];
      }
    }
  }

  lemma {:induction false} MarkersAscend(lines: seq<Line>, n: nat)
    requires n <= |lines|
    ensures Ascending(Markers(lines, n), n)
  {
    if n > 0 {
      MarkersAscend(lines, n - 1);
    }
  }

  lemma {:induction false} MarkersAreMarkers(lines: seq<Line>, n: nat, i: nat)
    requires n <= |lines| && i < n
    ensures i in Markers(lines, n) <==> IsMarker(lines[i])
  {
    MarkersAscend(lines, n - 1);
    if i < n - 1 {
      MarkersAreMarkers(lines, n - 1, i);
    }
  }

  // ---------- properties ----------

  /** Lines of the blocks of markers `i` and later, put together. */
  function Blocks(lines: seq<Line>, markers: seq<nat>, i: nat): seq<Line>
    requires i <= |markers| && forall k :: 0 <= k < |markers| ==> markers[k] <= BlockEnd(lines, markers, k) <= |lines|
    decreases |markers| - i
  {
    if i == |markers| then [] else lines[markers[i]..BlockEnd(lines, markers, i)] + Blocks(lines, markers, i + 1)
  }

  /** The blocks partition the lines from the first marker to the end. */
  lemma {:induction false} BlocksPartition(lines: seq<Line>, markers: seq<nat>, i: nat)
    requires Ascending(markers, |lines|) && i < |markers|
    ensures Blocks(lines, markers, i) == lines[markers[i]..]
    decreases |markers| - i
  {
    if i + 1 < |markers| {
      BlocksPartition(lines, markers, i + 1);
      assert lines[markers[i]..markers[i + 1]] + lines[markers[i + 1]..] == lines[markers[i]..];
    } else {
      assert Blocks(lines, markers, i + 1) == [];
      assert lines[markers[i]..|lines|] == lines[markers[i]..];
    }
  }

  /** Only its first line is a marker. */
  lemma BlockHasOneMarker(lines: seq<Line>, i: nat, k: nat)
    requires var markers := Markers(lines, |lines|);
             i < |markers| && markers[i] <= k < BlockEnd(lines, markers, i) <= |lines|
    ensures IsMarker(lines[k]) <==> k == Markers(lines, |lines|)[i]
  {
    MarkersAscend(lines, |lines|);
    MarkersAreMarkers(lines, |lines|, k);
    var markers := Markers(lines, |lines|);
    if IsMarker(lines[k]) {
      var j :| 0 <= j < |markers| && markers[j] == k;
      assert j <= i;
    }
  }

  lemma {:induction false} SuppliersAreDeclared(lines: seq<Line>, t: Texts)
    ensures UniqueKeys(Suppliers(lines, t).bySuffix)
    ensures forall e :: e in Suppliers(lines, t).bySuffix ==> e.value in Suppliers(lines, t).suppliers
  {
    if lines != [] {
      var init, l := lines[..|lines| - 1], lines[|lines| - 1];
      SuppliersAreDeclared(init, t);
      var c := Suppliers(init, t);
      if DeclaresSupplier(l) && t.norm(Strip(l[2], IsSpace)) != "bilddaten" {
        PutFacts(c.bySuffix, Suffix(l[1]), SupplierOf(l));
      }
    }
  }

  lemma {:induction false} FoundIsKnown(d: Dict<string, Supplier>, suffix: string)
    ensures FindSupplier(d, suffix).Some? ==> exists e :: e in d && e.value == FindSupplier(d, suffix).value
  {
    if d != [] {
      if Compatible(suffix, d[0].key) {
        assert d[0] in d;
      } else {
        FoundIsKnown(d[1..], suffix);
      }
    }
  }

  /** A block's supplier is empty or declared. */
  ghost predicate SupplierKnown(b: Block, c: Catalogue) {
    b.supplier.Some? ==> b.supplier.value in c.suppliers
  }

  /** A block is ignored exactly when one of its article lines hits an ignored supplier. */
  lemma {:induction false} ReadLinesMeans(lines: seq<Line>, c: Catalogue)
    requires forall e :: e in c.bySuffix ==> e.value in c.suppliers
    ensures SupplierKnown(ReadLines(lines, c), c)
    ensures ReadLines(lines, c).ignored <==>
            exists i :: 0 <= i < |lines| && IsArticleLine(lines[i]) && HitsIgnored(Suffix(lines[i][1]), c.ignored)
  {
    if lines != [] {
      var init, l := lines[..|lines| - 1], lines[|lines| - 1];
      ReadLinesMeans(init, c);
      var b := ReadLines(init, c);
      LineMeans(b, l, c);
      assert forall i :: 0 <= i < |init| ==> init[i] == lines[i];
    }
  }

  lemma LineMeans(b: Block, l: Line, c: Catalogue)
    requires forall e :: e in c.bySuffix ==> e.value in c.suppliers
    requires SupplierKnown(b, c)
    ensures SupplierKnown(ReadLine(b, l, c), c)
    ensures ReadLine(b, l, c).ignored <==> b.ignored || (IsArticleLine(l) && HitsIgnored(Suffix(l[1]), c.ignored))
  {
    if IsArticleLine(l) {
      CodesExclude(l[1]);
      FoundIsKnown(c.bySuffix, Suffix(l[1]));
    }
  }

  /** The value picked from the last line that has one, else the default. */
  function LastValue<T>(lines: seq<Line>, pick: Line -> Option<T>, otherwise: T): T {
    if lines == [] then otherwise
    else Or(pick(lines[|lines| - 1]), LastValue(lines[..|lines| - 1], pick, otherwise))
  }

  function Or<T>(v: Option<T>, otherwise: T): T {
    if v.Some? then v.value else otherwise
  }

  function PickNumber(l: Line): Option<string> {
    if |l| > 2 && StartsWith(l[1], "4500") then
      Some(if TrimStart(l[2], Zero) != "" then TrimStart(l[2], Zero) else l[2])
    else None
  }

  function PickArticle(l: Line): Option<string> {
    if IsArticleLine(l) then Some(l[1]) else None
  }

  function PickTitle(l: Line): Option<string> {
    if IsArticleLine(l) && |l| > 3 && l[3] != "" then Some(l[3]) else None
  }

  function PickDimensions(l: Line): Option<seq<string>> {
    if |l| >= 2 && StartsWith(l[1], "4512") then Some(Take(l[2..], 3)) else None
  }

  function PickQuantity(l: Line): Option<Option<string>> {
    if |l| > 4 && StartsWith(l[1], "4627") then Some(Some(l[4])) else None
  }

  function PickDescription(l: Line): seq<string> {
    if |l| >= 2 && StartsWith(l[1], "4510") then NonEmpty(ValueAfterCode(l)) else []
  }

  /** Each field of a block depends on the lines with its own code alone; the last one wins. */
  lemma {:induction false} FieldsAreIndependent(lines: seq<Line>, c: Catalogue)
    ensures var b := ReadLines(lines, c);
            && b.number == LastValue(lines, PickNumber, "") && b.articleCode == LastValue(lines, PickArticle, "")
            && b.title == LastValue(lines, PickTitle, "") && b.quantity == LastValue(lines, PickQuantity, None)
            && b.dimensions == LastValue(lines, PickDimensions, [])
            && b.descriptions == FlatMap(lines, PickDescription)
  {
    if lines != [] {
      FieldsAreIndependent(lines[..|lines| - 1], c);
      LineFields(ReadLines(lines[..|lines| - 1], c), lines[|lines| - 1], c);
    }
  }

  lemma LineFields(b: Block, l: Line, c: Catalogue)
    ensures var r := ReadLine(b, l, c);
            && r.number == Or(PickNumber(l), b.number) && r.articleCode == Or(PickArticle(l), b.articleCode)
            && r.title == Or(PickTitle(l), b.title) && r.quantity == Or(PickQuantity(l), b.quantity)
            && r.dimensions == Or(PickDimensions(l), b.dimensions)
            && r.descriptions == b.descriptions + PickDescription(l)
  {
    if |l| >= 2 {
      CodesExclude(l[1]);
    }
  }

  /** What holds of a reported position and the marker it comes from. */
  ghost predicate Faithful(f: Project, i: nat, p: Position)
    requires Ascending(f.markers, |f.lines|) && i < |f.markers|
  {
    var start, end := f.markers[i], BlockEnd(f.lines, f.markers, i);
    && p.sourceLine == start + 1 && p.blockSize == end - start && p.title != ""
    && ((p.supplierCode == "" && p.supplierName == "") ||
        exists s :: s in f.catalogue.suppliers && p.supplierCode == s.code && p.supplierName == s.name)
    && (forall k :: start <= k < end && k < start + 80 && IsArticleLine(f.lines[k]) ==>
          !HitsIgnored(Suffix(f.lines[k][1]), f.catalogue.ignored))
  }

  lemma {:induction false} EmittedIsFaithful(f: Project, t: Texts, i: nat)
    requires Ascending(f.markers, |f.lines|) && i < |f.markers|
    requires SuppliersKnown(f) && Emitted(t, BlockAt(f, i))
    ensures var start, end := f.markers[i], BlockEnd(f.lines, f.markers, i);
            Faithful(f, i, PositionOf(t, BlockAt(f, i), start, end - start))
  {
    var start, end := f.markers[i], BlockEnd(f.lines, f.markers, i);
    var block := Take(f.lines[start..end], 80);
    ReadLinesMeans(block, f.catalogue);
    forall k | start <= k < end && k < start + 80 && IsArticleLine(f.lines[k])
      ensures !HitsIgnored(Suffix(f.lines[k][1]), f.catalogue.ignored)
    {
      assert block[k - start] == f.lines[k];
    }
  }

  /** Indices of the parts that are not empty. */
  function Origins<P>(parts: seq<seq<P>>): (from: seq<nat>)
    ensures Ascending(from, |parts|)
  {
    if parts == [] then []
    else Origins(parts[..|parts| - 1]) + if parts[|parts| - 1] == [] then [] else [|parts| - 1]
  }

  lemma {:induction false} OriginsMember<P>(parts: seq<seq<P>>, i: nat)
    requires i < |parts|
    ensures i in Origins(parts) <==> parts[i] != []
  {
    var init := parts[..|parts| - 1];
    if i < |init| {
      OriginsMember(init, i);
    }
  }

  /** Where an element of a flattened sequence comes from, when every part has at most one. */
  lemma {:induction false} OriginsValue<P>(parts: seq<seq<P>>, j: nat)
    requires (forall i :: 0 <= i < |parts| ==> |parts[i]| <= 1) && j < |Origins(parts)|
    ensures |Origins(parts)| == |Flatten(parts)| && parts[Origins(parts)[j]] == [Flatten(parts)[j]]
  {
    var init := parts[..|parts| - 1];
    OriginsLength(init);
    if j < |Origins(init)| {
      OriginsValue(init, j);
    }
  }

  lemma {:induction false} OriginsLength<P>(parts: seq<seq<P>>)
    requires forall i :: 0 <= i < |parts| ==> |parts[i]| <= 1
    ensures |Origins(parts)| == |Flatten(parts)|
  {
    if parts != [] {
      OriginsLength(parts[..|parts| - 1]);
    }
  }

  ghost predicate SuppliersKnown(f: Project) {
    forall e :: e in f.catalogue.bySuffix ==> e.value in f.catalogue.suppliers
  }

  lemma EmissionMeans(f: Project, t: Texts, i: nat)
    requires Ascending(f.markers, |f.lines|) && SuppliersKnown(f) && i < |f.markers|
    ensures |EmissionAt(f, t, i)| <= 1
    ensures EmissionAt(f, t, i) != [] <==> Emitted(t, BlockAt(f, i))
    ensures EmissionAt(f, t, i) != [] ==> Faithful(f, i, EmissionAt(f, t, i)[0])
  {
    if Emitted(t, BlockAt(f, i)) {
      EmittedIsFaithful(f, t, i);
    }
  }

  lemma {:induction false} PositionsAreFaithful(f: Project, t: Texts)
    requires Ascending(f.markers, |f.lines|) && SuppliersKnown(f)
    ensures var parts := Emissions(f, t);
            && |Origins(parts)| == |Flatten(parts)|
            && (forall i :: 0 <= i < |f.markers| ==> (i in Origins(parts) <==> Emitted(t, BlockAt(f, i))))
            && (forall j :: 0 <= j < |Origins(parts)| ==> Faithful(f, Origins(parts)[j], Flatten(parts)[j]))
  {
    var parts := Emissions(f, t);
    forall i | 0 <= i < |parts| ensures |parts[i]| <= 1 {
      EmissionMeans(f, t, i);
    }
    OriginsLength(parts);
    forall i | 0 <= i < |f.markers| ensures i in Origins(parts) <==> Emitted(t, BlockAt(f, i)) {
      EmissionMeans(f, t, i);
      OriginsMember(parts, i);
    }
    forall j | 0 <= j < |Origins(parts)| ensures Faithful(f, Origins(parts)[j], Flatten(parts)[j]) {
      OriginsValue(parts, j);
      EmissionMeans(f, t, Origins(parts)[j]);
    }
  }

  /**
   For every file, the reported positions come from pairwise different markers in file order,
   exactly those of the blocks to be emitted; each position has a title, a declared supplier or
   none, and no article line that hits an ignored supplier.
   */
  lemma {:induction false} ReportIsFaithful(lines: seq<Line>, t: Texts) returns (from: seq<nat>)
    ensures var f := ProjectOf(lines, t);
            var positions := Flatten(Emissions(f, t));
            && Ascending(f.markers, |lines|) && Ascending(from, |f.markers|) && |from| == |positions|
            && (forall i :: 0 <= i < |f.markers| ==> (i in from <==> Emitted(t, BlockAt(f, i))))
            && (forall j :: 0 <= j < |from| ==> Faithful(f, from[j], positions[j]))
  {
    MarkersAscend(lines, |lines|);
    SuppliersAreDeclared(lines, t);
    PositionsAreFaithful(ProjectOf(lines, t), t);
    from := Origins(Emissions(ProjectOf(lines, t), t));
  }
}
