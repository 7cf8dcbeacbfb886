/** Suppliers and positions of a CARAT file, said about its lines. */
module CaratMeaning {
  import opened Common
  import opened Dict
  import opened CaratBlocks

  // ---------- suffixes ----------

  ghost predicate Zeros(s: string) {
    forall i :: 0 <= i < |s| ==> s[i] == '0'
  }

  /** The suffix of a code is what follows four characters and any zeros, as far as that is not empty. */
  lemma SuffixMeans(head: string, zeros: string, rest: string)
    requires |head| == 4 && Zeros(zeros) && (rest == "" || rest[0] != '0')
    ensures Suffix(head + (zeros + rest)) == if rest != "" then rest else if zeros != "" then zeros else head
  {
    var code := head + (zeros + rest);
    assert code[4..] == zeros + rest;
    TrimStartMeans(zeros, rest, Zero);
    if rest == "" {
      assert zeros + rest == zeros;
      assert zeros == "" ==> code == head;
    }
  }

  lemma ShortSuffix(code: string)
    requires |code| < 4
    ensures Suffix(code) == code
  {
  }

  // ---------- suppliers ----------

  /** A supplier line: section 002, a 2000 code and a name. */
  ghost predicate NamesSupplier(l: Line) {
    |l| > 2 && l[0] == "002" && StartsWith(l[1], "2000") && Strip(l[2], IsSpace) != ""
  }

  ghost predicate NamesPictures(l: Line, t: Texts) {
    NamesSupplier(l) && t.norm(Strip(l[2], IsSpace)) == "bilddaten"
  }

  ghost predicate NamesReal(l: Line, t: Texts) {
    NamesSupplier(l) && t.norm(Strip(l[2], IsSpace)) != "bilddaten"
  }

  /** What a supplier line says. */
  ghost predicate Says(l: Line, s: Supplier) {
    && |l| > 2 && s.code == l[1] && s.name == Strip(l[2], IsSpace) && s.catalog == (if |l| > 4 then l[4] else "")
    && s.catalogDate == (if |l| > 5 then l[5] else "") && s.kind == (if |l| > 6 then l[6] else "")
  }

  lemma {:induction false} IgnoredMeans(lines: seq<Line>, t: Texts, x: string)
    ensures x in Suppliers(lines, t).ignored <==>
            exists i :: 0 <= i < |lines| && NamesPictures(lines[i], t) && x == Suffix(lines[i][1])
  {
    if lines != [] {
      var init, n := lines[..|lines| - 1], |lines| - 1;
      IgnoredMeans(init, t, x);
      if i :| 0 <= i < |init| && NamesPictures(init[i], t) && x == Suffix(init[i][1]) {
        assert NamesPictures(lines[i], t);
      }
      if i :| 0 <= i < |lines| && NamesPictures(lines[i], t) && x == Suffix(lines[i][1]) {
        assert i < n ==> NamesPictures(init[i], t);
      }
    }
  }

  lemma SaysIs(l: Line, s: Supplier)
    requires |l| > 2
    ensures Says(l, s) <==> s == SupplierOf(l)
  {
  }

  function RealSupplier(t: Texts): Line -> seq<Supplier> {
    (l: Line) =>
      if DeclaresSupplier(l) && t.norm(Strip(l[2], IsSpace)) != "bilddaten" then [SupplierOf(l)] else []
  }

  /** The suppliers are listed in file order, one for each line that names a real one. */
  lemma {:induction false} DeclaredInOrder(lines: seq<Line>, t: Texts)
    ensures Suppliers(lines, t).suppliers == FlatMap(lines, RealSupplier(t))
  {
    if lines != [] {
      DeclaredInOrder(lines[..|lines| - 1], t);
    }
  }

  lemma DeclaredMeans(lines: seq<Line>, t: Texts, s: Supplier)
    ensures s in Suppliers(lines, t).suppliers <==>
            exists i :: 0 <= i < |lines| && NamesReal(lines[i], t) && Says(lines[i], s)
  {
    DeclaredInOrder(lines, t);
    FlatMapMember(lines, RealSupplier(t), s);
    forall i | 0 <= i < |lines|
      ensures s in RealSupplier(t)(lines[i]) <==> NamesReal(lines[i], t) && Says(lines[i], s)
    {
      RealMeans(lines[i], t, s);
    }
  }

  lemma RealMeans(l: Line, t: Texts, s: Supplier)
    ensures s in RealSupplier(t)(l) <==> NamesReal(l, t) && Says(l, s)
  {
    assert DeclaresSupplier(l) <==> NamesSupplier(l);
    assert RealSupplier(t)(l) == if NamesReal(l, t) then [SupplierOf(l)] else [];
    if |l| > 2 {
      SaysIs(l, s);
    }
  }

  /** No later supplier line has the suffix of line `i`. */
  ghost predicate LastOfSuffix(lines: seq<Line>, t: Texts, i: nat) {
    && i < |lines| && NamesReal(lines[i], t)
    && forall j :: i < j < |lines| && NamesReal(lines[j], t) ==> Suffix(lines[j][1]) != Suffix(lines[i][1])
  }

  /** A suffix stands for the supplier of the last line that has it. */
  lemma {:induction false} SuffixStandsFor(lines: seq<Line>, t: Texts, i: nat, s: Supplier)
    requires LastOfSuffix(lines, t, i) && Says(lines[i], s)
    ensures Get(Suppliers(lines, t).bySuffix, Suffix(lines[i][1])) == Some(s)
  {
    SuppliersAreDeclared(lines, t);
    LastStays(lines, t, i, s);
    GetIs(Suppliers(lines, t).bySuffix, Entry(Suffix(lines[i][1]), s));
  }

  lemma {:induction false} LastStays(lines: seq<Line>, t: Texts, i: nat, s: Supplier)
    requires LastOfSuffix(lines, t, i) && Says(lines[i], s)
    ensures Entry(Suffix(lines[i][1]), s) in Suppliers(lines, t).bySuffix
  {
    var init, last := lines[..|lines| - 1], lines[|lines| - 1];
    SuppliersAreDeclared(init, t);
    if NamesReal(last, t) {
      PutFacts(Suppliers(init, t).bySuffix, Suffix(last[1]), SupplierOf(last));
    }
    if i < |init| {
      assert LastOfSuffix(init, t, i);
      LastStays(init, t, i, s);
    } else {
      assert s == SupplierOf(last);
    }
  }

  // ---------- the supplier of an article ----------

  /** The first entry whose suffix and the article's are one the end of the other. */
  lemma {:induction false} FindSupplierMeans(d: Dict<string, Supplier>, suffix: string)
    ensures FindSupplier(d, suffix).None? <==>
            forall i :: 0 <= i < |d| ==> !(EndsWith(suffix, d[i].key) || EndsWith(d[i].key, suffix))
    ensures forall i :: 0 <= i < |d| && (EndsWith(suffix, d[i].key) || EndsWith(d[i].key, suffix)) &&
                        (forall j :: 0 <= j < i ==> !(EndsWith(suffix, d[j].key) || EndsWith(d[j].key, suffix))) ==>
              FindSupplier(d, suffix) == Some(d[i].value)
  {
    if d != [] {
      var rest := d[1..];
      FindSupplierMeans(rest, suffix);
      assert forall i :: 0 <= i < |rest| ==> rest[i] == d[i + 1];
      if !Compatible(suffix, d[0].key) {
        forall i | 0 <= i < |d| && Compatible(suffix, d[i].key) &&
                   (forall j :: 0 <= j < i ==> !Compatible(suffix, d[j].key))
          ensures FindSupplier(d, suffix) == Some(d[i].value)
        {
          assert rest[i - 1] == d[i];
          forall j | 0 <= j < i - 1 ensures !Compatible(suffix, rest[j].key) {
            assert rest[j] == d[j + 1];
          }
        }
      }
    }
  }

  function PickSupplier(c: Catalogue): Line -> Option<Option<Supplier>> {
    (l: Line) =>
      if IsArticleLine(l) && FindSupplier(c.bySuffix, Suffix(l[1])).Some?
      then Some(FindSupplier(c.bySuffix, Suffix(l[1]))) else None
  }

  /** The last article line for which a supplier is found decides. */
  lemma {:induction false} SupplierOfBlock(lines: seq<Line>, c: Catalogue)
    ensures ReadLines(lines, c).supplier == LastValue(lines, PickSupplier(c), None)
  {
    if lines != [] {
      var l := lines[|lines| - 1];
      SupplierOfBlock(lines[..|lines| - 1], c);
      if |l| >= 2 {
        CodesExclude(l[1]);
      }
    }
  }

  // ---------- texts ----------

  /** A text that stripping leaves alone. */
  ghost predicate Bare(s: string) {
    s != "" && !IsSpace(s[0]) && !IsSpace(s[|s| - 1])
  }

  lemma BareStays(s: string)
    requires Bare(s)
    ensures Strip(s, IsSpace) == s
  {
    assert "" + s + "" == s;
    StripMeans("", s, "", IsSpace);
  }

  /** The text after the code and the other non-empty parts, one blank between the two if both are there. */
  lemma ValueMeans(l: Line, value: string, trailing: string)
    requires |l| >= 2 && |l[1]| >= 4 && Strip(l[1][4..], IsSpace) == value
    requires Strip(JoinWords(FlatMap(l[2..], NonEmpty)), IsSpace) == trailing
    requires (value == "" || Bare(value)) && (trailing == "" || Bare(trailing))
    ensures ValueAfterCode(l) == if value != "" && trailing != "" then value + " " + trailing else value + trailing
  {
    if value != "" && trailing != "" {
      var both := value + " " + trailing;
      assert JoinWords([value] + [trailing]) == both;
      BareStays(both);
    } else if value != "" {
      assert [value] + [] == [value] && value + "" == value;
      BareStays(value);
    } else if trailing != "" {
      assert [] + [trailing] == [trailing] && "" + trailing == trailing;
      BareStays(trailing);
    }
  }

  /** Words are joined by single blanks. */
  lemma JoinMeans(words: seq<string>, w: string)
    requires words != []
    ensures JoinWords([w] + words) == w + " " + JoinWords(words)
    ensures JoinWords([w]) == w
  {
    assert ([w] + words)[1..] == words;
  }

  // ---------- positions ----------

  function TitleIn(block: seq<Line>): string {
    var title, texts := LastValue(block, PickTitle, ""), FlatMap(block, PickDescription);
    if title != "" then title else if texts != [] then Take(texts[0], 120) else ""
  }

  /** What the first 80 lines of a block say about a position. */
  ghost predicate Describes(t: Texts, c: Catalogue, block: seq<Line>, p: Position) {
    var supplier, parts := LastValue(block, PickSupplier(c), None), LastValue(block, PickDimensions, []);
    && p.number == LastValue(block, PickNumber, "") && p.articleCode == LastValue(block, PickArticle, "")
    && p.title == TitleIn(block) && p.descriptions == Take(FlatMap(block, PickDescription), 6)
    && p.supplierCode == (if supplier.Some? then supplier.value.code else "")
    && p.supplierName == (if supplier.Some? then supplier.value.name else "")
    && p.quantity == (var q := LastValue(block, PickQuantity, None); if q.Some? then t.number(q.value) else None)
    && Measures(t, parts, 0, p.dimensions, Width) && Measures(t, parts, 1, p.dimensions, Depth)
    && Measures(t, parts, 2, p.dimensions, Height)
  }

  /** The dimension is the readable number other than zero in its column. */
  ghost predicate Measures(t: Texts, parts: seq<string>, i: nat, dims: map<Dimension, real>, d: Dimension) {
    && (d in dims <==> i < |parts| && t.number(parts[i]).Some? && t.number(parts[i]).value != 0.0)
    && (d in dims ==> t.number(parts[i]) == Some(dims[d]))
  }

  lemma PositionDescribes(t: Texts, c: Catalogue, block: seq<Line>, start: nat, size: nat)
    ensures Describes(t, c, block, PositionOf(t, ReadLines(block, c), start, size))
  {
    FieldsAreIndependent(block, c);
    SupplierOfBlock(block, c);
    DimensionsMeasure(t, LastValue(block, PickDimensions, []));
  }

  lemma DimensionsMeasure(t: Texts, parts: seq<string>)
    ensures Measures(t, parts, 0, DimensionsOf(t, parts), Width)
    ensures Measures(t, parts, 1, DimensionsOf(t, parts), Depth)
    ensures Measures(t, parts, 2, DimensionsOf(t, parts), Height)
  {
  }

  /** Title, no ignored article, and not picture data. */
  ghost predicate Reportable(t: Texts, c: Catalogue, block: seq<Line>) {
    var supplier := LastValue(block, PickSupplier(c), None);
    var name, title := if supplier.Some? then supplier.value.name else "", TitleIn(block);
    && title != "" && t.norm(name) != "bilddaten"
    && !(Strip(LastValue(block, PickArticle, ""), IsSpace) == "46000000000" &&
         (t.norm(title) == "decke" || StartsWith(t.norm(title), "wand ")))
    && forall i, x :: 0 <= i < |block| && IsArticleLine(block[i]) && x in c.ignored ==>
         !EndsWith(Suffix(block[i][1]), x) && !EndsWith(x, Suffix(block[i][1]))
  }

  lemma ReportableMeans(t: Texts, c: Catalogue, block: seq<Line>)
    requires forall e :: e in c.bySuffix ==> e.value in c.suppliers
    ensures Emitted(t, ReadLines(block, c)) <==> Reportable(t, c, block)
  {
    FieldsAreIndependent(block, c);
    SupplierOfBlock(block, c);
    ReadLinesMeans(block, c);
    IgnoredBlock(c, block);
  }

  lemma IgnoredBlock(c: Catalogue, block: seq<Line>)
    ensures (exists i :: 0 <= i < |block| && IsArticleLine(block[i]) &&
                         HitsIgnored(Suffix(block[i][1]), c.ignored)) <==>
            exists i, x :: 0 <= i < |block| && IsArticleLine(block[i]) && x in c.ignored &&
                           (EndsWith(Suffix(block[i][1]), x) || EndsWith(x, Suffix(block[i][1])))
  {
    if i :| 0 <= i < |block| && IsArticleLine(block[i]) && HitsIgnored(Suffix(block[i][1]), c.ignored) {
      var x :| x in c.ignored && Compatible(Suffix(block[i][1]), x);
      assert EndsWith(Suffix(block[i][1]), x) || EndsWith(x, Suffix(block[i][1]));
    }
    if i, x :| 0 <= i < |block| && IsArticleLine(block[i]) && x in c.ignored &&
               (EndsWith(Suffix(block[i][1]), x) || EndsWith(x, Suffix(block[i][1]))) {
      assert Compatible(Suffix(block[i][1]), x);
      assert HitsIgnored(Suffix(block[i][1]), c.ignored);
    }
  }

  /** The lines of block `i` that are read. */
  function HeadOf(f: Project, i: nat): seq<Line>
    requires i < |f.markers| && f.markers[i] <= BlockEnd(f.lines, f.markers, i) <= |f.lines|
  {
    Take(f.lines[f.markers[i]..BlockEnd(f.lines, f.markers, i)], 80)
  }

  lemma ReportedPosition(f: Project, t: Texts, j: nat)
    requires Ascending(f.markers, |f.lines|) && SuppliersKnown(f)
    requires j < |Origins(Emissions(f, t))|
    ensures j < |Flatten(Emissions(f, t))|
    ensures Describes(t, f.catalogue, HeadOf(f, Origins(Emissions(f, t))[j]), Flatten(Emissions(f, t))[j])
  {
    var parts := Emissions(f, t);
    forall i | 0 <= i < |parts| ensures |parts[i]| <= 1 {
      EmissionMeans(f, t, i);
    }
    OriginsValue(parts, j);
    var i := Origins(parts)[j];
    EmissionMeans(f, t, i);
    PositionDescribes(t, f.catalogue, HeadOf(f, i), f.markers[i], BlockEnd(f.lines, f.markers, i) - f.markers[i]);
  }

  /**
   For every file: the positions come from exactly the reportable blocks, in file order, and each
   says what the lines of its block say.
   */
  lemma {:induction false} PositionsMean(lines: seq<Line>, t: Texts) returns (from: seq<nat>)
    ensures var f := ProjectOf(lines, t);
            var positions := Flatten(Emissions(f, t));
            && Ascending(f.markers, |lines|) && Ascending(from, |f.markers|) && |from| == |positions|
            && (forall i :: 0 <= i < |f.markers| ==> (i in from <==> Reportable(t, f.catalogue, HeadOf(f, i))))
            && (forall j :: 0 <= j < |from| ==>
                  (positions[j].sourceLine == f.markers[from[j]] + 1 &&
                   Describes(t, f.catalogue, HeadOf(f, from[j]), positions[j])))
  {
    var f := ProjectOf(lines, t);
    from := PositionsMeanIn(lines, t, f);
  }

  lemma {:induction false} PositionsMeanIn(lines: seq<Line>, t: Texts, f: Project) returns (from: seq<nat>)
    requires f == ProjectOf(lines, t)
    ensures Ascending(f.markers, |lines|) && Ascending(from, |f.markers|) && |from| == |Flatten(Emissions(f, t))|
    ensures forall i :: 0 <= i < |f.markers| ==> (i in from <==> Reportable(t, f.catalogue, HeadOf(f, i)))
    ensures forall j :: 0 <= j < |from| ==>
              && Flatten(Emissions(f, t))[j].sourceLine == f.markers[from[j]] + 1
              && Describes(t, f.catalogue, HeadOf(f, from[j]), Flatten(Emissions(f, t))[j])
  {
    MarkersAscend(lines, |lines|);
    SuppliersAreDeclared(lines, t);
    assert SuppliersKnown(f);
    PositionsAreFaithful(f, t);
    from := Origins(Emissions(f, t));
    forall i | 0 <= i < |f.markers| ensures i in from <==> Reportable(t, f.catalogue, HeadOf(f, i)) {
      ReportableMeans(t, f.catalogue, HeadOf(f, i));
    }
    forall j | 0 <= j < |from|
      ensures Describes(t, f.catalogue, HeadOf(f, from[j]), Flatten(Emissions(f, t))[j])
    {
      ReportedPosition(f, t, j);
    }
  }
}
