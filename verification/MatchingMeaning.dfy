/**
 The matching report in elementary terms: every update, every exception, the counts, the rate and
 the status, said about the positions themselves.
 */
module MatchingMeaning {
  import opened Common
  import opened Matching
  import opened MatchingProperties

  // ---------- article codes ----------

  lemma {:induction false} CodeConcat(a: string, b: string)
    ensures NormalizeCode(a + b) == NormalizeCode(a) + NormalizeCode(b)
  {
    if a == [] {
      assert a + b == b;
    } else {
      CodeConcat(a[1..], b);
      assert (a + b)[1..] == a[1..] + b;
    }
  }

  /** White space and the case of ASCII letters do not matter, and nothing else is changed. */
  lemma CodesIgnore(c: char)
    ensures NormalizeCode([c]) == if IsSpace(c) then [] else [Upper(c)]
    ensures Upper('a') == 'A' && Upper('z') == 'Z' && Upper('A') == 'A' && Upper('-') == '-' && Upper('1') == '1'
  {
    assert [c][1..] == [];
  }

  // ---------- updates ----------

  /** Position `i` is the ordered position that confirmed position `c` is compared with. */
  ghost predicate Partner(orders: seq<Position>, c: Position, i: nat) {
    LastOfCode(orders, i) && Key(orders[i]) == Key(c) != ""
  }

  ghost predicate HasPartner(orders: seq<Position>, c: Position) {
    exists i :: 0 <= i < |orders| && Partner(orders, c, i)
  }

  lemma PartnerIsOrder(orders: seq<Position>, c: Position, i: nat)
    requires Partner(orders, c, i)
    ensures OrderFor(orders, c) == Some(orders[i])
  {
    LookupIsLast(orders, i);
  }

  lemma NoPartnerNoOrder(orders: seq<Position>, c: Position)
    ensures HasPartner(orders, c) <==> OrderFor(orders, c).Some?
  {
    if OrderFor(orders, c).Some? {
      var i := LookupHasIndex(orders, Key(c));
      assert Partner(orders, c, i);
    }
    if HasPartner(orders, c) {
      var i :| 0 <= i < |orders| && Partner(orders, c, i);
      PartnerIsOrder(orders, c, i);
    }
  }

  /**
   The update of a confirmed position names the last ordered position with its code, or none; it is
   green and "matched" exactly when there is a partner that it agrees with.
   */
  lemma UpdateMeans(orders: seq<Position>, confs: seq<Position>, n: nat)
    requires n < |confs|
    ensures var r := MatchReport(orders, confs);
            && |r.updates| == |confs| && r.updates[n].id == confs[n].id
            && (forall i :: 0 <= i < |orders| && Partner(orders, confs[n], i) ==>
                  && r.updates[n].matchedOrderId == Some(orders[i].id)
                  && (r.updates[n].severity == Green <==> Agrees(orders[i], confs[n]))
                  && (r.updates[n].status == Matched <==> Agrees(orders[i], confs[n])))
            && (!HasPartner(orders, confs[n]) ==>
                  r.updates[n] == Update(confs[n].id, None, Red, ManualReviewRequired))
  {
    var c := confs[n];
    NoPartnerNoOrder(orders, c);
    forall i | 0 <= i < |orders| && Partner(orders, c, i)
      ensures OrderFor(orders, c) == Some(orders[i])
      ensures MaxSeverity(Issues(Some(orders[i]), c)) == Green <==> Agrees(orders[i], c)
      ensures StatusOfLast(Issues(Some(orders[i]), c)) == Matched <==> Agrees(orders[i], c)
    {
      PartnerIsOrder(orders, c, i);
      SeverityMeans(Some(orders[i]), c);
      AgreesIsNoIssue(orders[i], c);
    }
    if !HasPartner(orders, c) {
      ExtraIsRed(c);
    }
  }

  lemma ExtraIsRed(c: Position)
    ensures MaxSeverity(Issues(None, c)) == Red && StatusOfLast(Issues(None, c)) == ManualReviewRequired
  {
    assert ExtraIssue(c) in Issues(None, c);
  }

  // ---------- exceptions ----------

  /** What an exception about an ordered and a confirmed position says. */
  ghost predicate Tells(o: Position, c: Position, e: Exc) {
    && e.orderId == Some(o.id) && e.confirmationId == Some(c.id)
    && match e.difference
       case Quantity => e.message == QuantityDiffers && NumbersDiffer(o.quantity, c.quantity, e)
       case NetPrice => e.message == PriceDiffers && NumbersDiffer(o.netPrice, c.netPrice, e)
       case UnreadableField =>
         || (e.message == QuantityUnreadable && NumberMissing(o.quantity, c.quantity, e))
         || (e.message == PriceUnreadable && NumberMissing(o.netPrice, c.netPrice, e))
       case DeliveryDate => Later(o, c, e)
       case _ => false
  }

  ghost predicate NumbersDiffer(x: Option<real>, y: Option<real>, e: Exc) {
    && x.Some? && y.Some? && x.value != y.value && e.severity == Yellow
    && e.ordered == Number(x.value) && e.confirmed == Number(y.value) && e.delta == Some(y.value - x.value)
  }

  ghost predicate NumberMissing(x: Option<real>, y: Option<real>, e: Exc) {
    x.Some? && y.None? && e.severity == Red && e.ordered == Number(x.value) && e.confirmed == NoValue && e.delta == None
  }

  /** Dates decide where both are given: late at all is yellow, a week or more is red; else weeks. */
  ghost predicate Later(o: Position, c: Position, e: Exc) {
    if o.deliveryDate.Some? && c.deliveryDate.Some? then
      var x, y := o.deliveryDate.value, c.deliveryDate.value;
      && y > x && e.severity == (if y - x >= 7 then Red else Yellow)
      && e.message == (if y - x >= 7 then DateOffByAWeek else DateWithinBuffer)
      && e.ordered == Day(x) && e.confirmed == Day(y) && e.delta == Some((y - x) as real)
    else
      && o.deliveryWeek != "" && c.deliveryWeek != "" && o.deliveryWeek != c.deliveryWeek
      && e.severity == Yellow && e.message == WeekDiffers
      && e.ordered == Text(o.deliveryWeek) && e.confirmed == Text(c.deliveryWeek) && e.delta == None
  }

  ghost predicate TellsExtra(c: Position, e: Exc) {
    && e.difference == ExtraPosition && e.severity == Red && e.message == NotOrdered
    && e.orderId == None && e.confirmationId == Some(c.id) && e.ordered == NoValue && e.delta == None
    && e.confirmed == Text(if c.code != "" then c.code else c.title)
  }

  ghost predicate TellsMissing(o: Position, e: Exc) {
    && e.difference == MissingPosition && e.severity == Red && e.message == NotConfirmed
    && e.orderId == Some(o.id) && e.confirmationId == None && e.confirmed == NoValue && e.delta == None
    && e.ordered == Text(if o.code != "" then o.code else o.title)
  }

  lemma QuantityTells(o: Position, c: Position, e: Exc)
    ensures e in QuantityIssues(o, c) <==>
            && e.orderId == Some(o.id) && e.confirmationId == Some(c.id)
            && ((e.difference == Quantity && e.message == QuantityDiffers &&
                 NumbersDiffer(o.quantity, c.quantity, e)) ||
                (e.difference == UnreadableField && e.message == QuantityUnreadable &&
                 NumberMissing(o.quantity, c.quantity, e)))
  {
  }

  lemma PriceTells(o: Position, c: Position, e: Exc)
    ensures e in PriceIssues(o, c) <==>
            && e.orderId == Some(o.id) && e.confirmationId == Some(c.id)
            && ((e.difference == NetPrice && e.message == PriceDiffers && NumbersDiffer(o.netPrice, c.netPrice, e)) ||
                (e.difference == UnreadableField && e.message == PriceUnreadable &&
                 NumberMissing(o.netPrice, c.netPrice, e)))
  {
  }

  lemma DeliveryTells(o: Position, c: Position, e: Exc)
    ensures e in DeliveryIssues(o, c) <==>
            && e.orderId == Some(o.id) && e.confirmationId == Some(c.id)
            && e.difference == DeliveryDate && Later(o, c, e)
  {
  }

  lemma IssuesTell(o: Position, c: Position, e: Exc)
    ensures e in Issues(Some(o), c) <==> Tells(o, c, e)
  {
    QuantityTells(o, c, e);
    PriceTells(o, c, e);
    DeliveryTells(o, c, e);
    var q, p, d := QuantityIssues(o, c), PriceIssues(o, c), DeliveryIssues(o, c);
    assert e in q + p + d <==> e in q || e in p || e in d;
  }

  /** The exceptions of a report, one by one. */
  ghost predicate Reported(orders: seq<Position>, confs: seq<Position>, e: Exc) {
    || (exists n :: 0 <= n < |confs| && !HasPartner(orders, confs[n]) && TellsExtra(confs[n], e))
    || (exists n, i :: 0 <= n < |confs| && 0 <= i < |orders| && Partner(orders, confs[n], i) &&
                       Tells(orders[i], confs[n], e))
    || (exists i :: 0 <= i < |orders| && !Confirmed(orders, confs, i) && TellsMissing(orders[i], e))
  }

  /** Position `i` is the partner of some confirmed position. */
  ghost predicate Confirmed(orders: seq<Position>, confs: seq<Position>, i: nat) {
    exists n :: 0 <= n < |confs| && Partner(orders, confs[n], i)
  }

  lemma PositionIssuesTell(orders: seq<Position>, confs: seq<Position>, e: Exc)
    ensures e in PositionIssues(orders, confs) <==>
            || (exists n :: 0 <= n < |confs| && !HasPartner(orders, confs[n]) && TellsExtra(confs[n], e))
            || (exists n, i :: 0 <= n < |confs| && 0 <= i < |orders| && Partner(orders, confs[n], i) &&
                               Tells(orders[i], confs[n], e))
  {
    FlatMapMember(confs, IssuesFor(orders), e);
    forall n | 0 <= n < |confs|
      ensures e in IssuesFor(orders)(confs[n]) <==>
              || (!HasPartner(orders, confs[n]) && TellsExtra(confs[n], e))
              || (exists i :: 0 <= i < |orders| && Partner(orders, confs[n], i) && Tells(orders[i], confs[n], e))
    {
      ConfirmedTells(orders, confs[n], e);
    }
  }

  lemma ConfirmedTells(orders: seq<Position>, c: Position, e: Exc)
    ensures e in Issues(OrderFor(orders, c), c) <==>
            || (!HasPartner(orders, c) && TellsExtra(c, e))
            || (exists i :: 0 <= i < |orders| && Partner(orders, c, i) && Tells(orders[i], c, e))
  {
    NoPartnerNoOrder(orders, c);
    if OrderFor(orders, c).Some? {
      var i := LookupHasIndex(orders, Key(c));
      assert Partner(orders, c, i);
      IssuesTell(orders[i], c, e);
      forall j | 0 <= j < |orders| && Partner(orders, c, j) ensures orders[j] == orders[i] {
        PartnerIsOrder(orders, c, j);
      }
    }
  }

  lemma ConfirmedIsMatched(orders: seq<Position>, confs: seq<Position>, i: nat)
    requires ProperIds(orders) && i < |orders|
    ensures orders[i].id in MatchedIds(orders, confs) <==> Confirmed(orders, confs, i)
  {
    var o := orders[i];
    if Confirmed(orders, confs, i) {
      var n :| 0 <= n < |confs| && Partner(orders, confs[n], i);
      PartnerIsOrder(orders, confs[n], i);
      assert confs[n] in confs;
    }
    if o.id in MatchedIds(orders, confs) {
      MatchedMeans(orders, confs, o);
      var c :| c in confs && Key(c) == Key(o);
      var n :| 0 <= n < |confs| && confs[n] == c;
      var j := LookupHasIndex(orders, Key(o));
      assert orders[j].id == orders[i].id;
      assert j == i;
      assert Partner(orders, confs[n], i);
    }
  }

  lemma MissingTell(orders: seq<Position>, confs: seq<Position>, e: Exc)
    requires ProperIds(orders)
    ensures e in MissingIssues(orders, MatchedIds(orders, confs)) <==>
            exists i :: 0 <= i < |orders| && !Confirmed(orders, confs, i) && TellsMissing(orders[i], e)
  {
    var ids := MatchedIds(orders, confs);
    FlatMapMember(orders, MissingFor(ids), e);
    forall i | 0 <= i < |orders|
      ensures e in MissingFor(ids)(orders[i]) <==> !Confirmed(orders, confs, i) && TellsMissing(orders[i], e)
    {
      ConfirmedIsMatched(orders, confs, i);
    }
  }

  /**
   The report holds exactly these exceptions: for every confirmed position without a partner that it
   is extra, for every pair of partners their differences, and for every ordered position that is
   nobody's partner that it is missing.
   */
  lemma ExceptionsMean(orders: seq<Position>, confs: seq<Position>, e: Exc)
    requires ProperIds(orders)
    ensures e in MatchReport(orders, confs).exceptions <==> Reported(orders, confs, e)
  {
    PositionIssuesTell(orders, confs, e);
    MissingTell(orders, confs, e);
    var found, missing := PositionIssues(orders, confs), MissingIssues(orders, MatchedIds(orders, confs));
    assert e in found + missing <==> e in found || e in missing;
  }

  // ---------- summary ----------

  /** Sizes, rate and status: a wrong context is an order none of whose codes is confirmed. */
  lemma SummaryMeans(orders: seq<Position>, confs: seq<Position>)
    requires ProperIds(orders)
    ensures var r, common := MatchReport(orders, confs), Keys(orders) * Keys(confs);
            && r.ordered == |orders| && r.confirmed == |confs|
            && r.rate == (if orders == [] then 0.0 else |common| as real / |orders| as real)
            && (r.status == ContextRevisionRequired <==> orders != [] && common == {})
  {
    MatchedCountClosedForm(orders, confs);
  }

  // ---------- an example ----------

  const FIRST: Position := Position(1, "A", "", Some(1.0), None, None, "")
  const SECOND: Position := Position(2, "A", "", Some(5.0), None, None, "")
  const LINE: Position := Position(3, "a ", "", Some(5.0), None, None, "")

  lemma ExamplePartners()
    ensures Partner([FIRST, SECOND], LINE, 1) && !Partner([FIRST, SECOND], LINE, 0)
    ensures Confirmed([FIRST, SECOND], [LINE], 1) && !Confirmed([FIRST, SECOND], [LINE], 0)
  {
    assert Key(FIRST) == Key(SECOND) == Key(LINE) == "A";
    assert [LINE][0] == LINE;
    assert Partner([FIRST, SECOND], [LINE][0], 1);
  }

  /** Of two ordered lines with one code the last one counts. */
  lemma LastLineIsMatched()
    ensures MatchReport([FIRST, SECOND], [LINE]).updates == [Update(3, Some(2), Green, Matched)]
  {
    ExamplePartners();
    UpdateMeans([FIRST, SECOND], [LINE], 0);
    assert Agrees(SECOND, LINE);
  }

  lemma ReportedExample(e: Exc)
    ensures Reported([FIRST, SECOND], [LINE], e) <==> TellsMissing(FIRST, e)
  {
    var orders := [FIRST, SECOND];
    ExamplePartners();
    assert !Tells(SECOND, LINE, e);
    assert orders[0] == FIRST && orders[1] == SECOND && !Confirmed(orders, [LINE], 0);
  }

  /** The earlier line is reported missing, and nothing else is reported. */
  lemma EarlierLineIsMissing(e: Exc)
    ensures e in MatchReport([FIRST, SECOND], [LINE]).exceptions <==> TellsMissing(FIRST, e)
  {
    var orders := [FIRST, SECOND];
    ExamplePartners();
    ExceptionsMean(orders, [LINE], e);
    ReportedExample(e);
  }
}
