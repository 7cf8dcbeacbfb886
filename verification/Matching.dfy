/**
 Matching of a supplier's confirmation (AB) against the order it confirms: a last-wins
 dictionary on normalised article codes, typed exceptions, severities, counts and a status.
 */
module Matching {
  import opened Common

  // ---------- data ----------

  /** An ordered or a confirmed position; "" stands for a missing text. */
  datatype Position = Position(
    id: int,
    code: string,
    title: string,
    quantity: Option<real>,
    netPrice: Option<real>,
    deliveryDate: Option<int>,  // day number
    deliveryWeek: string
  )

  datatype Severity = Green | Yellow | Red

  datatype MatchStatus = Matched | MatchedWithWarning | ManualReviewRequired

  datatype Status = FullyMatched | ExceptionsOpen | ContextRevisionRequired

  datatype Difference = ExtraPosition | MissingPosition | Quantity | NetPrice | UnreadableField | DeliveryDate

  datatype Message =
    | NotOrdered | NotConfirmed | QuantityDiffers | QuantityUnreadable | PriceDiffers | PriceUnreadable
    | DateOffByAWeek | DateWithinBuffer | WeekDiffers

  datatype Value = NoValue | Text(text: string) | Number(number: real) | Day(day: int)

  datatype Exc = Exc(
    difference: Difference,
    severity: Severity,
    message: Message,
    orderId: Option<int>,
    confirmationId: Option<int>,
    ordered: Value,
    confirmed: Value,
    delta: Option<real>
  )

  datatype Update = Update(id: int, matchedOrderId: Option<int>, severity: Severity, status: MatchStatus)

  datatype Report = Report(
    updates: seq<Update>,
    exceptions: seq<Exc>,
    ordered: nat,
    confirmed: nat,
    matched: nat,
    unmatchedOrdered: nat,
    unmatchedConfirmed: nat,
    rate: real,
    status: Status
  )

  // ---------- article codes ----------

  function Upper(c: char): char {
    if 'a' <= c <= 'z' then (c as int - 'a' as int + 'A' as int) as char else c
  }

  function NormalizeCode(s: string): string {
    if s == [] then []
    else (if IsSpace(s[0]) then [] else [Upper(s[0])]) + NormalizeCode(s[1..])
  }

  function Key(p: Position): string {
    NormalizeCode(p.code)
  }

  /** The last position with this code, which is what the dictionary keeps. */
  function Lookup(orders: seq<Position>, key: string): Option<Position> {
    if orders == [] then None
    else if Key(orders[|orders| - 1]) == key then Some(orders[|orders| - 1])
    else Lookup(orders[..|orders| - 1], key)
  }

  /** No later position has the code of position `i`. */
  ghost predicate LastOfCode(orders: seq<Position>, i: nat) {
    i < |orders| && forall j :: i < j < |orders| ==> Key(orders[j]) != Key(orders[i])
  }

  lemma {:induction false} LookupIsLast(orders: seq<Position>, i: nat)
    requires LastOfCode(orders, i)
    ensures Lookup(orders, Key(orders[i])) == Some(orders[i])
  {
    var init := orders[..|orders| - 1];
    if i < |init| {
      assert LastOfCode(init, i);
      LookupIsLast(init, i);
    }
  }

  lemma {:induction false} LookupHasIndex(orders: seq<Position>, key: string) returns (i: nat)
    requires Lookup(orders, key).Some?
    ensures LastOfCode(orders, i) && Key(orders[i]) == key && Lookup(orders, key) == Some(orders[i])
  {
    var n := |orders| - 1;
    if Key(orders[n]) == key {
      i := n;
    } else {
      i := LookupHasIndex(orders[..n], key);
    }
  }

  function OrderFor(orders: seq<Position>, c: Position): Option<Position> {
    if Key(c) == "" then None else Lookup(orders, Key(c))
  }

  // ---------- differences of one position ----------

  function Label(p: Position): Value {
    Text(if p.code != "" then p.code else p.title)
  }

  function QuantityIssues(o: Position, c: Position): seq<Exc> {
    match (o.quantity, c.quantity)
    case (Some(x), Some(y)) =>
      if y - x != 0.0
      then [Exc(Quantity, Yellow, QuantityDiffers, Some(o.id), Some(c.id), Number(x), Number(y), Some(y - x))]
      else []
    case (Some(x), None) =>
      [Exc(UnreadableField, Red, QuantityUnreadable, Some(o.id), Some(c.id), Number(x), NoValue, None)]
    case _ => []
  }

  function PriceIssues(o: Position, c: Position): seq<Exc> {
    match (o.netPrice, c.netPrice)
    case (Some(x), Some(y)) =>
      if y - x != 0.0
      then [Exc(NetPrice, Yellow, PriceDiffers, Some(o.id), Some(c.id), Number(x), Number(y), Some(y - x))]
      else []
    case (Some(x), None) =>
      [Exc(UnreadableField, Red, PriceUnreadable, Some(o.id), Some(c.id), Number(x), NoValue, None)]
    case _ => []
  }

  function DeliveryIssues(o: Position, c: Position): seq<Exc> {
    if o.deliveryDate.Some? && c.deliveryDate.Some? then
      var x, y := o.deliveryDate.value, c.deliveryDate.value;
      var late := Some((y - x) as real);
      if y - x >= 7 then [Exc(DeliveryDate, Red, DateOffByAWeek, Some(o.id), Some(c.id), Day(x), Day(y), late)]
      else if y - x > 0 then
        [Exc(DeliveryDate, Yellow, DateWithinBuffer, Some(o.id), Some(c.id), Day(x), Day(y), late)]
      else []
    else if o.deliveryWeek != "" && c.deliveryWeek != "" && o.deliveryWeek != c.deliveryWeek then
      [Exc(DeliveryDate, Yellow, WeekDiffers, Some(o.id), Some(c.id), Text(o.deliveryWeek), Text(c.deliveryWeek), None)]
    else []
  }

  function ExtraIssue(c: Position): Exc {
    Exc(ExtraPosition, Red, NotOrdered, None, Some(c.id), NoValue, Label(c), None)
  }

  function Issues(order: Option<Position>, c: Position): seq<Exc> {
    match order
    case None => [ExtraIssue(c)]
    case Some(o) => QuantityIssues(o, c) + PriceIssues(o, c) + DeliveryIssues(o, c)
  }

  function Worse(a: Severity, b: Severity): Severity {
    if a == Red || b == Red then Red else if a == Yellow || b == Yellow then Yellow else Green
  }

  predicate Has(es: seq<Exc>, severity: Severity) {
    exists e :: e in es && e.severity == severity
  }

  lemma HasAppend(es: seq<Exc>, more: seq<Exc>, severity: Severity)
    requires |more| <= 1
    ensures Has(es + more, severity) <==> Has(es, severity) || (more != [] && more[0].severity == severity)
  {
    assert forall e :: e in es + more <==> e in es || e in more;
    assert more != [] ==> more[0] in more;
  }

  /** Highest severity among exceptions, green when there are none. */
  function MaxSeverity(es: seq<Exc>): Severity {
    if Has(es, Red) then Red else if Has(es, Yellow) then Yellow else Green
  }

  /** The status that follows the last exception. */
  function StatusOfLast(es: seq<Exc>): MatchStatus {
    if es == [] then Matched
    else if es[|es| - 1].severity == Red then ManualReviewRequired
    else MatchedWithWarning
  }

  lemma {:induction false} AppendIssue(es: seq<Exc>, more: seq<Exc>)
    requires |more| <= 1
    ensures MaxSeverity(es + more) == if more == [] then MaxSeverity(es) else Worse(MaxSeverity(es), more[0].severity)
    ensures StatusOfLast(es + more) == if more == [] then StatusOfLast(es) else StatusOfLast(more)
  {
    HasAppend(es, more, Red);
    HasAppend(es, more, Yellow);
    if more == [] {
      assert es + more == es;
    }
  }

  /** What has been noted about a position so far. */
  datatype Finding = Finding(found: seq<Exc>, severity: Severity, status: MatchStatus) {
    predicate Consistent() {
      severity == MaxSeverity(found) && status == StatusOfLast(found)
    }
  }

  /**
   Compares one confirmed position with its order, overwriting severity and status on the way.
   The outcome: the severity is the worst of the position's exceptions, and the status follows
   the exception appended last.
   */
  method ComparePosition(c: Position, order: Option<Position>) returns (r: Finding)
    ensures r.found == Issues(order, c) && r.Consistent()
  {
    r := Finding([], Green, Matched);
    if order.None? {
      var e := Exc(ExtraPosition, Red, NotOrdered, None, Some(c.id), NoValue, Label(c), None);
      AppendIssue([], [e]);
      assert [] + [e] == [e];
      r := Finding([e], Red, ManualReviewRequired);
    } else {
      r := CompareQuantity(order.value, c);
      r := ComparePrice(order.value, c, r);
      r := CompareDelivery(order.value, c, r);
    }
  }

  method CompareQuantity(o: Position, c: Position) returns (r: Finding)
    ensures r.found == QuantityIssues(o, c) && r.Consistent()
  {
    r := Finding([], Green, Matched);
    AppendIssue([], QuantityIssues(o, c));
    assert [] + QuantityIssues(o, c) == QuantityIssues(o, c);
    if o.quantity.Some? && c.quantity.Some? {
      var delta := c.quantity.value - o.quantity.value;
      if delta != 0.0 {
        var e := Exc(Quantity, Yellow, QuantityDiffers, Some(o.id), Some(c.id),
                     Number(o.quantity.value), Number(c.quantity.value), Some(delta));
        r := Finding([e], Yellow, MatchedWithWarning);
      }
    } else if o.quantity.Some? && c.quantity.None? {
      var e := Exc(UnreadableField, Red, QuantityUnreadable, Some(o.id), Some(c.id),
                   Number(o.quantity.value), NoValue, None);
      r := Finding([e], Red, ManualReviewRequired);
    }
  }

  method ComparePrice(o: Position, c: Position, before: Finding) returns (r: Finding)
    requires before.Consistent()
    ensures r.found == before.found + PriceIssues(o, c) && r.Consistent()
  {
    r := before;
    AppendIssue(before.found, PriceIssues(o, c));
    if o.netPrice.Some? && c.netPrice.Some? {
      var delta := c.netPrice.value - o.netPrice.value;
      if delta != 0.0 {
        var e := Exc(NetPrice, Yellow, PriceDiffers, Some(o.id), Some(c.id),
                     Number(o.netPrice.value), Number(c.netPrice.value), Some(delta));
        r := Finding(r.found + [e], if r.severity != Red then Yellow else r.severity, MatchedWithWarning);
      }
    } else if o.netPrice.Some? && c.netPrice.None? {
      var e := Exc(UnreadableField, Red, PriceUnreadable, Some(o.id), Some(c.id),
                   Number(o.netPrice.value), NoValue, None);
      r := Finding(r.found + [e], Red, ManualReviewRequired);
    }
  }

  method CompareDelivery(o: Position, c: Position, before: Finding) returns (r: Finding)
    requires before.Consistent()
    ensures r.found == before.found + DeliveryIssues(o, c) && r.Consistent()
  {
    r := before;
    AppendIssue(before.found, DeliveryIssues(o, c));
    if o.deliveryDate.Some? && c.deliveryDate.Some? {
      var days := c.deliveryDate.value - o.deliveryDate.value;
      if days >= 7 {
        var e := Exc(DeliveryDate, Red, DateOffByAWeek, Some(o.id), Some(c.id),
                     Day(o.deliveryDate.value), Day(c.deliveryDate.value), Some(days as real));
        r := Finding(r.found + [e], Red, ManualReviewRequired);
      } else if days > 0 {
        var e := Exc(DeliveryDate, Yellow, DateWithinBuffer, Some(o.id), Some(c.id),
                     Day(o.deliveryDate.value), Day(c.deliveryDate.value), Some(days as real));
        r := Finding(r.found + [e], if r.severity != Red then Yellow else r.severity, MatchedWithWarning);
      }
    } else if o.deliveryWeek != "" && c.deliveryWeek != "" && o.deliveryWeek != c.deliveryWeek {
      var e := Exc(DeliveryDate, Yellow, WeekDiffers, Some(o.id), Some(c.id),
                   Text(o.deliveryWeek), Text(c.deliveryWeek), None);
      r := Finding(r.found + [e], if r.severity != Red then Yellow else r.severity, MatchedWithWarning);
    }
  }

  // ---------- the whole confirmation ----------

  function UpdateFor(orders: seq<Position>, c: Position): Update {
    var order := OrderFor(orders, c);
    var found := Issues(order, c);
    Update(c.id, if order.Some? then Some(order.value.id) else None, MaxSeverity(found), StatusOfLast(found))
  }

  function Updates(orders: seq<Position>, confs: seq<Position>): seq<Update> {
    seq(|confs|, i requires 0 <= i < |confs| => UpdateFor(orders, confs[i]))
  }

  function IssuesFor(orders: seq<Position>): Position -> seq<Exc> {
    (c: Position) => Issues(OrderFor(orders, c), c)
  }

  function PositionIssues(orders: seq<Position>, confs: seq<Position>): seq<Exc> {
    FlatMap(confs, IssuesFor(orders))
  }

  /** Ids of the ordered positions that some confirmed position was matched with. */
  function MatchedIds(orders: seq<Position>, confs: seq<Position>): set<int> {
    set c | c in confs && OrderFor(orders, c).Some? :: OrderFor(orders, c).value.id
  }

  function MissingIssue(o: Position): Exc {
    Exc(MissingPosition, Red, NotConfirmed, Some(o.id), None, Label(o), NoValue, None)
  }

  function MissingFor(matched: set<int>): Position -> seq<Exc> {
    (o: Position) => if o.id !in matched then [MissingIssue(o)] else []
  }

  function MissingIssues(orders: seq<Position>, matched: set<int>): seq<Exc> {
    FlatMap(orders, MissingFor(matched))
  }

  function Exceptions(orders: seq<Position>, confs: seq<Position>): seq<Exc> {
    PositionIssues(orders, confs) + MissingIssues(orders, MatchedIds(orders, confs))
  }

  /** A Python falsy id: absent or zero. */
  predicate Unmatched(u: Update) {
    u.matchedOrderId == None || u.matchedOrderId == Some(0)
  }

  function StatusFor(ordered: nat, matched: nat, exceptions: seq<Exc>): Status {
    if ordered > 0 && matched == 0 then ContextRevisionRequired
    else if exceptions != [] then ExceptionsOpen
    else FullyMatched
  }

  function MatchReport(orders: seq<Position>, confs: seq<Position>): Report {
    var matched, exceptions := |MatchedIds(orders, confs)|, Exceptions(orders, confs);
    Report(
      Updates(orders, confs),
      exceptions,
      |orders|,
      |confs|,
      matched,
      Max(|orders| - matched, 0),
      CountIf(Updates(orders, confs), Unmatched),
      if |orders| > 0 then matched as real / |orders| as real else 0.0,
      StatusFor(|orders|, matched, exceptions))
  }

  method IndexByArticle(orders: seq<Position>) returns (index: map<string, Position>)
    ensures forall k :: k in index <==> k != "" && Lookup(orders, k).Some?
    ensures forall k :: k in index ==> Lookup(orders, k) == Some(index[k])
    ensures forall i :: 0 <= i < |orders| && LastOfCode(orders, i) && Key(orders[i]) != "" ==>
              Key(orders[i]) in index && index[Key(orders[i])] == orders[i]
    ensures forall k :: k in index ==>
              k != "" && exists i :: 0 <= i < |orders| && Key(orders[i]) == k && LastOfCode(orders, i)
  {
    index := map[];
    var i := 0;
    while i < |orders|
      invariant i <= |orders|
      invariant forall k :: k in index <==> k != "" && Lookup(orders[..i], k).Some?
      invariant forall k :: k in index ==> Lookup(orders[..i], k) == Some(index[k])
    {
      assert orders[..i + 1][..i] == orders[..i];
      var key := NormalizeCode(orders[i].code);
      if key != "" {
        index := index[key := orders[i]];
      }
      i := i + 1;
    }
    assert orders[..|orders|] == orders;
    forall i | 0 <= i < |orders| && LastOfCode(orders, i) ensures Lookup(orders, Key(orders[i])) == Some(orders[i]) {
      LookupIsLast(orders, i);
    }
    forall k | k in index ensures exists i :: 0 <= i < |orders| && Key(orders[i]) == k && LastOfCode(orders, i) {
      var j := LookupHasIndex(orders, k);
    }
  }

  /** `recompute_supplier_confirmation_matching` up to the payload it writes. */
  method RecomputeMatching(orders: seq<Position>, confs: seq<Position>) returns (report: Report)
    ensures report == MatchReport(orders, confs)
  {
    var matchedIds, exceptions, updates := MatchConfirmed(orders, confs);
    var missing := FindMissing(orders, matchedIds);
    exceptions := exceptions + missing;
    var unmatched := CountUnmatchedUpdates(updates);
    var matched := |matchedIds|;
    report := Report(
      updates, exceptions, |orders|, |confs|, matched, Max(|orders| - matched, 0), unmatched,
      if |orders| > 0 then matched as real / |orders| as real else 0.0,
      if |orders| > 0 && matched == 0 then ContextRevisionRequired
      else if exceptions != [] then ExceptionsOpen
      else FullyMatched);
  }

  /** The loop over the confirmed positions. */
  method MatchConfirmed(orders: seq<Position>, confs: seq<Position>)
    returns (matchedIds: set<int>, exceptions: seq<Exc>, updates: seq<Update>)
    ensures matchedIds == MatchedIds(orders, confs)
    ensures exceptions == PositionIssues(orders, confs)
    ensures updates == Updates(orders, confs)
  {
    var index := IndexByArticle(orders);
    matchedIds, exceptions, updates := {}, [], [];
    var i := 0;
    while i < |confs|
      invariant i <= |confs|
      invariant matchedIds == MatchedIds(orders, confs[..i])
      invariant exceptions == PositionIssues(orders, confs[..i])
      invariant updates == Updates(orders, confs[..i])
    {
      matchedIds, exceptions, updates := MatchOne(orders, index, confs[..i], confs[i], matchedIds, exceptions, updates);
      assert confs[..i + 1] == confs[..i] + [confs[i]];
      i := i + 1;
    }
    assert confs[..|confs|] == confs;
  }

  /** One turn of that loop. */
  method MatchOne(orders: seq<Position>, index: map<string, Position>, ghost done: seq<Position>, c: Position,
                  matchedIds: set<int>, exceptions: seq<Exc>, updates: seq<Update>)
    returns (matchedIds': set<int>, exceptions': seq<Exc>, updates': seq<Update>)
    requires forall k :: k in index <==> k != "" && Lookup(orders, k).Some?
    requires forall k :: k in index ==> Lookup(orders, k) == Some(index[k])
    requires matchedIds == MatchedIds(orders, done) && exceptions == PositionIssues(orders, done)
    requires updates == Updates(orders, done)
    ensures matchedIds' == MatchedIds(orders, done + [c])
    ensures exceptions' == PositionIssues(orders, done + [c])
    ensures updates' == Updates(orders, done + [c])
  {
    AppendConfirmed(orders, done, c);
    var key := NormalizeCode(c.code);
    var order := if key != "" && key in index then Some(index[key]) else None;
    assert order == OrderFor(orders, c);
    var r := ComparePosition(c, order);
    matchedIds' := matchedIds;
    if order.Some? {
      matchedIds' := matchedIds + {order.value.id};
    }
    exceptions' := exceptions + r.found;
    updates' := updates + [Update(c.id, if order.Some? then Some(order.value.id) else None, r.severity, r.status)];
  }

  method CountUnmatchedUpdates(updates: seq<Update>) returns (unmatched: nat)
    ensures unmatched == CountIf(updates, Unmatched)
  {
    unmatched := 0;
    var i := 0;
    while i < |updates|
      invariant i <= |updates|
      invariant unmatched == CountIf(updates[..i], Unmatched)
    {
      assert updates[..i + 1][..i] == updates[..i];
      if Unmatched(updates[i]) {
        unmatched := unmatched + 1;
      }
      i := i + 1;
    }
    assert updates[..|updates|] == updates;
  }

  method FindMissing(orders: seq<Position>, matched: set<int>) returns (missing: seq<Exc>)
    ensures missing == MissingIssues(orders, matched)
  {
    missing := [];
    var i := 0;
    while i < |orders|
      invariant i <= |orders|
      invariant missing == MissingIssues(orders[..i], matched)
    {
      var o := orders[i];
      assert orders[..i + 1][..i] == orders[..i];
      if o.id !in matched {
        missing := missing + [Exc(MissingPosition, Red, NotConfirmed, Some(o.id), None, Label(o), NoValue, None)];
      }
      i := i + 1;
    }
    assert orders[..|orders|] == orders;
  }

  lemma AppendConfirmed(orders: seq<Position>, confs: seq<Position>, c: Position)
    ensures MatchedIds(orders, confs + [c]) ==
            MatchedIds(orders, confs) + if OrderFor(orders, c).Some? then {OrderFor(orders, c).value.id} else {}
    ensures PositionIssues(orders, confs + [c]) == PositionIssues(orders, confs) + Issues(OrderFor(orders, c), c)
    ensures Updates(orders, confs + [c]) == Updates(orders, confs) + [UpdateFor(orders, c)]
  {
    var all := confs + [c];
    assert forall d :: d in all <==> d in confs || d == c;
    assert all[..|all| - 1] == confs;
  }
}
