/** What the matching report means, and what it does not depend on. */
module MatchingProperties {
  import opened Common
  import opened Permutations
  import opened Matching

  /** Row ids: positive and pairwise different, as the primary key makes them. */
  ghost predicate ProperIds(ps: seq<Position>) {
    && (forall i :: 0 <= i < |ps| ==> ps[i].id > 0)
    && (forall i, j :: 0 <= i < j < |ps| ==> ps[i].id != ps[j].id)
  }

  /** The non-empty normalised article codes of a list. */
  function Keys(ps: seq<Position>): set<string> {
    set p | p in ps && Key(p) != "" :: Key(p)
  }

  lemma SameIdSamePosition(ps: seq<Position>, p: Position, q: Position)
    requires ProperIds(ps) && p in ps && q in ps && p.id == q.id
    ensures p == q
  {
    var i :| 0 <= i < |ps| && ps[i] == p;
    var j :| 0 <= j < |ps| && ps[j] == q;
    assert i == j;
  }

  lemma {:induction false} LookupFacts(orders: seq<Position>, key: string)
    ensures Lookup(orders, key).Some? <==> exists o :: o in orders && Key(o) == key
    ensures Lookup(orders, key).Some? ==> Lookup(orders, key).value in orders && Key(Lookup(orders, key).value) == key
  {
    if orders != [] {
      var init, last := orders[..|orders| - 1], orders[|orders| - 1];
      assert orders == init + [last];
      LookupFacts(init, key);
    }
  }

  lemma OrderForFacts(orders: seq<Position>, c: Position)
    ensures OrderFor(orders, c).Some? <==> Key(c) in Keys(orders)
    ensures OrderFor(orders, c).Some? ==>
              OrderFor(orders, c).value in orders && Key(OrderFor(orders, c).value) == Key(c) != ""
  {
    LookupFacts(orders, Key(c));
  }

  // ---------- counts ----------

  function IdOfKey(orders: seq<Position>, key: string): int {
    if Lookup(orders, key).Some? then Lookup(orders, key).value.id else 0
  }

  lemma {:induction false} KeyIdsSize(orders: seq<Position>, keys: set<string>)
    requires ProperIds(orders) && keys <= Keys(orders)
    ensures |set k | k in keys :: IdOfKey(orders, k)| == |keys|
  {
    if keys == {} {
      assert (set k | k in keys :: IdOfKey(orders, k)) == {};
    } else {
      var k0 :| k0 in keys;
      var rest := keys - {k0};
      KeyIdsSize(orders, rest);
      var all, some := set k | k in keys :: IdOfKey(orders, k), set k | k in rest :: IdOfKey(orders, k);
      assert all == some + {IdOfKey(orders, k0)} by {
        assert keys == rest + {k0};
      }
      LookupFacts(orders, k0);
      forall k | k in rest ensures IdOfKey(orders, k) != IdOfKey(orders, k0) {
        LookupFacts(orders, k);
        if IdOfKey(orders, k) == IdOfKey(orders, k0) {
          SameIdSamePosition(orders, Lookup(orders, k).value, Lookup(orders, k0).value);
        }
      }
    }
  }

  lemma MatchedIdsAreKeyIds(orders: seq<Position>, confs: seq<Position>)
    ensures MatchedIds(orders, confs) == set k | k in Keys(orders) * Keys(confs) :: IdOfKey(orders, k)
  {
    var common := Keys(orders) * Keys(confs);
    forall c | c in confs && OrderFor(orders, c).Some?
      ensures Key(c) in common && IdOfKey(orders, Key(c)) == OrderFor(orders, c).value.id
    {
      OrderForFacts(orders, c);
    }
    forall k | k in common ensures IdOfKey(orders, k) in MatchedIds(orders, confs) {
      var c :| c in confs && Key(c) == k;
      OrderForFacts(orders, c);
    }
  }

  /** The matched count is the number of different codes that occur on both sides. */
  lemma MatchedCountClosedForm(orders: seq<Position>, confs: seq<Position>)
    requires ProperIds(orders)
    ensures MatchReport(orders, confs).matched == |Keys(orders) * Keys(confs)|
  {
    MatchedIdsAreKeyIds(orders, confs);
    KeyIdsSize(orders, Keys(orders) * Keys(confs));
  }

  function IdsIn(orders: seq<Position>, ids: set<int>): set<int> {
    set o | o in orders && o.id in ids :: o.id
  }

  lemma IdsInAppend(init: seq<Position>, last: Position, ids: set<int>)
    requires ProperIds(init + [last])
    ensures ProperIds(init)
    ensures |IdsIn(init + [last], ids)| == |IdsIn(init, ids)| + if last.id in ids then 1 else 0
  {
    var all := init + [last];
    assert forall i :: 0 <= i < |init| ==> init[i] == all[i];
    assert last.id !in IdsIn(init, ids) by {
      assert all[|init|] == last;
    }
    assert IdsIn(all, ids) == IdsIn(init, ids) + if last.id in ids then {last.id} else {};
  }

  lemma {:induction false} MissingCount(orders: seq<Position>, ids: set<int>)
    requires ProperIds(orders)
    ensures |MissingIssues(orders, ids)| + |IdsIn(orders, ids)| == |orders|
  {
    if orders == [] {
      assert IdsIn(orders, ids) == {};
    } else {
      var init, last := orders[..|orders| - 1], orders[|orders| - 1];
      assert orders == init + [last];
      IdsInAppend(init, last, ids);
      FlatMapAppend(init, last, MissingFor(ids));
      MissingCount(init, ids);
    }
  }

  function IsKind(d: Difference): Exc -> bool {
    (e: Exc) => e.difference == d
  }

  function CountOf(es: seq<Exc>, d: Difference): nat {
    CountIf(es, IsKind(d))
  }

  lemma {:induction false} MissingIssuesAreMissing(orders: seq<Position>, ids: set<int>)
    ensures CountOf(MissingIssues(orders, ids), MissingPosition) == |MissingIssues(orders, ids)|
    ensures forall i :: 0 <= i < |MissingIssues(orders, ids)| ==>
              MissingIssues(orders, ids)[i].difference == MissingPosition
  {
    if orders != [] {
      var init, last := orders[..|orders| - 1], orders[|orders| - 1];
      MissingIssuesAreMissing(init, ids);
      var more := if last.id !in ids then [MissingIssue(last)] else [];
      CountIfConcat(MissingIssues(init, ids), more, IsKind(MissingPosition));
      assert more != [] ==> more[..0] == [];
    }
  }

  lemma {:induction false} NoneInThree(q: seq<Exc>, p: seq<Exc>, l: seq<Exc>, d: Difference)
    requires CountOf(q, d) == 0 && CountOf(p, d) == 0 && CountOf(l, d) == 0
    ensures CountOf(q + p + l, d) == 0
  {
    CountIfConcat(q, p, IsKind(d));
    CountIfConcat(q + p, l, IsKind(d));
  }

  lemma {:induction false} NoneOfKind(es: seq<Exc>, d: Difference)
    requires forall i :: 0 <= i < |es| ==> es[i].difference != d
    ensures CountOf(es, d) == 0
  {
    CountIfZero(es, IsKind(d));
  }

  lemma MatchedIssueKinds(o: Position, c: Position, d: Difference)
    requires d == ExtraPosition || d == MissingPosition
    ensures CountOf(Issues(Some(o), c), d) == 0
  {
    NoneOfKind(QuantityIssues(o, c), d);
    NoneOfKind(PriceIssues(o, c), d);
    NoneOfKind(DeliveryIssues(o, c), d);
    NoneInThree(QuantityIssues(o, c), PriceIssues(o, c), DeliveryIssues(o, c), d);
  }

  lemma IssuesCounts(order: Option<Position>, c: Position)
    ensures CountOf(Issues(order, c), MissingPosition) == 0
    ensures CountOf(Issues(order, c), ExtraPosition) == if order.None? then 1 else 0
  {
    if order.Some? {
      MatchedIssueKinds(order.value, c, ExtraPosition);
      MatchedIssueKinds(order.value, c, MissingPosition);
    } else {
      assert [ExtraIssue(c)][..0] == [];
    }
  }

  lemma UnmatchedMeans(orders: seq<Position>, c: Position)
    requires ProperIds(orders)
    ensures Unmatched(UpdateFor(orders, c)) <==> Key(c) !in Keys(orders)
    ensures Unmatched(UpdateFor(orders, c)) <==> OrderFor(orders, c).None?
  {
    OrderForFacts(orders, c);
  }

  lemma {:induction false} PositionIssuesCounts(orders: seq<Position>, confs: seq<Position>)
    requires ProperIds(orders)
    ensures CountOf(PositionIssues(orders, confs), MissingPosition) == 0
    ensures CountOf(PositionIssues(orders, confs), ExtraPosition) == CountIf(Updates(orders, confs), Unmatched)
  {
    if confs != [] {
      var init, c := confs[..|confs| - 1], confs[|confs| - 1];
      assert confs == init + [c];
      PositionIssuesCounts(orders, init);
      AppendConfirmed(orders, init, c);
      IssuesCounts(OrderFor(orders, c), c);
      CountIfConcat(PositionIssues(orders, init), Issues(OrderFor(orders, c), c), IsKind(MissingPosition));
      CountIfConcat(PositionIssues(orders, init), Issues(OrderFor(orders, c), c), IsKind(ExtraPosition));
      CountIfAppend(Updates(orders, init), UpdateFor(orders, c), Unmatched);
      UnmatchedMeans(orders, c);
    }
  }

  lemma RateInRange(matched: nat, ordered: nat)
    requires matched <= ordered && ordered > 0
    ensures 0.0 <= matched as real / ordered as real <= 1.0
  {
    var m, n := matched as real, ordered as real;
    assert 0.0 <= m <= n && n > 0.0;
    assert m / n * n == m;
  }

  /**
   The reported counts agree with the exceptions: what is not matched is missing, so the guard
   against a negative count never acts; what is not matched on the other side is extra.
   */
  lemma CountsAgree(orders: seq<Position>, confs: seq<Position>)
    requires ProperIds(orders)
    ensures var r := MatchReport(orders, confs);
            && r.matched + CountOf(r.exceptions, MissingPosition) == r.ordered
            && r.unmatchedOrdered == r.ordered - r.matched == CountOf(r.exceptions, MissingPosition)
            && r.unmatchedConfirmed == CountOf(r.exceptions, ExtraPosition)
            && 0.0 <= r.rate <= 1.0
  {
    var ids := MatchedIds(orders, confs);
    MissingCount(orders, ids);
    assert IdsIn(orders, ids) == ids by {
      forall c | c in confs && OrderFor(orders, c).Some? ensures OrderFor(orders, c).value in orders {
        OrderForFacts(orders, c);
      }
    }
    var found, missing := PositionIssues(orders, confs), MissingIssues(orders, ids);
    PositionIssuesCounts(orders, confs);
    MissingIssuesAreMissing(orders, ids);
    CountIfConcat(found, missing, IsKind(MissingPosition));
    CountIfConcat(found, missing, IsKind(ExtraPosition));
    CountIfZero(missing, IsKind(ExtraPosition));
    if |orders| > 0 {
      RateInRange(|ids|, |orders|);
    }
  }

  // ---------- what "matched" means ----------

  /** The confirmed position differs from the order in nothing the order states. */
  ghost predicate Agrees(o: Position, c: Position) {
    && (o.quantity.Some? ==> c.quantity == o.quantity)
    && (o.netPrice.Some? ==> c.netPrice == o.netPrice)
    && (if o.deliveryDate.Some? && c.deliveryDate.Some? then c.deliveryDate.value <= o.deliveryDate.value
        else o.deliveryWeek == "" || c.deliveryWeek == "" || o.deliveryWeek == c.deliveryWeek)
  }

  lemma AgreesIsNoIssue(o: Position, c: Position)
    ensures Issues(Some(o), c) == [] <==> Agrees(o, c)
  {
  }

  /** Codes identify the ordered positions, each is confirmed, and each confirmation agrees. */
  ghost predicate Clean(orders: seq<Position>, confs: seq<Position>) {
    && (forall o :: o in orders ==> Key(o) != "" && Key(o) in Keys(confs))
    && (forall o, p :: o in orders && p in orders && Key(o) == Key(p) ==> o == p)
    && (forall c :: c in confs ==> exists o :: o in orders && Key(o) == Key(c) && Agrees(o, c))
  }

  lemma PositionIssuesEmpty(orders: seq<Position>, confs: seq<Position>)
    ensures PositionIssues(orders, confs) == [] <==>
            forall c :: c in confs ==> Issues(OrderFor(orders, c), c) == []
  {
    FlatMapEmpty(confs, IssuesFor(orders));
    assert forall i :: 0 <= i < |confs| ==> IssuesFor(orders)(confs[i]) == Issues(OrderFor(orders, confs[i]), confs[i]);
  }

  lemma MissingIssuesEmpty(orders: seq<Position>, ids: set<int>)
    ensures MissingIssues(orders, ids) == [] <==> forall o :: o in orders ==> o.id in ids
  {
    FlatMapEmpty(orders, MissingFor(ids));
    assert forall i :: 0 <= i < |orders| ==> (MissingFor(ids)(orders[i]) == [] <==> orders[i].id in ids);
  }

  /** A position counts as matched exactly when it is the one its code looks up and is confirmed. */
  lemma MatchedMeans(orders: seq<Position>, confs: seq<Position>, o: Position)
    requires ProperIds(orders) && o in orders
    ensures o.id in MatchedIds(orders, confs) <==>
            Key(o) != "" && Key(o) in Keys(confs) && Lookup(orders, Key(o)) == Some(o)
  {
    if o.id in MatchedIds(orders, confs) {
      var c :| c in confs && OrderFor(orders, c).Some? && OrderFor(orders, c).value.id == o.id;
      OrderForFacts(orders, c);
      SameIdSamePosition(orders, OrderFor(orders, c).value, o);
    }
    if Key(o) != "" && Key(o) in Keys(confs) && Lookup(orders, Key(o)) == Some(o) {
      var c :| c in confs && Key(c) == Key(o);
      assert OrderFor(orders, c) == Some(o);
    }
  }

  lemma NoExceptionIsClean(orders: seq<Position>, confs: seq<Position>)
    requires ProperIds(orders) && Exceptions(orders, confs) == []
    ensures Clean(orders, confs)
  {
    PositionIssuesEmpty(orders, confs);
    MissingIssuesEmpty(orders, MatchedIds(orders, confs));
    forall o | o in orders
      ensures Key(o) != "" && Key(o) in Keys(confs) && Lookup(orders, Key(o)) == Some(o)
    {
      MatchedMeans(orders, confs, o);
    }
    forall c | c in confs ensures exists o :: o in orders && Key(o) == Key(c) && Agrees(o, c) {
      OrderForFacts(orders, c);
      var o := OrderFor(orders, c).value;
      AgreesIsNoIssue(o, c);
    }
  }

  lemma CleanLooksUp(orders: seq<Position>, confs: seq<Position>, o: Position)
    requires Clean(orders, confs) && o in orders
    ensures Lookup(orders, Key(o)) == Some(o)
  {
    LookupFacts(orders, Key(o));
  }

  lemma CleanIsNoException(orders: seq<Position>, confs: seq<Position>)
    requires ProperIds(orders) && Clean(orders, confs)
    ensures Exceptions(orders, confs) == []
  {
    forall c | c in confs ensures Issues(OrderFor(orders, c), c) == [] {
      var o :| o in orders && Key(o) == Key(c) && Agrees(o, c);
      CleanLooksUp(orders, confs, o);
      AgreesIsNoIssue(o, c);
    }
    PositionIssuesEmpty(orders, confs);
    forall o | o in orders ensures o.id in MatchedIds(orders, confs) {
      CleanLooksUp(orders, confs, o);
      MatchedMeans(orders, confs, o);
    }
    MissingIssuesEmpty(orders, MatchedIds(orders, confs));
  }

  /** The status is "matched" exactly when no exception was emitted, which is exactly `Clean`. */
  lemma MatchedStatusMeans(orders: seq<Position>, confs: seq<Position>)
    requires ProperIds(orders)
    ensures var r := MatchReport(orders, confs);
            && (r.status == FullyMatched <==> r.exceptions == [])
            && (r.status == FullyMatched <==> Clean(orders, confs))
  {
    CountsAgree(orders, confs);
    if Exceptions(orders, confs) == [] {
      NoExceptionIsClean(orders, confs);
    }
    if Clean(orders, confs) {
      CleanIsNoException(orders, confs);
    }
    assert CountOf([], MissingPosition) == 0;
  }

  function KeySeq(ps: seq<Position>): seq<string> {
    seq(|ps|, i requires 0 <= i < |ps| => Key(ps[i]))
  }

  lemma KeySeqSet(ps: seq<Position>)
    requires forall p :: p in ps ==> Key(p) != ""
    ensures (set k | k in KeySeq(ps)) == Keys(ps)
  {
    forall k | k in Keys(ps) ensures k in KeySeq(ps) {
      var p :| p in ps && Key(p) == k;
      var i :| 0 <= i < |ps| && ps[i] == p;
      assert KeySeq(ps)[i] == k;
    }
    forall k | k in KeySeq(ps) ensures k in Keys(ps) {
      var i :| 0 <= i < |ps| && KeySeq(ps)[i] == k;
      assert ps[i] in ps;
    }
  }

  /**
   A "matched" confirmation has pairwise different order codes; it has as many lines as the order
   exactly when it confirms no code twice.  A doubled line is not noticed by the matching.
   */
  lemma MatchedLineCount(orders: seq<Position>, confs: seq<Position>)
    requires ProperIds(orders) && MatchReport(orders, confs).status == FullyMatched
    ensures Distinct(KeySeq(orders))
    ensures |confs| == |orders| <==> Distinct(KeySeq(confs))
  {
    MatchedStatusMeans(orders, confs);
    assert Keys(orders) == Keys(confs);
    forall c | c in confs ensures Key(c) != "" {
      var o :| o in orders && Key(o) == Key(c) && Agrees(o, c);
    }
    forall i, j | 0 <= i < j < |orders| ensures KeySeq(orders)[i] != KeySeq(orders)[j] {
      assert orders[i] in orders && orders[j] in orders && orders[i].id != orders[j].id;
    }
    KeySeqSet(orders);
    KeySeqSet(confs);
    DistinctCardinality(KeySeq(orders));
    DistinctCardinality(KeySeq(confs));
  }

  /** A line that is confirmed twice is not noticed. */
  lemma DoubledLineExample()
    ensures var o := Position(1, "A", "", None, None, None, "");
            var c, d := Position(2, "A", "", None, None, None, ""), Position(3, "A", "", None, None, None, "");
            MatchReport([o], [c, d]).status == FullyMatched
  {
    var o := Position(1, "A", "", None, None, None, "");
    var c, d := Position(2, "A", "", None, None, None, ""), Position(3, "A", "", None, None, None, "");
    assert o in [o] && c in [c, d] && Key(o) == Key(c) == Key(d) == "A";
    assert Key(c) in Keys([c, d]);
    assert Clean([o], [c, d]);
    MatchedStatusMeans([o], [c, d]);
  }

  // ---------- independence of order ----------

  lemma ExceptionsPermuteConfirmed(orders: seq<Position>, a: seq<Position>, b: seq<Position>)
    requires multiset(a) == multiset(b)
    ensures multiset(Exceptions(orders, a)) == multiset(Exceptions(orders, b))
  {
    FlatMapPermutes(a, b, IssuesFor(orders));
    PermutedMembers(a, b);
    assert MatchedIds(orders, a) == MatchedIds(orders, b);
  }

  /** Positions whose code is not among `keys`. */
  function Outside(keys: set<string>): Position -> bool {
    (p: Position) => Key(p) !in keys
  }

  lemma {:induction false} UnmatchedIsOutside(orders: seq<Position>, confs: seq<Position>)
    requires ProperIds(orders)
    ensures CountIf(Updates(orders, confs), Unmatched) == CountIf(confs, Outside(Keys(orders)))
  {
    if confs != [] {
      var init, c := confs[..|confs| - 1], confs[|confs| - 1];
      assert confs == init + [c];
      UnmatchedIsOutside(orders, init);
      AppendConfirmed(orders, init, c);
      CountIfAppend(Updates(orders, init), UpdateFor(orders, c), Unmatched);
      UnmatchedMeans(orders, c);
    }
  }

  lemma ProperIdsPermute(a: seq<Position>, b: seq<Position>)
    requires ProperIds(a) && multiset(a) == multiset(b)
    ensures ProperIds(b)
  {
    PermutedMembers(a, b);
    DistinctPermutes(a, b);
    forall i | 0 <= i < |b| ensures b[i].id > 0 {
      assert b[i] in a;
    }
    forall i, j | 0 <= i < j < |b| ensures b[i].id != b[j].id {
      assert b[i] in a && b[j] in a;
      var x :| 0 <= x < |a| && a[x] == b[i];
      var y :| 0 <= y < |a| && a[y] == b[j];
      assert x != y;
    }
  }

  /** Status, counts and rate do not depend on the order of either list. */
  lemma ReportOrderIndependent(orders: seq<Position>, orders': seq<Position>,
                               confs: seq<Position>, confs': seq<Position>)
    requires ProperIds(orders) && multiset(orders) == multiset(orders') && multiset(confs) == multiset(confs')
    ensures var r, r' := MatchReport(orders, confs), MatchReport(orders', confs');
            && r.ordered == r'.ordered && r.confirmed == r'.confirmed && r.matched == r'.matched
            && r.unmatchedOrdered == r'.unmatchedOrdered && r.unmatchedConfirmed == r'.unmatchedConfirmed
            && r.rate == r'.rate && r.status == r'.status
  {
    ProperIdsPermute(orders, orders');
    PermutedMembers(orders, orders');
    PermutedMembers(confs, confs');
    assert Keys(orders) == Keys(orders') && Keys(confs) == Keys(confs');
    MatchedCountClosedForm(orders, confs);
    MatchedCountClosedForm(orders', confs');
    UnmatchedIsOutside(orders, confs);
    UnmatchedIsOutside(orders', confs');
    CountIfPermutes(confs, confs', Outside(Keys(orders)));
    MatchedStatusMeans(orders, confs);
    MatchedStatusMeans(orders', confs');
    CleanPermutes(orders, orders', confs, confs');
  }

  lemma CleanPermutes(orders: seq<Position>, orders': seq<Position>, confs: seq<Position>, confs': seq<Position>)
    requires forall x :: x in orders <==> x in orders'
    requires forall x :: x in confs <==> x in confs'
    ensures Clean(orders, confs) <==> Clean(orders', confs')
  {
    assert Keys(confs) == Keys(confs');
  }

  // ---------- severity and status of one position ----------

  lemma MaxSeverityMeans(es: seq<Exc>)
    requires forall i :: 0 <= i < |es| ==> es[i].severity != Green
    ensures MaxSeverity(es) == Green <==> es == []
    ensures MaxSeverity(es) == Red <==> Has(es, Red)
  {
    if es != [] {
      assert es[0] in es;
    }
  }

  /** Green exactly without exceptions, red exactly with a red one, "matched" exactly without any. */
  lemma SeverityMeans(order: Option<Position>, c: Position)
    ensures var es := Issues(order, c);
            && (MaxSeverity(es) == Green <==> es == [])
            && (MaxSeverity(es) == Red <==> Has(es, Red))
            && (StatusOfLast(es) == Matched <==> es == [])
  {
    var es := Issues(order, c);
    MaxSeverityMeans(es);
  }

  predicate QuantityMissing(o: Position, c: Position) {
    o.quantity.Some? && c.quantity.None?
  }

  predicate PriceMissing(o: Position, c: Position) {
    o.netPrice.Some? && c.netPrice.None?
  }

  predicate PriceDiffersOn(o: Position, c: Position) {
    o.netPrice.Some? && c.netPrice.Some? && o.netPrice != c.netPrice
  }

  /** Late by less than a week, or another week where a date is missing. */
  predicate SlightlyLate(o: Position, c: Position) {
    if o.deliveryDate.Some? && c.deliveryDate.Some? then 0 < c.deliveryDate.value - o.deliveryDate.value < 7
    else o.deliveryWeek != "" && c.deliveryWeek != "" && o.deliveryWeek != c.deliveryWeek
  }

  predicate NotLate(o: Position, c: Position) {
    if o.deliveryDate.Some? && c.deliveryDate.Some? then c.deliveryDate.value <= o.deliveryDate.value
    else o.deliveryWeek == "" || c.deliveryWeek == "" || o.deliveryWeek == c.deliveryWeek
  }

  /** Severity of at most one exception. */
  function Grade(part: seq<Exc>): Severity {
    if part == [] then Green else part[0].severity
  }

  ghost predicate AtMostOne(part: seq<Exc>) {
    |part| <= 1 && (part != [] ==> part[0].severity != Green)
  }

  lemma {:induction false} GradeOfParts(q: seq<Exc>, p: seq<Exc>, d: seq<Exc>)
    requires AtMostOne(q) && AtMostOne(p) && AtMostOne(d)
    ensures MaxSeverity(q + p + d) == Worse(Worse(Grade(q), Grade(p)), Grade(d))
  {
    assert MaxSeverity([]) == Green;
    AppendIssue([], q);
    assert [] + q == q;
    AppendIssue(q, p);
    AppendIssue(q + p, d);
  }

  lemma {:induction false} StatusOfParts(q: seq<Exc>, p: seq<Exc>, d: seq<Exc>)
    requires AtMostOne(q) && AtMostOne(p) && AtMostOne(d)
    ensures StatusOfLast(q + p + d) ==
            if d != [] then StatusOfLast(d) else if p != [] then StatusOfLast(p) else StatusOfLast(q)
  {
    AppendIssue(q, p);
    AppendIssue(q + p, d);
  }

  lemma QuantityGrade(o: Position, c: Position)
    ensures AtMostOne(QuantityIssues(o, c))
    ensures Grade(QuantityIssues(o, c)) == Red <==> QuantityMissing(o, c)
  {
  }

  lemma PriceGrade(o: Position, c: Position)
    ensures AtMostOne(PriceIssues(o, c))
    ensures Grade(PriceIssues(o, c)) == Red <==> PriceMissing(o, c)
    ensures Grade(PriceIssues(o, c)) == Yellow <==> PriceDiffersOn(o, c)
  {
  }

  lemma DeliveryGrade(o: Position, c: Position)
    ensures AtMostOne(DeliveryIssues(o, c))
    ensures Grade(DeliveryIssues(o, c)) == Yellow <==> SlightlyLate(o, c)
    ensures Grade(DeliveryIssues(o, c)) == Green <==> NotLate(o, c)
  {
  }

  lemma {:induction false} RedThenYellow(q: seq<Exc>, p: seq<Exc>, d: seq<Exc>)
    requires AtMostOne(q) && AtMostOne(p) && AtMostOne(d)
    ensures MaxSeverity(q + p + d) == Red && StatusOfLast(q + p + d) != ManualReviewRequired <==>
            || (Grade(d) == Yellow && (Grade(q) == Red || Grade(p) == Red))
            || (Grade(d) == Green && Grade(p) == Yellow && Grade(q) == Red)
  {
    GradeOfParts(q, p, d);
    StatusOfParts(q, p, d);
  }

  /**
   A red position escapes manual review exactly when a yellow check runs after the red one:
   a slight delay after an unreadable field, or a price difference after an unreadable quantity.
   */
  lemma RedWithoutReview(o: Position, c: Position)
    ensures var es := Issues(Some(o), c);
            MaxSeverity(es) == Red && StatusOfLast(es) != ManualReviewRequired <==>
            || (SlightlyLate(o, c) && (QuantityMissing(o, c) || PriceMissing(o, c)))
            || (NotLate(o, c) && PriceDiffersOn(o, c) && QuantityMissing(o, c))
  {
    QuantityGrade(o, c);
    PriceGrade(o, c);
    DeliveryGrade(o, c);
    RedThenYellow(QuantityIssues(o, c), PriceIssues(o, c), DeliveryIssues(o, c));
  }

  /** An unreadable quantity with a changed price is shown as a mere warning. */
  lemma RedWithoutReviewExample()
    ensures var o := Position(1, "A", "", Some(2.0), Some(10.0), None, "");
            var c := Position(2, "A", "", None, Some(12.0), None, "");
            var es := Issues(Some(o), c);
            MaxSeverity(es) == Red && StatusOfLast(es) == MatchedWithWarning
  {
    var o := Position(1, "A", "", Some(2.0), Some(10.0), None, "");
    var c := Position(2, "A", "", None, Some(12.0), None, "");
    RedWithoutReview(o, c);
  }
}
