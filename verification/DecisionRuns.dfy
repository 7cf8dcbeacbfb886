/** What every run of confirmations, matchings and decisions guarantees. */
module DecisionRuns {
  import opened Common
  import opened Decisions
  import Matching
  import MatchingProperties

  // ---------- runs ----------

  /**
   Creating a confirmation takes two statements: the first inserts it, the second writes the result
   of the matching and opens one exception per difference, with ids that were never used.  Other
   requests may come between the two.
   */
  datatype Event =
    | Create(confirmation: int)
    | Match(confirmation: int, orders: seq<Matching.Position>, confs: seq<Matching.Position>, ids: seq<int>)
    | Decide(request: Request)

  ghost predicate Enabled(s: State, e: Event) {
    && (e.Create? ==> e.confirmation !in s.confirmations)
    && (e.Match? ==>
          && e.confirmation in s.confirmations && !s.confirmations[e.confirmation].matched
          && |e.ids| == |Matching.Exceptions(e.orders, e.confs)| && Distinct(e.ids)
          && (forall x :: x in e.ids ==> x !in s.exceptions))
  }

  /** The second statement; it also removes earlier exceptions of the confirmation. */
  function AfterMatch(s: State, k: int, status: Matching.Status, ids: seq<int>): State
    requires k in s.confirmations
  {
    s.(confirmations := s.confirmations[k := s.confirmations[k].(status := Computed(status), matched := true)],
       exceptions := (map x | x in s.exceptions && s.exceptions[x].confirmation != k :: s.exceptions[x]) +
                     (map x | x in ids :: Exception(k, Open, None, None, None)))
  }

  function Step(s: State, e: Event): State {
    match e
    case Create(k) => s.(confirmations := s.confirmations[k := Confirmation(MatchingInProgress, None, None, false)])
    case Match(k, orders, confs, ids) =>
      if k in s.confirmations then AfterMatch(s, k, Matching.MatchReport(orders, confs).status, ids) else s
    case Decide(r) => AfterDecide(s, r)
  }

  function Empty(): State {
    State(map[], map[], [])
  }

  function Exec(s: State, es: seq<Event>): State {
    if es == [] then s else Step(Exec(s, es[..|es| - 1]), es[|es| - 1])
  }

  ghost predicate EnabledRun(s: State, es: seq<Event>) {
    forall i :: 0 <= i < |es| ==> Enabled(Exec(s, es[..i]), es[i])
  }

  lemma RunPrefix(s: State, es: seq<Event>)
    requires es != [] && EnabledRun(s, es)
    ensures EnabledRun(s, es[..|es| - 1]) && Enabled(Exec(s, es[..|es| - 1]), es[|es| - 1])
  {
    var init := es[..|es| - 1];
    forall i | 0 <= i < |init| ensures init[..i] == es[..i] && init[i] == es[i] {
    }
  }

  // ---------- references ----------

  /** Exceptions belong to matched confirmations, and log entries to exceptions of their confirmation. */
  ghost predicate References(s: State) {
    && (forall x :: x in s.exceptions ==>
          s.exceptions[x].confirmation in s.confirmations && s.confirmations[s.exceptions[x].confirmation].matched)
    && (forall i :: 0 <= i < |s.log| ==>
          s.log[i].exception in s.exceptions && s.exceptions[s.log[i].exception].confirmation == s.log[i].confirmation)
  }

  lemma MatchKeepsReferences(s: State, e: Event)
    requires References(s) && e.Match? && Enabled(s, e)
    ensures References(Step(s, e))
    ensures forall x :: x in s.exceptions ==> x in Step(s, e).exceptions && Step(s, e).exceptions[x] == s.exceptions[x]
  {
    var s' := Step(s, e);
    forall x | x in s.exceptions ensures x in s'.exceptions && s'.exceptions[x] == s.exceptions[x] {
      assert s.exceptions[x].confirmation != e.confirmation;
    }
  }

  lemma DecideKeepsReferences(s: State, r: Request)
    requires References(s)
    ensures References(AfterDecide(s, r))
  {
    var s' := AfterDecide(s, r);
    assert forall x :: x in s.exceptions ==> s'.exceptions[x].confirmation == s.exceptions[x].confirmation;
    assert forall k :: k in s.confirmations ==>
        k in s'.confirmations && s'.confirmations[k].matched == s.confirmations[k].matched;
  }

  lemma {:induction false} RunKeepsReferences(es: seq<Event>)
    requires EnabledRun(Empty(), es)
    ensures References(Exec(Empty(), es))
  {
    if es != [] {
      var mid, e := Exec(Empty(), es[..|es| - 1]), es[|es| - 1];
      RunPrefix(Empty(), es);
      RunKeepsReferences(es[..|es| - 1]);
      match e {
        case Create(_) =>
        case Match(_, _, _, _) => MatchKeepsReferences(mid, e);
        case Decide(r) => DecideKeepsReferences(mid, r);
      }
    }
  }

  // ---------- replay of the log ----------

  /** Status of an exception according to the log alone. */
  function Replay(log: seq<Decision>, x: int): ExcStatus {
    if log == [] then Open
    else if log[|log| - 1].exception == x then log[|log| - 1].next
    else Replay(log[..|log| - 1], x)
  }

  /** Each logged decision starts from the status the earlier ones lead to. */
  ghost predicate Chained(log: seq<Decision>) {
    forall i :: 0 <= i < |log| ==> log[i].previous == Replay(log[..i], log[i].exception)
  }

  ghost predicate LogInv(s: State) {
    && Chained(s.log)
    && (forall x :: x in s.exceptions ==> s.exceptions[x].status == Replay(s.log, x))
  }

  lemma {:induction false} ReplayUnknown(log: seq<Decision>, x: int)
    requires forall i :: 0 <= i < |log| ==> log[i].exception != x
    ensures Replay(log, x) == Open
  {
    if log != [] {
      ReplayUnknown(log[..|log| - 1], x);
    }
  }

  lemma {:induction false} LogAppend(log: seq<Decision>, d: Decision)
    ensures forall x :: Replay(log + [d], x) == if x == d.exception then d.next else Replay(log, x)
    ensures Chained(log) && d.previous == Replay(log, d.exception) ==> Chained(log + [d])
  {
    var more := log + [d];
    assert more[..|log|] == log;
    forall i | 0 <= i < |log| ensures more[..i] == log[..i] {
    }
  }

  lemma {:induction false} MatchKeepsLogInv(s: State, e: Event)
    requires LogInv(s) && References(s) && e.Match? && Enabled(s, e)
    ensures LogInv(Step(s, e))
  {
    var s' := Step(s, e);
    forall x | x in s'.exceptions ensures s'.exceptions[x].status == Replay(s'.log, x) {
      if x in e.ids {
        ReplayUnknown(s.log, x);
      }
    }
  }

  lemma {:induction false} DecideKeepsLogInv(s: State, r: Request)
    requires LogInv(s)
    ensures LogInv(AfterDecide(s, r))
  {
    var s' := AfterDecide(s, r);
    if s'.log != s.log {
      var d := s'.log[|s.log|];
      assert s'.log == s.log + [d];
      LogAppend(s.log, d);
      forall x | x in s'.exceptions ensures s'.exceptions[x].status == Replay(s'.log, x) {
        assert x in s.exceptions;
      }
    }
  }

  /** For every run, the log forms chains from `Open`, and replaying it gives the current statuses. */
  lemma {:induction false} LogReplays(es: seq<Event>)
    requires EnabledRun(Empty(), es)
    ensures LogInv(Exec(Empty(), es))
  {
    if es != [] {
      var mid, e := Exec(Empty(), es[..|es| - 1]), es[|es| - 1];
      RunPrefix(Empty(), es);
      RunKeepsReferences(es[..|es| - 1]);
      LogReplays(es[..|es| - 1]);
      match e {
        case Create(_) =>
        case Match(_, _, _, _) => MatchKeepsLogInv(mid, e);
        case Decide(r) => DecideKeepsLogInv(mid, r);
      }
    }
  }

  /** The newest decision on a confirmation. */
  function LastDecision(log: seq<Decision>, k: int): Option<Decision> {
    if log == [] then None
    else if log[|log| - 1].confirmation == k then Some(log[|log| - 1])
    else LastDecision(log[..|log| - 1], k)
  }

  predicate EndsWaiting(s: State, k: int) {
    LastDecision(s.log, k).Some? && LastDecision(s.log, k).value.next == WaitingForSupplier
  }

  lemma {:induction false} NoDecisionYet(log: seq<Decision>, k: int)
    requires forall i :: 0 <= i < |log| ==> log[i].confirmation != k
    ensures LastDecision(log, k) == None
  {
    if log != [] {
      NoDecisionYet(log[..|log| - 1], k);
    }
  }

  lemma {:induction false} LastDecisionAppend(log: seq<Decision>, d: Decision, k: int)
    ensures LastDecision(log + [d], k) == if d.confirmation == k then Some(d) else LastDecision(log, k)
  {
    assert (log + [d])[..|log|] == log;
  }

  /** The newest decision on a confirmation is also the newest one on its exception. */
  lemma {:induction false} NewestDecisionHolds(log: seq<Decision>, k: int, owner: map<int, int>)
    requires forall i :: 0 <= i < |log| ==> log[i].exception in owner && owner[log[i].exception] == log[i].confirmation
    requires LastDecision(log, k).Some?
    ensures var d := LastDecision(log, k).value;
            d.exception in owner && owner[d.exception] == k && Replay(log, d.exception) == d.next
  {
    if log[|log| - 1].confirmation != k {
      NewestDecisionHolds(log[..|log| - 1], k, owner);
    }
  }

  // ---------- approval ----------

  /** A valid decision that the statement carries out on confirmation `k`. */
  predicate Addresses(e: Event, k: int) {
    e.Decide? && ParseAction(e.request.action).Some? && e.request.visible && e.request.confirmation == k
  }

  /** Such a decision that does not name an exception of `k`. */
  predicate Strays(s: State, e: Event, k: int) {
    Addresses(e, k) && k in s.confirmations && !Belongs(s, e.request)
  }

  /** Some decision of the run strays. */
  ghost predicate Strayed(s: State, es: seq<Event>, k: int) {
    es != [] &&
    var init := es[..|es| - 1];
    Strayed(s, init, k) || Strays(Exec(s, init), es[|es| - 1], k)
  }

  /**
   What approval says, exactly: `approved_at` is set if and only if a decision strayed, or the
   confirmation had exceptions and none is open any more.  Unless one strayed, the status is
   "approved" if and only if, in addition, the newest decision did not ask the supplier.
   */
  ghost predicate ApprovalExact(s: State, k: int, strayed: bool)
    requires k in s.confirmations
  {
    var c := s.confirmations[k];
    && (c.approvedAt.Some? <==> strayed || (HasExceptions(s, k) && OpenOf(s, k) == {}))
    && (c.status == Approved ==> c.approvedAt.Some?)
    && (!strayed ==> (c.status == Approved <==> c.approvedAt.Some? && !EndsWaiting(s, k)))
  }

  lemma CreatedIsExact(s: State, e: Event)
    requires References(s) && e.Create? && Enabled(s, e)
    ensures ApprovalExact(Step(s, e), e.confirmation, false)
  {
    assert !HasExceptions(Step(s, e), e.confirmation);
  }

  lemma CreateKeepsExact(s: State, e: Event, k: int, strayed: bool)
    requires e.Create? && Enabled(s, e) && k in s.confirmations && ApprovalExact(s, k, strayed)
    ensures ApprovalExact(Step(s, e), k, strayed)
  {
    assert OpenOf(Step(s, e), k) == OpenOf(s, k);
  }

  lemma MatchedIsExact(s: State, e: Event, strayed: bool)
    requires References(s) && e.Match? && Enabled(s, e) && ApprovalExact(s, e.confirmation, strayed)
    ensures ApprovalExact(Step(s, e), e.confirmation, strayed)
  {
    var s', k := Step(s, e), e.confirmation;
    assert !HasExceptions(s, k);
    if HasExceptions(s', k) {
      var x :| x in s'.exceptions && s'.exceptions[x].confirmation == k;
      assert x in OpenOf(s', k);
    }
  }

  lemma MatchKeepsExact(s: State, e: Event, k: int, strayed: bool)
    requires e.Match? && Enabled(s, e) && k in s.confirmations && k != e.confirmation && ApprovalExact(s, k, strayed)
    ensures ApprovalExact(Step(s, e), k, strayed)
  {
    var s' := Step(s, e);
    assert forall x :: x in s.exceptions && s.exceptions[x].confirmation == k ==>
        x in s'.exceptions && s'.exceptions[x] == s.exceptions[x];
    assert forall x :: x in s'.exceptions && s'.exceptions[x].confirmation == k ==> x in s.exceptions;
    assert OpenOf(s', k) == OpenOf(s, k);
    assert HasExceptions(s', k) <==> HasExceptions(s, k);
  }

  /** A decision on another confirmation, or one that changes nothing. */
  lemma OthersKeepExact(s: State, r: Request, k: int, strayed: bool)
    requires k in s.confirmations && ApprovalExact(s, k, strayed) && !Addresses(Decide(r), k)
    ensures k in AfterDecide(s, r).confirmations && ApprovalExact(AfterDecide(s, r), k, strayed)
  {
    var s' := AfterDecide(s, r);
    SameExceptionsOf(s, r, k);
    OpenAfterDecide(s, r, k);
    assert r.confirmation != k ==> Belongs(s, r) ==> r.exception !in OpenOf(s, k);
    if |s'.log| > |s.log| {
      LastDecisionAppend(s.log, s'.log[|s.log|], k);
    }
  }

  lemma StrayIsExact(s: State, r: Request)
    requires Strays(s, Decide(r), r.confirmation)
    ensures r.confirmation in AfterDecide(s, r).confirmations
    ensures ApprovalExact(AfterDecide(s, r), r.confirmation, true)
  {
  }

  lemma ProperKeepsExact(s: State, r: Request, strayed: bool)
    requires Addresses(Decide(r), r.confirmation) && r.confirmation in s.confirmations && Belongs(s, r)
    requires ApprovalExact(s, r.confirmation, strayed)
    ensures r.confirmation in AfterDecide(s, r).confirmations
    ensures ApprovalExact(AfterDecide(s, r), r.confirmation, strayed)
  {
    var s', k := AfterDecide(s, r), r.confirmation;
    SameExceptionsOf(s, r, k);
    OpenAfterDecide(s, r, k);
    LastDecisionAppend(s.log, s'.log[|s.log|], k);
    assert HasExceptions(s, k);
    assert OthersOpen(s, r) == 0 <==> OpenOf(s', k) == {};
  }

  lemma StepKeepsExact(s: State, e: Event, k: int, strayed: bool)
    requires References(s) && Enabled(s, e) && k in s.confirmations && ApprovalExact(s, k, strayed)
    ensures k in Step(s, e).confirmations && ApprovalExact(Step(s, e), k, strayed || Strays(s, e, k))
  {
    if e.Create? {
      CreateKeepsExact(s, e, k, strayed);
    } else if e.Match? {
      if e.confirmation == k {
        MatchedIsExact(s, e, strayed);
      } else {
        MatchKeepsExact(s, e, k, strayed);
      }
    } else if !Addresses(e, k) {
      OthersKeepExact(s, e.request, k, strayed);
    } else if Belongs(s, e.request) {
      ProperKeepsExact(s, e.request, strayed);
    } else {
      StrayIsExact(s, e.request);
    }
  }

  /** Confirmations only appear by `Create` and never disappear. */
  lemma StepKeys(s: State, e: Event)
    ensures Step(s, e).confirmations.Keys == s.confirmations.Keys + if e.Create? then {e.confirmation} else {}
  {
  }

  lemma {:induction false} NoStrayBefore(es: seq<Event>, k: int)
    requires k !in Exec(Empty(), es).confirmations
    ensures !Strayed(Empty(), es, k)
  {
    if es != [] {
      StepKeys(Exec(Empty(), es[..|es| - 1]), es[|es| - 1]);
      NoStrayBefore(es[..|es| - 1], k);
    }
  }

  /** Approval is exact after every run, whatever the decisions name. */
  lemma {:induction false} RunsApproveExactly(es: seq<Event>, k: int)
    requires EnabledRun(Empty(), es) && k in Exec(Empty(), es).confirmations
    ensures ApprovalExact(Exec(Empty(), es), k, Strayed(Empty(), es, k))
  {
    if es != [] {
      var init, e := es[..|es| - 1], es[|es| - 1];
      var mid := Exec(Empty(), init);
      RunPrefix(Empty(), es);
      RunKeepsReferences(init);
      if k in mid.confirmations {
        RunsApproveExactly(init, k);
        StepKeepsExact(mid, e, k, Strayed(Empty(), init, k));
      } else {
        StepKeys(mid, e);
        NoStrayBefore(init, k);
        CreatedIsExact(mid, e);
      }
    }
  }

  /**
   After every run, approval is safe if and only if no confirmation with an exception still open
   ever received a valid, visible decision that did not name one of its exceptions.
   */
  lemma RunsApproveSafely(es: seq<Event>)
    requires EnabledRun(Empty(), es)
    ensures var s := Exec(Empty(), es);
            ApprovalSafe(s) <==> forall k :: k in s.confirmations && OpenOf(s, k) != {} ==> !Strayed(Empty(), es, k)
  {
    var s := Exec(Empty(), es);
    forall k | k in s.confirmations ensures ApprovalExact(s, k, Strayed(Empty(), es, k)) {
      RunsApproveExactly(es, k);
    }
    if ApprovalSafe(s) {
      forall k | k in s.confirmations && OpenOf(s, k) != {} ensures !Strayed(Empty(), es, k) {
        assert ApprovalExact(s, k, Strayed(Empty(), es, k));
      }
    } else {
      var k :| k in s.confirmations && OpenOf(s, k) != {} &&
               (s.confirmations[k].status == Approved || s.confirmations[k].approvedAt.Some?);
      assert ApprovalExact(s, k, Strayed(Empty(), es, k));
    }
  }

  /** A decision between the two statements of a creation approves before any exception is open. */
  lemma EarlyDecisionApproves(k: int, x: int, e: Event)
    requires e.Match? && e.confirmation == k && e.ids != []
    ensures var early := Step(Step(Empty(), Create(k)), Decide(Request(k, x, "", 7, 3, true)));
            var s := Step(early, e);
            && s.confirmations[k].approvedAt == Some(3) && OpenOf(s, k) == (set y | y in e.ids)
            && !ApprovalSafe(s)
  {
    assert Strip("", IsSpace) == "";
    var early := Step(Step(Empty(), Create(k)), Decide(Request(k, x, "", 7, 3, true)));
    assert early == State(map[k := Confirmation(Approved, Some(7), Some(3), false)], map[], []);
    var s := Step(early, e);
    assert OpenOf(s, k) == set y | y in e.ids;
    assert e.ids[0] in OpenOf(s, k);
  }

  /** The decision that closes the last open exception stamps the approval with its own time and user. */
  lemma LastClosingStamps(s: State, r: Request, k: int)
    requires k in s.confirmations && OpenOf(s, k) != {} && OpenOf(AfterDecide(s, r), k) == {}
    ensures ApprovalExact(s, k, false) ==> s.confirmations[k].approvedAt == None
    ensures k in AfterDecide(s, r).confirmations
    ensures AfterDecide(s, r).confirmations[k].approvedAt == Some(r.now)
    ensures AfterDecide(s, r).confirmations[k].approvedBy == Some(r.actor)
  {
    OpenAfterDecide(s, r, k);
    var x :| x in OpenOf(s, k);
    assert x !in OpenOf(AfterDecide(s, r), k);
    assert OpenOf(s, k) - {r.exception} == {};
  }

  // ---------- status ----------

  /** A decision on `k` that asks the supplier, strays, or leaves no exception of `k` open. */
  predicate Speaks(s: State, e: Event, k: int) {
    && Addresses(e, k) && k in s.confirmations
    && (NewStatus(ParseAction(e.request.action).value) == WaitingForSupplier || !Belongs(s, e.request) ||
        OpenOf(Step(s, e), k) == {})
  }

  /** The status according to the newest creation, matching or speaking decision of the run. */
  ghost function LastWord(s: State, es: seq<Event>, k: int): Option<ConfStatus> {
    if es == [] then None
    else
      var init, e := es[..|es| - 1], es[|es| - 1];
      if e == Create(k) then Some(MatchingInProgress)
      else if e.Match? && e.confirmation == k then Some(Computed(Matching.MatchReport(e.orders, e.confs).status))
      else if Speaks(Exec(s, init), e, k) then
        Some(if NewStatus(ParseAction(e.request.action).value) == WaitingForSupplier then Suspended else Approved)
      else LastWord(s, init, k)
  }

  lemma SilentKeepsStatus(s: State, e: Event, k: int)
    requires Enabled(s, e) && k in s.confirmations && !Speaks(s, e, k) && !(e.Match? && e.confirmation == k)
    ensures k in Step(s, e).confirmations && Step(s, e).confirmations[k].status == s.confirmations[k].status
  {
    if Addresses(e, k) {
      OpenAfterDecide(s, e.request, k);
      assert OthersOpen(s, e.request) != 0;
    }
  }

  lemma SpokenStatus(s: State, e: Event, k: int)
    requires Speaks(s, e, k)
    ensures k in Step(s, e).confirmations
    ensures Step(s, e).confirmations[k].status ==
            if NewStatus(ParseAction(e.request.action).value) == WaitingForSupplier then Suspended else Approved
  {
    OpenAfterDecide(s, e.request, k);
    if Belongs(s, e.request) && OpenOf(Step(s, e), k) == {} {
      assert OpenOf(s, k) - {e.request.exception} == {};
    }
  }

  /** After every run, stray decisions included, the status is the last word. */
  lemma {:induction false} RunsStatusExactly(es: seq<Event>, k: int)
    requires EnabledRun(Empty(), es) && k in Exec(Empty(), es).confirmations
    ensures LastWord(Empty(), es, k) == Some(Exec(Empty(), es).confirmations[k].status)
  {
    if es != [] {
      var init, e := es[..|es| - 1], es[|es| - 1];
      var mid := Exec(Empty(), init);
      RunPrefix(Empty(), es);
      StepKeys(mid, e);
      if k in mid.confirmations {
        RunsStatusExactly(init, k);
        if Speaks(mid, e, k) {
          SpokenStatus(mid, e, k);
        } else if !(e.Match? && e.confirmation == k) {
          SilentKeepsStatus(mid, e, k);
        }
      }
    }
  }

  // ---------- approved and settled ----------

  /**
   After every run without a stray decision on it, a confirmation is approved and settled if and
   only if it has exceptions and each of them was accepted or resolved.
   */
  lemma {:induction false} RunsSettleExactly(es: seq<Event>, k: int)
    requires EnabledRun(Empty(), es) && k in Exec(Empty(), es).confirmations && !Strayed(Empty(), es, k)
    ensures var s := Exec(Empty(), es);
            s.confirmations[k].status == Approved && Settled(s, k) <==> HasExceptions(s, k) && Settled(s, k)
  {
    var s := Exec(Empty(), es);
    RunsApproveExactly(es, k);
    RunKeepsReferences(es);
    LogReplays(es);
    SettledAndApproved(s, k);
  }

  lemma SettledAndApproved(s: State, k: int)
    requires References(s) && LogInv(s) && k in s.confirmations && ApprovalExact(s, k, false)
    ensures s.confirmations[k].status == Approved && Settled(s, k) <==> HasExceptions(s, k) && Settled(s, k)
  {
    if Settled(s, k) {
      SettledIsClosed(s, k);
      SettledIsNotWaiting(s, k);
    }
  }

  lemma SettledIsNotWaiting(s: State, k: int)
    requires References(s) && LogInv(s) && Settled(s, k)
    ensures !EndsWaiting(s, k)
  {
    if LastDecision(s.log, k).Some? {
      var owner := map x | x in s.exceptions :: s.exceptions[x].confirmation;
      NewestDecisionHolds(s.log, k, owner);
      var x := LastDecision(s.log, k).value.exception;
      assert Good(s.exceptions[x].status);
    }
  }

  // ---------- a confirmation without differences ----------

  ghost predicate Addressed(es: seq<Event>, k: int) {
    exists e :: e in es && Addresses(e, k)
  }

  lemma AddressedStep(es: seq<Event>, k: int)
    requires es != []
    ensures Addressed(es, k) <==> Addressed(es[..|es| - 1], k) || Addresses(es[|es| - 1], k)
  {
    assert es == es[..|es| - 1] + [es[|es| - 1]];
  }

  lemma {:induction false} NoExceptionsStays(s: State, es: seq<Event>, k: int)
    requires k in s.confirmations && s.confirmations[k].matched && !HasExceptions(s, k) && EnabledRun(s, es)
    ensures k in Exec(s, es).confirmations && Exec(s, es).confirmations[k].matched && !HasExceptions(Exec(s, es), k)
    ensures if Addressed(es, k) then Exec(s, es).confirmations[k].approvedAt.Some?
            else Exec(s, es).confirmations[k] == s.confirmations[k]
  {
    if es != [] {
      var init, e := es[..|es| - 1], es[|es| - 1];
      RunPrefix(s, es);
      AddressedStep(es, k);
      NoExceptionsStays(s, init, k);
      NoExceptionsStep(Exec(s, init), e, k);
    }
  }

  lemma NoExceptionsStep(s: State, e: Event, k: int)
    requires k in s.confirmations && s.confirmations[k].matched && !HasExceptions(s, k) && Enabled(s, e)
    ensures k in Step(s, e).confirmations && Step(s, e).confirmations[k].matched && !HasExceptions(Step(s, e), k)
    ensures !Addresses(e, k) ==> Step(s, e).confirmations[k] == s.confirmations[k]
    ensures Addresses(e, k) || s.confirmations[k].approvedAt.Some? ==> Step(s, e).confirmations[k].approvedAt.Some?
  {
    if e.Decide? {
      SameExceptionsOf(s, e.request, k);
    } else if e.Match? {
      assert forall x :: x in Step(s, e).exceptions && Step(s, e).exceptions[x].confirmation == k ==> x in s.exceptions;
    }
  }

  /**
   A confirmation that the matching reports as fully matched has nothing to decide.  Still, for
   every later run, it is approved if and only if it was before or some valid, visible decision
   names it, whatever exception that decision names; otherwise the matching's row stays as it is.
   */
  lemma FullyMatchedApproval(s: State, e: Event, es: seq<Event>)
    requires References(s) && e.Match? && Enabled(s, e) && MatchingProperties.ProperIds(e.orders)
    requires Matching.MatchReport(e.orders, e.confs).status == Matching.FullyMatched
    requires EnabledRun(Step(s, e), es)
    ensures var k, s' := e.confirmation, Exec(Step(s, e), es);
            && k in s'.confirmations
            && (s'.confirmations[k].approvedAt.Some? <==> s.confirmations[k].approvedAt.Some? || Addressed(es, k))
            && (!Addressed(es, k) ==>
                  s'.confirmations[k] ==
                  s.confirmations[k].(status := Computed(Matching.FullyMatched), matched := true))
  {
    MatchingProperties.MatchedStatusMeans(e.orders, e.confs);
    assert e.ids == [];
    assert !HasExceptions(Step(s, e), e.confirmation);
    NoExceptionsStays(Step(s, e), es, e.confirmation);
  }

  /** A decision on any exception, existing or not, approves a confirmation that has none. */
  lemma FullyMatchedApprovalExample(x: int)
    ensures var matched := Confirmation(Computed(Matching.FullyMatched), None, None, true);
            AfterDecide(State(map[10 := matched], map[], []), Request(10, x, "", 7, 3, true)) ==
            State(map[10 := Confirmation(Approved, Some(7), Some(3), true)], map[], [])
  {
    assert Strip("", IsSpace) == "";
  }
}
