/**
 The decision workflow on a confirmation's exceptions.  One decision is one SQL statement whose
 data-modifying parts all see the state before it (section 7.8.4 of the PostgreSQL documentation).
 */
module Decisions {
  import opened Common
  import Matching

  // ---------- data ----------

  datatype ExcStatus = Open | Accepted | Resolved | Rejected | WaitingForSupplier

  datatype ConfStatus = MatchingInProgress | Computed(status: Matching.Status) | Suspended | Approved

  datatype Action =
    | Accept | Resolve | Reject | RequestCorrectedAb | RequestPriceClarification
    | RequestDeliveryClarification | RequestAlternativeArticle | RequestQuantityClarification

  /** `matched` says whether the matching has written its counts into the row. */
  datatype Confirmation = Confirmation(status: ConfStatus, approvedBy: Option<int>, approvedAt: Option<int>,
                                       matched: bool)

  datatype Exception = Exception(confirmation: int, status: ExcStatus, resolvedBy: Option<int>, resolvedAt: Option<int>,
                                 action: Option<Action>)

  /** A row of the audit log. */
  datatype Decision = Decision(confirmation: int, exception: int, actor: int, action: Action,
                               previous: ExcStatus, next: ExcStatus)

  datatype State = State(
    confirmations: map<int, Confirmation>,
    exceptions: map<int, Exception>,
    log: seq<Decision>
  )

  /** `visible` says whether the acting user may see the named confirmation. */
  datatype Request = Request(confirmation: int, exception: int, action: string, actor: int, now: int, visible: bool)

  datatype Error = InvalidAction | NotFound

  // ---------- one decision ----------

  function ParseAction(raw: string): Option<Action> {
    var s := Strip(raw, IsSpace);
    if s == "" || s == "accept" then Some(Accept)
    else if s == "resolve" then Some(Resolve)
    else if s == "reject" then Some(Reject)
    else if s == "request_corrected_ab" then Some(RequestCorrectedAb)
    else if s == "request_price_clarification" then Some(RequestPriceClarification)
    else if s == "request_delivery_clarification" then Some(RequestDeliveryClarification)
    else if s == "request_alternative_article" then Some(RequestAlternativeArticle)
    else if s == "request_quantity_clarification" then Some(RequestQuantityClarification)
    else None
  }

  function NewStatus(action: Action): (r: ExcStatus)
    ensures r != Open
  {
    match action
    case Accept => Accepted
    case Resolve => Resolved
    case Reject => Rejected
    case _ => WaitingForSupplier
  }

  /** The exceptions of a confirmation that are still open. */
  function OpenOf(s: State, confirmation: int): set<int> {
    set x | x in s.exceptions && s.exceptions[x].confirmation == confirmation && s.exceptions[x].status == Open
  }

  predicate VisibleConfirmation(s: State, r: Request) {
    r.visible && r.confirmation in s.confirmations
  }

  predicate Belongs(s: State, r: Request) {
    r.exception in s.exceptions && s.exceptions[r.exception].confirmation == r.confirmation
  }

  /**
   Number of other open exceptions as the statement counts them.  When the named exception is not
   one of the confirmation, the comparison with it yields NULL for every row and the count is 0.
   */
  function OthersOpen(s: State, r: Request): nat {
    if Belongs(s, r) then |OpenOf(s, r.confirmation) - {r.exception}| else 0
  }

  function DecidedException(e: Exception, r: Request, action: Action): Exception {
    e.(status := NewStatus(action), resolvedBy := Some(r.actor), resolvedAt := Some(r.now), action := Some(action))
  }

  function DecidedConfirmation(s: State, c: Confirmation, r: Request, action: Action): Confirmation {
    var last := OthersOpen(s, r) == 0;
    c.(status := if NewStatus(action) == WaitingForSupplier then Suspended else if last then Approved else c.status,
       approvedBy := if last then Some(r.actor) else c.approvedBy,
       approvedAt := if last then Some(r.now) else c.approvedAt)
  }

  function AfterAction(s: State, r: Request, action: Action): State {
    if !VisibleConfirmation(s, r) then s
    else
      var c := DecidedConfirmation(s, s.confirmations[r.confirmation], r, action);
      var confirmations := s.confirmations[r.confirmation := c];
      if !Belongs(s, r) then s.(confirmations := confirmations)
      else
        var e := s.exceptions[r.exception];
        State(confirmations, s.exceptions[r.exception := DecidedException(e, r, action)],
              s.log + [Decision(r.confirmation, r.exception, r.actor, action, e.status, NewStatus(action))])
  }

  function AfterDecide(s: State, r: Request): State {
    match ParseAction(r.action)
    case None => s
    case Some(action) => AfterAction(s, r, action)
  }

  /** The three tables. */
  class Tables {
    var confirmations: map<int, Confirmation>
    var exceptions: map<int, Exception>
    var log: seq<Decision>

    function Contents(): State
      reads this
    {
      State(confirmations, exceptions, log)
    }

    constructor ()
      ensures Contents() == State(map[], map[], [])
    {
      confirmations, exceptions, log := map[], map[], [];
    }

    /** `decide_supplier_confirmation_exception`; the error is raised after the statement ran. */
    method Decide(r: Request) returns (outcome: Result<nat, Error>)
      modifies this
      ensures Contents() == AfterDecide(old(Contents()), r)
      ensures outcome.Failure? && outcome.error == InvalidAction <==> ParseAction(r.action).None?
      ensures outcome.Success? <==> ParseAction(r.action).Some? && |log| == |old(log)| + 1
    {
      var parsed := ParseAction(r.action);
      if parsed.None? {
        return Failure(InvalidAction);
      }
      var action := parsed.value;
      var visibleConfirmation := r.visible && r.confirmation in confirmations;
      var visibleException :=
        visibleConfirmation && r.exception in exceptions && exceptions[r.exception].confirmation == r.confirmation;
      ghost var before := Contents();
      var openExceptions := if visibleException then |OpenOf(Contents(), r.confirmation) - {r.exception}| else 0;
      if visibleException {
        var e := exceptions[r.exception];
        exceptions := exceptions[r.exception := DecidedException(e, r, action)];
        log := log + [Decision(r.confirmation, r.exception, r.actor, action, e.status, NewStatus(action))];
      }
      if visibleConfirmation {
        var c := confirmations[r.confirmation];
        if NewStatus(action) == WaitingForSupplier {
          c := c.(status := Suspended);
        } else if openExceptions == 0 {
          c := c.(status := Approved);
        }
        if openExceptions == 0 {
          c := c.(approvedBy := Some(r.actor), approvedAt := Some(r.now));
        }
        assert c == DecidedConfirmation(before, before.confirmations[r.confirmation], r, action);
        confirmations := confirmations[r.confirmation := c];
      }
      if !visibleException {
        return Failure(NotFound);
      }
      return Success(|log|);
    }
  }

  // ---------- what a decision records ----------

  /** The texts a request may carry, the action each names and the status it gives. */
  ghost predicate Means(text: string, action: Action, status: ExcStatus) {
    || ((text == "" || text == "accept") && action == Accept && status == Accepted)
    || (text == "resolve" && action == Resolve && status == Resolved)
    || (text == "reject" && action == Reject && status == Rejected)
    || (text == "request_corrected_ab" && action == RequestCorrectedAb && status == WaitingForSupplier)
    || (text == "request_price_clarification" && action == RequestPriceClarification && status == WaitingForSupplier)
    || (text == "request_delivery_clarification" && action == RequestDeliveryClarification &&
        status == WaitingForSupplier)
    || (text == "request_alternative_article" && action == RequestAlternativeArticle && status == WaitingForSupplier)
    || (text == "request_quantity_clarification" && action == RequestQuantityClarification &&
        status == WaitingForSupplier)
  }

  lemma ParsedMeans(raw: string, action: Action, status: ExcStatus)
    ensures Means(Strip(raw, IsSpace), action, status) <==>
            ParseAction(raw) == Some(action) && NewStatus(action) == status
  {
  }

  lemma UnparsedMeans(raw: string)
    ensures ParseAction(raw).None? <==> forall action, status :: !Means(Strip(raw, IsSpace), action, status)
  {
    if ParseAction(raw).Some? {
      var action := ParseAction(raw).value;
      ParsedMeans(raw, action, NewStatus(action));
    } else {
      forall action, status ensures !Means(Strip(raw, IsSpace), action, status) {
        ParsedMeans(raw, action, status);
      }
    }
  }

  /**
   A visible decision on an exception of its confirmation records the status its text stands for,
   the user, the time and the action, in the exception and in one new log row; every other
   exception and log row stays.
   */
  lemma DecisionRecords(s: State, r: Request, action: Action, status: ExcStatus)
    requires Means(Strip(r.action, IsSpace), action, status) && VisibleConfirmation(s, r) && Belongs(s, r)
    ensures var s', x := AfterDecide(s, r), r.exception;
            && s'.exceptions ==
               s.exceptions[x := Exception(r.confirmation, status, Some(r.actor), Some(r.now), Some(action))]
            && s'.log ==
               s.log + [Decision(r.confirmation, x, r.actor, action, s.exceptions[x].status, status)]
  {
    ParsedMeans(r.action, action, status);
  }

  /** Any other text, and any decision on a confirmation the user cannot see, changes nothing. */
  lemma OtherwiseNothing(s: State, r: Request)
    requires (forall action, status :: !Means(Strip(r.action, IsSpace), action, status)) || !VisibleConfirmation(s, r)
    ensures AfterDecide(s, r) == s
  {
    UnparsedMeans(r.action);
  }

  /** A visible decision that names no exception of its confirmation records nothing. */
  lemma StrayRecordsNothing(s: State, r: Request)
    requires !Belongs(s, r)
    ensures AfterDecide(s, r).exceptions == s.exceptions && AfterDecide(s, r).log == s.log
  {
  }

  // ---------- approval ----------

  /** An approved confirmation has no open exception. */
  ghost predicate ApprovalSafe(s: State) {
    forall k :: k in s.confirmations &&
                (s.confirmations[k].status == Approved || s.confirmations[k].approvedAt.Some?) ==>
      OpenOf(s, k) == {}
  }

  lemma OpenAfterDecide(s: State, r: Request, k: int)
    ensures OpenOf(AfterDecide(s, r), k) <= OpenOf(s, k)
    ensures ParseAction(r.action).Some? && VisibleConfirmation(s, r) && Belongs(s, r) ==>
              OpenOf(AfterDecide(s, r), k) == OpenOf(s, k) - {r.exception}
    ensures ParseAction(r.action).None? || !VisibleConfirmation(s, r) || !Belongs(s, r) ==>
              OpenOf(AfterDecide(s, r), k) == OpenOf(s, k)
  {
  }

  /**
   A decision keeps approval safe exactly when it sees no confirmation, or names an exception of
   it, or nothing is open.  Otherwise it approves a confirmation whose exceptions are still open.
   */
  lemma DecideKeepsApprovalSafe(s: State, r: Request)
    requires ApprovalSafe(s)
    ensures ApprovalSafe(AfterDecide(s, r)) <==>
            || ParseAction(r.action).None? || !VisibleConfirmation(s, r) || Belongs(s, r)
            || OpenOf(s, r.confirmation) == {}
  {
    var s' := AfterDecide(s, r);
    forall k | k in s.confirmations ensures OpenOf(s', k) <= OpenOf(s, k) {
      OpenAfterDecide(s, r, k);
    }
    OpenAfterDecide(s, r, r.confirmation);
    if ParseAction(r.action).Some? && VisibleConfirmation(s, r) && !Belongs(s, r) {
      assert s'.confirmations[r.confirmation].approvedAt.Some?;
    }
  }

  /** A decision on exception 2 of another confirmation approves confirmation 1 with 1 still open. */
  lemma ForeignExceptionApproves()
    ensures var open := (k: int) => Exception(k, Open, None, None, None);
            var pending := Confirmation(Computed(Matching.ExceptionsOpen), None, None, true);
            var s := State(map[10 := pending, 20 := pending], map[1 := open(10), 2 := open(20)], []);
            var s' := AfterDecide(s, Request(10, 2, "accept", 7, 0, true));
            && ApprovalSafe(s) && s'.confirmations[10].status == Approved && OpenOf(s', 10) == {1} && s'.log == []
  {
    var open := (k: int) => Exception(k, Open, None, None, None);
    var pending := Confirmation(Computed(Matching.ExceptionsOpen), None, None, true);
    var s := State(map[10 := pending, 20 := pending], map[1 := open(10), 2 := open(20)], []);
    assert Strip("accept", IsSpace) == "accept";
    var s' := AfterDecide(s, Request(10, 2, "accept", 7, 0, true));
    assert OpenOf(s', 10) == {1};
  }

  ghost predicate HasExceptions(s: State, k: int) {
    exists x :: x in s.exceptions && s.exceptions[x].confirmation == k
  }

  lemma SameExceptionsOf(s: State, r: Request, k: int)
    ensures HasExceptions(AfterDecide(s, r), k) <==> HasExceptions(s, k)
  {
    var s' := AfterDecide(s, r);
    assert forall x :: x in s.exceptions <==> x in s'.exceptions;
    assert forall x :: x in s.exceptions ==> s'.exceptions[x].confirmation == s.exceptions[x].confirmation;
  }

  // ---------- approved and settled ----------

  predicate Good(status: ExcStatus) {
    status == Accepted || status == Resolved
  }

  /** Every exception of the confirmation other than `except` was accepted or resolved. */
  ghost predicate SettledBut(s: State, k: int, except: Option<int>) {
    forall x :: x in s.exceptions && s.exceptions[x].confirmation == k && except != Some(x) ==>
      Good(s.exceptions[x].status)
  }

  ghost predicate Settled(s: State, k: int) {
    SettledBut(s, k, None)
  }

  ghost predicate ApprovedIsSettled(s: State) {
    forall k :: k in s.confirmations && s.confirmations[k].status == Approved ==> Settled(s, k)
  }

  /**
   "Approved" means only that nothing is open: with two exceptions open, a question to the
   supplier about one and the rejection of the other approve the confirmation.
   */
  lemma ApprovedWhileWaiting(s: State, k: int, x: int, y: int, actor: int, now: int)
    requires k in s.confirmations && x != y && OpenOf(s, k) == {x, y}
    ensures var asked := AfterDecide(s, Request(k, x, "request_corrected_ab", actor, now, true));
            var s' := AfterDecide(asked, Request(k, y, "reject", actor, now, true));
            && k in s'.confirmations && s'.confirmations[k].status == Approved
            && x in s'.exceptions && s'.exceptions[x].status == WaitingForSupplier
            && y in s'.exceptions && s'.exceptions[y].status == Rejected
  {
    var ask := Request(k, x, "request_corrected_ab", actor, now, true);
    var reject := Request(k, y, "reject", actor, now, true);
    assert Strip("request_corrected_ab", IsSpace) == "request_corrected_ab";
    assert Strip("reject", IsSpace) == "reject";
    assert ParseAction(ask.action) == Some(RequestCorrectedAb) && ParseAction(reject.action) == Some(Reject);
    assert x in OpenOf(s, k) && y in OpenOf(s, k);
    OpenAfterDecide(s, ask, k);
    assert OpenOf(AfterDecide(s, ask), k) - {y} == {};
  }

  /** A decision that approves: valid, visible, no question, and no other exception counted as open. */
  predicate Approves(s: State, r: Request) {
    && ParseAction(r.action).Some? && VisibleConfirmation(s, r)
    && NewStatus(ParseAction(r.action).value) != WaitingForSupplier && OthersOpen(s, r) == 0
  }

  /**
   A decision keeps "approved means settled" if and only if it does not approve, or all other
   exceptions are settled and its own outcome, if it names one, is acceptance or resolution.
   */
  lemma DecideKeepsSettled(s: State, r: Request)
    requires ApprovedIsSettled(s)
    ensures ApprovedIsSettled(AfterDecide(s, r)) <==>
            || !Approves(s, r)
            || (if Belongs(s, r)
                then SettledBut(s, r.confirmation, Some(r.exception)) && Good(NewStatus(ParseAction(r.action).value))
                else Settled(s, r.confirmation))
  {
    if ParseAction(r.action).Some? && VisibleConfirmation(s, r) {
      forall k | k in s.confirmations && k != r.confirmation
        ensures Settled(AfterDecide(s, r), k) <==> Settled(s, k)
      {
        OtherSettled(s, r, k);
      }
      OwnSettled(s, r);
      if Settled(s, r.confirmation) {
        SettledIsClosed(s, r.confirmation);
      }
    }
  }

  lemma OtherSettled(s: State, r: Request, k: int)
    requires k != r.confirmation
    ensures Settled(AfterDecide(s, r), k) <==> Settled(s, k)
  {
    var s' := AfterDecide(s, r);
    assert forall x :: x in s.exceptions && s.exceptions[x].confirmation == k ==> s'.exceptions[x] == s.exceptions[x];
    assert forall x :: x in s'.exceptions && s'.exceptions[x].confirmation == k ==> s.exceptions[x].confirmation == k;
  }

  lemma OwnSettled(s: State, r: Request)
    requires ParseAction(r.action).Some? && VisibleConfirmation(s, r)
    ensures Settled(AfterDecide(s, r), r.confirmation) <==>
            if Belongs(s, r)
            then SettledBut(s, r.confirmation, Some(r.exception)) && Good(NewStatus(ParseAction(r.action).value))
            else Settled(s, r.confirmation)
  {
    var s' := AfterDecide(s, r);
    assert forall x :: x in s.exceptions <==> x in s'.exceptions;
    assert forall x :: x in s.exceptions && x != r.exception ==> s'.exceptions[x] == s.exceptions[x];
    if Belongs(s, r) {
      assert s'.exceptions[r.exception].status == NewStatus(ParseAction(r.action).value);
    }
  }

  lemma SettledIsClosed(s: State, k: int)
    requires Settled(s, k)
    ensures OpenOf(s, k) == {}
  {
    forall x | x in s.exceptions && s.exceptions[x].confirmation == k ensures s.exceptions[x].status != Open {
      assert Good(s.exceptions[x].status);
    }
  }
}
