/**
 Assignment of e-mails to customer cases: manual assignment, decisions on suggestions, archiving
 and deletion.  Each operation is one SQL statement whose parts see the state before it.
 */
module EmailAssignment {
  import opened Common

  // ---------- data ----------

  /** Who did something, and when. */
  datatype Stamp = Stamp(user: int, time: int)

  datatype Email = Email(deletion: Option<Stamp>, archival: Option<Stamp>, unassigned: bool, assignedTo: Option<int>) {
    predicate Deleted() {
      deletion.Some?
    }
  }

  datatype SuggestionStatus = Pending | Accepted | Rejected

  datatype Suggestion = Suggestion(email: int, case_: Option<int>, status: SuggestionStatus, decision: Option<Stamp>)

  datatype Link = Link(email: int, case_: int)

  datatype State = State(emails: map<int, Email>, links: set<Link>, suggestions: map<int, Suggestion>)

  datatype Lifecycle = Archive | Delete

  datatype Error = EmailNotFound | CaseNotFound | SuggestionNotFound

  // ---------- operations ----------

  /** A deleted e-mail is visible to nobody; `permitted` stands for the ownership rules. */
  predicate VisibleEmail(s: State, email: int, permitted: bool) {
    permitted && email in s.emails && !s.emails[email].Deleted()
  }

  function Assigned(e: Email, stamp: Stamp): Email {
    e.(unassigned := false, assignedTo := Some(stamp.user))
  }

  /** Pending suggestions of the e-mail are decided: accepted when they name the chosen case. */
  function DecideByAssignment(s: State, email: int, target: Option<int>, stamp: Stamp): map<int, Suggestion> {
    map x | x in s.suggestions ::
      var g := s.suggestions[x];
      if g.email == email && g.status == Pending then
        g.(status := if target.Some? && g.case_ == target then Accepted else Rejected, decision := Some(stamp))
      else g
  }

  /** `assign_email`; `target` is the chosen case if the user may use it. */
  function AfterAssign(s: State, email: int, target: Option<int>, stamp: Stamp, permitted: bool): State {
    if !VisibleEmail(s, email, permitted) then s
    else State(
      s.emails[email := Assigned(s.emails[email], stamp)],
      if target.Some? then s.links + {Link(email, target.value)} else s.links,
      DecideByAssignment(s, email, target, stamp))
  }

  predicate VisibleSuggestion(s: State, x: int, permitted: bool) {
    && permitted && x in s.suggestions && s.suggestions[x].status == Pending
    && s.suggestions[x].email in s.emails && !s.emails[s.suggestions[x].email].Deleted()
  }

  function DecideBySuggestion(s: State, x: int, accept: bool, stamp: Stamp): map<int, Suggestion>
    requires x in s.suggestions
  {
    map y | y in s.suggestions ::
      var g := s.suggestions[y];
      if y == x then g.(status := if accept then Accepted else Rejected, decision := Some(stamp))
      else if accept && g.email == s.suggestions[x].email && g.status == Pending then
        g.(status := Rejected, decision := Some(stamp))
      else g
  }

  /** `decide_email_suggestion`. */
  function AfterDecide(s: State, x: int, accept: bool, stamp: Stamp, permitted: bool): State {
    if !VisibleSuggestion(s, x, permitted) then s
    else
      var g := s.suggestions[x];
      State(
        if accept then s.emails[g.email := Assigned(s.emails[g.email], stamp)] else s.emails,
        if accept && g.case_.Some? then s.links + {Link(g.email, g.case_.value)} else s.links,
        DecideBySuggestion(s, x, accept, stamp))
  }

  /** `set_email_lifecycle`. */
  function AfterLifecycle(s: State, email: int, action: Lifecycle, stamp: Stamp, permitted: bool): State {
    if !VisibleEmail(s, email, permitted) then s
    else
      var e := s.emails[email];
      var e' := if action == Archive then e.(archival := Some(stamp)) else e.(deletion := Some(stamp));
      s.(emails := s.emails[email := e'])
  }

  /** The tables and the three operations on them. */
  class Mailroom {
    var emails: map<int, Email>
    var links: set<Link>
    var suggestions: map<int, Suggestion>

    function Contents(): State
      reads this
    {
      State(emails, links, suggestions)
    }

    constructor ()
      ensures Contents() == State(map[], {}, map[])
    {
      emails, links, suggestions := map[], {}, map[];
    }

    /** The errors are raised after the statement ran, so a missing case does not undo it. */
    method Assign(email: int, target: Option<int>, stamp: Stamp, permitted: bool) returns (outcome: Result<int, Error>)
      modifies this
      ensures Contents() == AfterAssign(old(Contents()), email, target, stamp, permitted)
      ensures outcome.Success? <==> VisibleEmail(old(Contents()), email, permitted) && target.Some?
    {
      if !(permitted && email in emails && !emails[email].Deleted()) {
        return Failure(EmailNotFound);
      }
      suggestions := DecideByAssignment(Contents(), email, target, stamp);
      if target.Some? {
        links := links + {Link(email, target.value)};
      }
      emails := emails[email := emails[email].(unassigned := false, assignedTo := Some(stamp.user))];
      if target.None? {
        return Failure(CaseNotFound);
      }
      return Success(email);
    }

    method Decide(x: int, accept: bool, stamp: Stamp, permitted: bool) returns (outcome: Result<int, Error>)
      modifies this
      ensures Contents() == AfterDecide(old(Contents()), x, accept, stamp, permitted)
      ensures outcome.Success? <==> VisibleSuggestion(old(Contents()), x, permitted)
    {
      if !VisibleSuggestion(Contents(), x, permitted) {
        return Failure(SuggestionNotFound);
      }
      var g := suggestions[x];
      suggestions := DecideBySuggestion(Contents(), x, accept, stamp);
      if accept {
        if g.case_.Some? {
          links := links + {Link(g.email, g.case_.value)};
        }
        emails := emails[g.email := emails[g.email].(unassigned := false, assignedTo := Some(stamp.user))];
      }
      return Success(x);
    }

    method SetLifecycle(email: int, action: Lifecycle, stamp: Stamp, permitted: bool)
      returns (outcome: Result<int, Error>)
      modifies this`emails
      ensures Contents() == AfterLifecycle(old(Contents()), email, action, stamp, permitted)
      ensures outcome.Success? <==> VisibleEmail(old(Contents()), email, permitted)
    {
      if !(permitted && email in emails && !emails[email].Deleted()) {
        return Failure(EmailNotFound);
      }
      if action == Archive {
        emails := emails[email := emails[email].(archival := Some(stamp))];
      } else {
        emails := emails[email := emails[email].(deletion := Some(stamp))];
      }
      return Success(email);
    }
  }

  // ---------- what the operations record ----------

  /** An assignment of a visible e-mail, part by part. */
  lemma AssignMeans(s: State, email: int, target: Option<int>, stamp: Stamp, permitted: bool)
    requires VisibleEmail(s, email, permitted)
    ensures var s' := AfterAssign(s, email, target, stamp, permitted);
            && s'.emails == s.emails[email := s.emails[email].(unassigned := false, assignedTo := Some(stamp.user))]
            && (forall l :: l in s'.links <==> l in s.links || (target.Some? && l == Link(email, target.value)))
            && s'.suggestions.Keys == s.suggestions.Keys
            && (forall x :: x in s.suggestions ==>
                  var g, g' := s.suggestions[x], s'.suggestions[x];
                  if g.email != email || g.status != Pending then g' == g
                  else
                    g' == Suggestion(email, g.case_, if target.Some? && g.case_ == target then Accepted else Rejected,
                                     Some(stamp)))
  {
  }

  /** A decision on a visible suggestion, part by part. */
  lemma SuggestionMeans(s: State, x: int, accept: bool, stamp: Stamp, permitted: bool)
    requires VisibleSuggestion(s, x, permitted)
    ensures var s', g := AfterDecide(s, x, accept, stamp, permitted), s.suggestions[x];
            && s'.suggestions.Keys == s.suggestions.Keys
            && s'.suggestions[x] == Suggestion(g.email, g.case_, if accept then Accepted else Rejected, Some(stamp))
            && (forall y :: y in s.suggestions && y != x ==>
                  var h := s.suggestions[y];
                  s'.suggestions[y] ==
                  if accept && h.email == g.email && h.status == Pending
                  then Suggestion(h.email, h.case_, Rejected, Some(stamp)) else h)
            && (!accept ==> s'.emails == s.emails && s'.links == s.links)
            && (accept ==>
                  && s'.emails ==
                     s.emails[g.email := s.emails[g.email].(unassigned := false, assignedTo := Some(stamp.user))]
                  && (forall l :: l in s'.links <==>
                        l in s.links || (g.case_.Some? && l == Link(g.email, g.case_.value))))
  {
  }

  /** Archiving stamps the archival, deleting the deletion, and nothing else changes. */
  lemma LifecycleMeans(s: State, email: int, stamp: Stamp, permitted: bool)
    requires VisibleEmail(s, email, permitted)
    ensures AfterLifecycle(s, email, Archive, stamp, permitted) ==
            s.(emails := s.emails[email := s.emails[email].(archival := Some(stamp))])
    ensures AfterLifecycle(s, email, Delete, stamp, permitted) ==
            s.(emails := s.emails[email := s.emails[email].(deletion := Some(stamp))])
  {
  }

  /** What is not visible is not touched. */
  lemma InvisibleStays(s: State, email: int, x: int, target: Option<int>, accept: bool, action: Lifecycle, stamp: Stamp)
    ensures AfterAssign(s, email, target, stamp, false) == s && AfterDecide(s, x, accept, stamp, false) == s
    ensures AfterLifecycle(s, email, action, stamp, false) == s
    ensures email in s.emails && s.emails[email].Deleted() ==>
              AfterAssign(s, email, target, stamp, true) == s && AfterLifecycle(s, email, action, stamp, true) == s
    ensures x in s.suggestions && s.suggestions[x].status != Pending ==> AfterDecide(s, x, accept, stamp, true) == s
  {
  }

  // ---------- runs ----------

  /** New e-mails come from the importer, new suggestions from outside; both use fresh ids. */
  datatype Event =
    | Receive(email: int)
    | Suggest(suggestion: int, email: int, case_: Option<int>)
    | Assign(email: int, target: Option<int>, stamp: Stamp, permitted: bool)
    | Decide(suggestion: int, accept: bool, stamp: Stamp, permitted: bool)
    | SetLifecycle(email: int, action: Lifecycle, stamp: Stamp, permitted: bool)

  predicate Enabled(s: State, e: Event) {
    match e
    case Receive(email) => email !in s.emails
    case Suggest(x, email, _) => x !in s.suggestions && email in s.emails
    case _ => true
  }

  function Step(s: State, e: Event): State {
    match e
    case Receive(email) => s.(emails := s.emails[email := Email(None, None, true, None)])
    case Suggest(x, email, k) => s.(suggestions := s.suggestions[x := Suggestion(email, k, Pending, None)])
    case Assign(email, target, stamp, permitted) => AfterAssign(s, email, target, stamp, permitted)
    case Decide(x, accept, stamp, permitted) => AfterDecide(s, x, accept, stamp, permitted)
    case SetLifecycle(email, action, stamp, permitted) => AfterLifecycle(s, email, action, stamp, permitted)
  }

  function Exec(s: State, es: seq<Event>): State {
    if es == [] then s else Step(Exec(s, es[..|es| - 1]), es[|es| - 1])
  }

  ghost predicate EnabledRun(s: State, es: seq<Event>) {
    forall i :: 0 <= i < |es| ==> Enabled(Exec(s, es[..i]), es[i])
  }

  lemma RunPrefix(s: State, es: seq<Event>)
    requires es != [] && EnabledRun(s, es)
    ensures EnabledRun(s, es[..|es| - 1]) && Enabled(Exec(s, es[..|es| - 1]), es[|es| - 1])
  {
    var init := es[..|es| - 1];
    forall i | 0 <= i < |init| ensures init[..i] == es[..i] && init[i] == es[i] {
    }
  }

  // ---------- what a run keeps ----------

  /** Every accepted suggestion that names a case has its case link. */
  ghost predicate AcceptedIsLinked(s: State) {
    forall x :: x in s.suggestions && s.suggestions[x].status == Accepted && s.suggestions[x].case_.Some? ==>
      Link(s.suggestions[x].email, s.suggestions[x].case_.value) in s.links
  }

  /** Links stay, e-mails stay, and a decided suggestion never changes again. */
  ghost predicate Grows(s: State, s': State) {
    && s.links <= s'.links
    && s.emails.Keys <= s'.emails.Keys
    && (forall x :: x in s.suggestions ==> x in s'.suggestions && s'.suggestions[x].email == s.suggestions[x].email &&
                                           s'.suggestions[x].case_ == s.suggestions[x].case_)
    && (forall x :: x in s.suggestions && s.suggestions[x].status != Pending ==> s'.suggestions[x] == s.suggestions[x])
  }

  lemma StepGrows(s: State, e: Event)
    requires Enabled(s, e)
    ensures Grows(s, Step(s, e))
  {
  }

  lemma StepKeepsLinked(s: State, e: Event)
    requires Enabled(s, e) && AcceptedIsLinked(s)
    ensures AcceptedIsLinked(Step(s, e))
  {
  }

  lemma {:induction false} RunGrows(s: State, es: seq<Event>)
    requires EnabledRun(s, es)
    ensures Grows(s, Exec(s, es))
  {
    if es != [] {
      RunPrefix(s, es);
      RunGrows(s, es[..|es| - 1]);
      StepGrows(Exec(s, es[..|es| - 1]), es[|es| - 1]);
    }
  }

  /** In every run from empty tables, acceptance of a suggestion with a case means a link exists. */
  lemma {:induction false} RunKeepsLinked(es: seq<Event>)
    requires EnabledRun(State(map[], {}, map[]), es)
    ensures AcceptedIsLinked(Exec(State(map[], {}, map[]), es))
  {
    var s0 := State(map[], {}, map[]);
    if es != [] {
      RunPrefix(s0, es);
      RunKeepsLinked(es[..|es| - 1]);
      StepKeepsLinked(Exec(s0, es[..|es| - 1]), es[|es| - 1]);
    }
  }

  ghost predicate NothingPending(s: State, email: int) {
    forall x :: x in s.suggestions && s.suggestions[x].email == email ==> s.suggestions[x].status != Pending
  }

  /** Assigning a visible e-mail or accepting one of its suggestions leaves nothing pending for it. */
  lemma DecisionClearsPending(s: State, e: Event)
    requires (e.Assign? && VisibleEmail(s, e.email, e.permitted)) ||
             (e.Decide? && e.accept && VisibleSuggestion(s, e.suggestion, e.permitted))
    ensures NothingPending(Step(s, e), if e.Assign? then e.email else s.suggestions[e.suggestion].email)
  {
  }

  // ---------- deleted e-mails ----------

  /** Everything about one e-mail that a user can change. */
  ghost predicate SameFor(s: State, s': State, email: int) {
    && email in s.emails && email in s'.emails && s'.emails[email] == s.emails[email]
    && (forall k :: Link(email, k) in s'.links <==> Link(email, k) in s.links)
    && (forall x :: x in s.suggestions && s.suggestions[x].email == email ==>
          x in s'.suggestions && s'.suggestions[x] == s.suggestions[x])
    && (forall x :: x in s'.suggestions && s'.suggestions[x].email == email && x !in s.suggestions ==>
          s'.suggestions[x].status == Pending)
  }

  lemma StepLeavesDeleted(s: State, e: Event, email: int)
    requires Enabled(s, e) && email in s.emails && s.emails[email].Deleted()
    ensures SameFor(s, Step(s, e), email)
  {
  }

  /**
   Once an e-mail is deleted, no run changes its row, its links or its suggestions, and suggestions
   that are made for it later are never decided.
   */
  lemma {:induction false} DeletedIsFrozen(s: State, es: seq<Event>, email: int)
    requires EnabledRun(s, es) && email in s.emails && s.emails[email].Deleted()
    ensures SameFor(s, Exec(s, es), email)
  {
    if es != [] {
      RunPrefix(s, es);
      DeletedIsFrozen(s, es[..|es| - 1], email);
      StepLeavesDeleted(Exec(s, es[..|es| - 1]), es[|es| - 1], email);
    }
  }

  // ---------- assigned without a link ----------

  ghost predicate HasLink(s: State, email: int) {
    exists k :: Link(email, k) in s.links
  }

  ghost predicate AssignedIsLinked(s: State) {
    forall email :: email in s.emails && !s.emails[email].unassigned ==> HasLink(s, email)
  }

  /** The case a step links an assigned e-mail to, if the step assigns one. */
  function Assignee(s: State, e: Event): Option<(int, Option<int>)> {
    match e
    case Assign(email, target, _, permitted) =>
      if VisibleEmail(s, email, permitted) then Some((email, target)) else None
    case Decide(x, accept, _, permitted) =>
      if accept && VisibleSuggestion(s, x, permitted)
      then Some((s.suggestions[x].email, s.suggestions[x].case_))
      else None
    case _ => None
  }

  lemma HasLinkGrows(s: State, s': State, email: int)
    requires s.links <= s'.links && HasLink(s, email)
    ensures HasLink(s', email)
  {
    var k :| Link(email, k) in s.links;
    assert Link(email, k) in s'.links;
  }

  /**
   "Assigned" does not always mean "linked to a case".  A step keeps that reading exactly when it
   assigns nothing, or has a case to link, or the e-mail was linked before: assigning to a case
   that is gone and accepting a suggestion without a case break it.
   */
  lemma StepKeepsAssignedLinked(s: State, e: Event)
    requires AssignedIsLinked(s) && Enabled(s, e)
    ensures AssignedIsLinked(Step(s, e)) <==>
            || Assignee(s, e).None?
            || Assignee(s, e).value.1.Some?
            || HasLink(s, Assignee(s, e).value.0)
  {
    var s' := Step(s, e);
    StepGrows(s, e);
    forall email | email in s.emails && HasLink(s, email) ensures HasLink(s', email) {
      HasLinkGrows(s, s', email);
    }
    if Assignee(s, e).Some? {
      var email, target := Assignee(s, e).value.0, Assignee(s, e).value.1;
      assert !s'.emails[email].unassigned;
      if target.Some? {
        assert Link(email, target.value) in s'.links;
      } else {
        assert s'.links == s.links;
      }
    }
  }

  /** Some step of the run assigns the e-mail; with `linking`, it also has a case to link. */
  ghost predicate AssignedInRun(s: State, es: seq<Event>, email: int, linking: bool) {
    es != [] &&
    var init := es[..|es| - 1];
    AssignedInRun(s, init, email, linking) || Assigns(Exec(s, init), es[|es| - 1], email, linking)
  }

  ghost predicate Assigns(s: State, e: Event, email: int, linking: bool) {
    var a := Assignee(s, e);
    a.Some? && a.value.0 == email && (linking ==> a.value.1.Some?)
  }

  lemma StepAssigns(s: State, e: Event, email: int)
    requires Enabled(s, e)
    ensures HasLink(Step(s, e), email) <==> HasLink(s, email) || Assigns(s, e, email, true)
    ensures IsAssigned(Step(s, e), email) <==> IsAssigned(s, email) || Assigns(s, e, email, false)
  {
    StepGrows(s, e);
    if HasLink(s, email) {
      HasLinkGrows(s, Step(s, e), email);
    }
    if Assigns(s, e, email, true) {
      assert Link(email, Assignee(s, e).value.1.value) in Step(s, e).links;
    }
  }

  ghost predicate IsAssigned(s: State, email: int) {
    email in s.emails && !s.emails[email].unassigned
  }

  lemma {:induction false} RunAssigns(es: seq<Event>, email: int)
    requires EnabledRun(State(map[], {}, map[]), es)
    ensures var s0 := State(map[], {}, map[]);
            && (HasLink(Exec(s0, es), email) <==> AssignedInRun(s0, es, email, true))
            && (IsAssigned(Exec(s0, es), email) <==> AssignedInRun(s0, es, email, false))
  {
    var s0 := State(map[], {}, map[]);
    if es != [] {
      RunPrefix(s0, es);
      RunAssigns(es[..|es| - 1], email);
      StepAssigns(Exec(s0, es[..|es| - 1]), es[|es| - 1], email);
    }
  }

  /**
   After every run, "assigned" means "linked" if and only if every e-mail that some step assigned was
   assigned with a case by some step.
   */
  lemma {:induction false} RunsLinkExactly(es: seq<Event>)
    requires EnabledRun(State(map[], {}, map[]), es)
    ensures var s0 := State(map[], {}, map[]);
            AssignedIsLinked(Exec(s0, es)) <==>
            forall email :: AssignedInRun(s0, es, email, false) ==> AssignedInRun(s0, es, email, true)
  {
    var s0 := State(map[], {}, map[]);
    var s := Exec(s0, es);
    if AssignedIsLinked(s) {
      forall email | AssignedInRun(s0, es, email, false) ensures AssignedInRun(s0, es, email, true) {
        RunAssigns(es, email);
      }
    } else {
      var email :| email in s.emails && !s.emails[email].unassigned && !HasLink(s, email);
      RunAssigns(es, email);
      assert AssignedInRun(s0, es, email, false) && !AssignedInRun(s0, es, email, true);
    }
  }

  /** Accepting a suggestion without a case assigns the e-mail and links it to nothing. */
  lemma AssignedWithoutLinkExample()
    ensures var s := State(map[1 := Email(None, None, true, None)], {}, map[5 := Suggestion(1, None, Pending, None)]);
            AssignedIsLinked(s) && !AssignedIsLinked(AfterDecide(s, 5, true, Stamp(9, 0), true))
  {
    var s := State(map[1 := Email(None, None, true, None)], {}, map[5 := Suggestion(1, None, Pending, None)]);
    var s' := AfterDecide(s, 5, true, Stamp(9, 0), true);
    assert !s'.emails[1].unassigned && !HasLink(s', 1);
  }
}
