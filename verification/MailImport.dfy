/**
 The IMAP importer: one pass over a mailbox as a resumable cursor.  Rows are appended to a
 table with the partial unique index on (account, external id); the account row holds the
 UIDVALIDITY and the watermark.
 */
module MailImport {
  import opened Common
  import opened Decimals

  // ---------- data ----------

  datatype Mail = Mail(messageId: string, content: string)  // "" when there is no Message-ID header

  /**
   A folder under one UIDVALIDITY.  UIDs are assigned in ascending order and never reused
   (section 2.3.1.1 of RFC 3501); `uidNext` is the smallest UID a new message can get.
   */
  datatype Mailbox = Mailbox(uidvalidity: nat, mails: map<nat, Mail>, uidNext: nat)

  ghost predicate ValidMailbox(box: Mailbox) {
    box.uidNext >= 1 && forall u :: u in box.mails ==> 1 <= u < box.uidNext
  }

  datatype Account = Account(id: nat, uidvalidity: Option<nat>, lastUid: nat, failing: bool)

  datatype Row = Row(account: nat, externalId: string, uid: nat, mail: Mail)

  // ---------- external ids ----------

  /** `re.sub(r"\s+", " ", text).strip()`: the words of the text, one blank between them. */
  function CollapseWhitespace(s: string): string
    decreases |s|
  {
    var t := SkipSpace(s);
    var n := WordLength(t);
    var rest := SkipSpace(t[n..]);
    if rest == [] then t[..n] else t[..n] + " " + CollapseWhitespace(rest)
  }

  function SkipSpace(s: string): (r: string)
    ensures |r| <= |s| && (r == [] || !IsSpace(r[0])) && (s != [] && IsSpace(s[0]) ==> |r| < |s|)
  {
    if s != [] && IsSpace(s[0]) then SkipSpace(s[1..]) else s
  }

  function WordLength(s: string): (n: nat)
    ensures n <= |s| && (s != [] && !IsSpace(s[0]) ==> n > 0)
  {
    if s == [] || IsSpace(s[0]) then 0 else 1 + WordLength(s[1..])
  }

  function SyntheticId(account: nat, uidvalidity: nat, uid: nat): string {
    "<imap-" + (Render(account) + ("-" + (Render(uidvalidity) + ("-" + (Render(uid) + "@es-daskuechenhaus.de>")))))
  }

  function ExternalId(mail: Mail, account: nat, uidvalidity: nat, uid: nat): string {
    var candidate := CollapseWhitespace(mail.messageId);
    if mail.messageId != "" && candidate != "" then candidate else SyntheticId(account, uidvalidity, uid)
  }

  // ---------- searching ----------

  predicate Increasing(s: seq<nat>) {
    forall i, j :: 0 <= i < j < |s| ==> s[i] < s[j]
  }

  /** `sorted(set)`. */
  function Sorted(s: set<nat>): seq<nat> {
    if s == {} then [] else Sorted(s - {Maximum(s)}) + [Maximum(s)]
  }

  lemma {:induction false} SortedFacts(s: set<nat>)
    ensures Increasing(Sorted(s)) && forall x :: x in Sorted(s) <==> x in s
  {
    if s != {} {
      var m := Maximum(s);
      var init := Sorted(s - {m});
      SortedFacts(s - {m});
      IncreasingAppend(init, m);
      assert forall x :: x in s <==> x in s - {m} || x == m;
    }
  }

  lemma IncreasingAppend(init: seq<nat>, last: nat)
    requires Increasing(init) && forall x :: x in init ==> x < last
    ensures Increasing(init + [last]) && forall x :: x in init + [last] <==> x in init || x == last
  {
    var s := init + [last];
    assert forall i :: 0 <= i < |init| ==> s[i] == init[i] && init[i] in init;
  }

  function Maximum(s: set<nat>): (m: nat)
    requires s != {}
    ensures m in s && forall x :: x in s ==> x <= m
  {
    MaximumExists(s);
    var m :| m in s && forall x :: x in s ==> x <= m;
    m
  }

  lemma {:induction false} MaximumExists(s: set<nat>)
    requires s != {}
    ensures exists m :: m in s && forall x :: x in s ==> x <= m
  {
    var x :| x in s;
    var rest := s - {x};
    if rest == {} {
      assert forall y :: y in s ==> y == x || y in rest;
    } else {
      MaximumExists(rest);
      var m :| m in rest && forall y :: y in rest ==> y <= m;
      MaximumOfBoth(s, x, m);
    }
  }

  lemma MaximumOfBoth(s: set<nat>, x: nat, m: nat)
    requires x in s && m in s && forall y :: y in s - {x} ==> y <= m
    ensures exists top :: top in s && forall y :: y in s ==> y <= top
  {
    var top := if m < x then x else m;
    forall y | y in s ensures y <= top {
      assert y == x || y in s - {x};
    }
  }

  function FilterFrom(s: seq<nat>, start: nat): seq<nat> {
    if s == [] then []
    else
      var init, last := FilterFrom(s[..|s| - 1], start), s[|s| - 1];
      if last >= start then init + [last] else init
  }

  lemma {:induction false} FilterFromFacts(s: seq<nat>, start: nat)
    requires Increasing(s)
    ensures Increasing(FilterFrom(s, start)) && forall x :: x in FilterFrom(s, start) <==> x in s && x >= start
  {
    if s != [] {
      var init, last := s[..|s| - 1], s[|s| - 1];
      FilterFromFacts(init, start);
      assert s == init + [last];
      IncreasingAppend(FilterFrom(init, start), last);
    }
  }

  /** The UIDs an answer to `UID start:*` leaves after sorting and dropping those below `start`. */
  function SearchNewUids(answer: seq<nat>, start: nat): seq<nat> {
    FilterFrom(Sorted(set u | u in answer), start)
  }

  /**
   What a server may answer to `UID start:*`: every UID from `start` on, in any order and with
   repetitions, and possibly the highest UID below `start` (section 6.4.8 of RFC 3501).
   */
  ghost predicate SearchAnswer(box: Mailbox, start: nat, answer: seq<nat>) {
    && (forall u :: u in box.mails && u >= start ==> u in answer)
    && (forall u :: u in answer ==> u in box.mails)
    && (forall u, v :: u in answer && u < start && v in box.mails ==> v <= u)
  }

  /** The UIDs of the mailbox from `start` on, ascending. */
  function UidsFrom(box: Mailbox, start: nat): seq<nat> {
    Sorted(set u | u in box.mails && u >= start)
  }

  lemma UidsFromFacts(box: Mailbox, start: nat)
    ensures Increasing(UidsFrom(box, start))
    ensures forall x :: x in UidsFrom(box, start) <==> x in box.mails && x >= start
  {
    SortedFacts(set u | u in box.mails && u >= start);
  }

  /** An ascending sequence is determined by its members. */
  lemma {:induction false} IncreasingUnique(a: seq<nat>, b: seq<nat>)
    requires Increasing(a) && Increasing(b) && forall x :: x in a <==> x in b
    ensures a == b
  {
    assert a == [] <==> b == [] by {
      assert a != [] ==> a[0] in b;
      assert b != [] ==> b[0] in a;
    }
    if a != [] {
      var a', b', x, y := a[..|a| - 1], b[..|b| - 1], a[|a| - 1], b[|b| - 1];
      assert y in a && x in b;
      assert x == y;
      forall z ensures z in a' <==> z in b' {
        assert z in a' <==> z in a && z != x;
        assert z in b' <==> z in b && z != y;
      }
      IncreasingUnique(a', b');
      assert a == a' + [x] && b == b' + [y];
    }
  }

  /** Whatever the server answers, the search result is the same. */
  lemma SearchIsExact(box: Mailbox, start: nat, answer: seq<nat>)
    requires SearchAnswer(box, start, answer)
    ensures SearchNewUids(answer, start) == UidsFrom(box, start)
  {
    SortedFacts(set u | u in answer);
    FilterFromFacts(Sorted(set u | u in answer), start);
    UidsFromFacts(box, start);
    IncreasingUnique(SearchNewUids(answer, start), UidsFrom(box, start));
  }

  // ---------- storing ----------

  predicate HasKey(rows: seq<Row>, account: nat, externalId: string) {
    exists i :: 0 <= i < |rows| && rows[i].account == account && rows[i].externalId == externalId
  }

  /** INSERT ... ON CONFLICT (account, external id) DO NOTHING. */
  function Insert(rows: seq<Row>, row: Row): seq<Row> {
    if HasKey(rows, row.account, row.externalId) then rows else rows + [row]
  }

  /** One connection: the folder it sees and the UIDs whose fetch returns nothing. */
  datatype Session = Session(account: nat, box: Mailbox, failed: set<nat>)

  predicate Fetchable(s: Session, uid: nat) {
    uid in s.box.mails && uid !in s.failed
  }

  function ExternalIdOf(s: Session, uid: nat): string
    requires uid in s.box.mails
  {
    ExternalId(s.box.mails[uid], s.account, s.box.uidvalidity, uid)
  }

  function ImportOne(s: Session, rows: seq<Row>, uid: nat): seq<Row> {
    if Fetchable(s, uid)
    then Insert(rows, Row(s.account, ExternalIdOf(s, uid), uid, s.box.mails[uid]))
    else rows
  }

  function ImportAll(s: Session, rows: seq<Row>, uids: seq<nat>): seq<Row> {
    if uids == [] then rows
    else ImportOne(s, ImportAll(s, rows, uids[..|uids| - 1]), uids[|uids| - 1])
  }

  // ---------- one run ----------

  /** Options of one run; `crash` is the number of UIDs handled before an exception, if any. */
  datatype Run = Run(limit: int, dryRun: bool, failed: set<nat>, crash: Option<nat>)

  function StartUid(account: Account, box: Mailbox): nat {
    if account.uidvalidity.Some? && account.uidvalidity.value != box.uidvalidity then 1 else account.lastUid + 1
  }

  function Pending(account: Account, box: Mailbox): seq<nat> {
    UidsFrom(box, StartUid(account, box))
  }

  function Batch(account: Account, box: Mailbox, limit: int): seq<nat> {
    if limit > 0 then Take(Pending(account, box), limit) else Pending(account, box)
  }

  function HighestUid(last: nat, uids: seq<nat>): nat {
    if uids == [] then last else Max(HighestUid(last, uids[..|uids| - 1]), uids[|uids| - 1])
  }

  /** Database state of one account and the message table. */
  datatype Store = Store(account: Account, rows: seq<Row>)

  function SessionOf(account: Account, box: Mailbox, failed: set<nat>): Session {
    Session(account.id, box, failed)
  }

  function AfterRun(store: Store, box: Mailbox, run: Run): Store {
    var account := store.account;
    var uids := Batch(account, box, run.limit);
    var session := SessionOf(account, box, run.failed);
    if run.dryRun then store
    else if run.crash.Some? && run.crash.value <= |uids| then
      Store(account.(failing := true), ImportAll(session, store.rows, uids[..run.crash.value]))
    else
      Store(account.(uidvalidity := Some(box.uidvalidity), lastUid := HighestUid(account.lastUid, uids),
                     failing := false),
            ImportAll(session, store.rows, uids))
  }

  method SelectUids(account: Account, box: Mailbox, answer: seq<nat>, limit: int) returns (uids: seq<nat>)
    requires SearchAnswer(box, StartUid(account, box), answer)
    ensures uids == Batch(account, box, limit)
  {
    var startUid := account.lastUid + 1;
    if account.uidvalidity.Some? && account.uidvalidity.value != box.uidvalidity {
      startUid := 1;
    }
    uids := SearchNewUids(answer, startUid);
    assert uids == Pending(account, box) by {
      SearchIsExact(box, startUid, answer);
    }
    if limit > 0 {
      uids := Take(uids, limit);
    }
  }

  /** The tables the importer writes. */
  class Database {
    var accounts: map<nat, Account>
    var rows: seq<Row>

    constructor (accounts: map<nat, Account>)
      requires forall id :: id in accounts ==> accounts[id].id == id
      ensures this.accounts == accounts && rows == []
    {
      this.accounts := accounts;
      rows := [];
    }

    method InsertMessage(row: Row) returns (inserted: bool)
      modifies this`rows
      ensures rows == Insert(old(rows), row)
      ensures inserted <==> rows != old(rows)
    {
      inserted := true;
      var i := 0;
      while i < |rows|
        invariant i <= |rows|
        invariant forall j :: 0 <= j < i ==>
                    !(rows[j].account == row.account && rows[j].externalId == row.externalId)
      {
        if rows[i].account == row.account && rows[i].externalId == row.externalId {
          assert HasKey(rows, row.account, row.externalId);
          inserted := false;
          return;
        }
        i := i + 1;
      }
      rows := rows + [row];
    }

    /**
     `import_account` together with the failure handling of its caller: `Failure` stands for the
     exception, `answer` for the server's reply to the UID search.
     */
    method ImportAccount(account: Account, box: Mailbox, answer: seq<nat>, run: Run)
      returns (outcome: Result<nat, nat>)
      requires account.id in accounts && accounts[account.id] == account
      requires SearchAnswer(box, StartUid(account, box), answer)
      modifies this
      ensures var after := AfterRun(Store(account, old(rows)), box, run);
              accounts == old(accounts)[account.id := after.account] && rows == after.rows
      ensures outcome.Success? <==> !(run.crash.Some? && run.crash.value <= |Batch(account, box, run.limit)|)
      ensures outcome.Success? ==> outcome.value == |rows| - |old(rows)|
    {
      var uids := SelectUids(account, box, answer, run.limit);
      var highestUid, imported, crashed := ImportUids(account, box, uids, run);
      if crashed {
        if !run.dryRun {
          accounts := accounts[account.id := account.(failing := true)];
        }
        return Failure(imported);
      }
      if !run.dryRun {
        accounts := accounts[account.id := account.(uidvalidity := Some(box.uidvalidity), lastUid := highestUid,
                                                    failing := false)];
      }
      return Success(imported);
    }

    /** The loop over the selected UIDs, left early when the run crashes. */
    method ImportUids(account: Account, box: Mailbox, uids: seq<nat>, run: Run)
      returns (highestUid: nat, imported: nat, crashed: bool)
      modifies this`rows
      ensures crashed <==> run.crash.Some? && run.crash.value <= |uids|
      ensures !crashed ==> highestUid == HighestUid(account.lastUid, uids)
      ensures var handled := if crashed then uids[..run.crash.value] else uids;
              rows == if run.dryRun then old(rows)
                      else ImportAll(SessionOf(account, box, run.failed), old(rows), handled)
      ensures |rows| == |old(rows)| + imported
    {
      imported, highestUid := 0, account.lastUid;
      ghost var session := SessionOf(account, box, run.failed);
      var i := 0;
      while i < |uids| && run.crash != Some(i)
        invariant i <= |uids|
        invariant run.crash.Some? && run.crash.value <= |uids| ==> i <= run.crash.value
        invariant highestUid == HighestUid(account.lastUid, uids[..i])
        invariant rows == if run.dryRun then old(rows) else ImportAll(session, old(rows), uids[..i])
        invariant |rows| == |old(rows)| + imported
      {
        var uid := uids[i];
        assert uids[..i + 1][..i] == uids[..i];
        highestUid := Max(highestUid, uid);
        i := i + 1;
        if uid !in box.mails || uid in run.failed {
          continue;
        }
        var externalId := ExternalId(box.mails[uid], account.id, box.uidvalidity, uid);
        if run.dryRun {
          continue;
        }
        var inserted := InsertMessage(Row(account.id, externalId, uid, box.mails[uid]));
        if inserted {
          imported := imported + 1;
        }
      }
      crashed := run.crash == Some(i);
      assert uids[..|uids|] == uids;
    }
  }
}
