/** Runs that crash on a mailbox at rest, and the retry after them. */
module MailImportCrashes {
  import opened Common
  import opened MailImport
  import opened MailImportRuns
  import opened MailImportBatches

  // ---------- crashed runs ----------

  /** The UIDs a run handles before it crashes or ends. */
  function Handled(account: Account, box: Mailbox, run: Run): seq<nat> {
    var batch := Batch(account, box, run.limit);
    if run.crash.Some? && run.crash.value <= |batch| then batch[..run.crash.value] else batch
  }

  ghost predicate AllCrash(store: Store, box: Mailbox, runs: seq<Run>) {
    forall i :: 0 <= i < |runs| ==>
      !runs[i].dryRun && runs[i].crash.Some? && runs[i].crash.value <= |Batch(store.account, box, runs[i].limit)|
  }

  /** The session of a run, which differs from others only in its failing fetches. */
  function Of(store: Store, box: Mailbox, run: Run): Session {
    SessionOf(store.account, box, run.failed)
  }

  lemma FailingIsIgnored(account: Account, failing: bool, box: Mailbox, run: Run)
    ensures Batch(account.(failing := failing), box, run.limit) == Batch(account, box, run.limit)
    ensures SessionOf(account.(failing := failing), box, run.failed) == SessionOf(account, box, run.failed)
  {
    assert StartUid(account.(failing := failing), box) == StartUid(account, box);
  }

  /** A crashed run leaves the cursor alone and stores what it handled. */
  lemma CrashedRun(store: Store, failing: bool, rows: seq<Row>, box: Mailbox, run: Run)
    requires AllCrash(store, box, [run])
    ensures AfterRun(Store(store.account.(failing := failing), rows), box, run) ==
            Store(store.account.(failing := true),
                  ImportAll(Of(store, box, run), rows, Handled(store.account, box, run)))
  {
    assert [run][0] == run;
    FailingIsIgnored(store.account, failing, box, run);
  }

  lemma {:induction false} CrashedRuns(store: Store, box: Mailbox, runs: seq<Run>)
    requires AllCrash(store, box, runs)
    ensures Repeat(store, box, runs).account == store.account.(failing := runs != [] || store.account.failing)
    ensures runs != [] ==>
              var init, last := runs[..|runs| - 1], runs[|runs| - 1];
              Repeat(store, box, runs).rows ==
              ImportAll(Of(store, box, last), Repeat(store, box, init).rows, Handled(store.account, box, last))
  {
    if runs != [] {
      var init, last := runs[..|runs| - 1], runs[|runs| - 1];
      CrashedRuns(store, box, init);
      assert [last][0] == last;
      CrashedRun(store, init != [] || store.account.failing, Repeat(store, box, init).rows, box, last);
    }
  }

  /** The completed run after crashed ones works on the same batch. */
  lemma RetryAfterCrashes(store: Store, box: Mailbox, runs: seq<Run>, retry: Run)
    requires AllCrash(store, box, runs) && Plain(retry)
    ensures var mid := Repeat(store, box, runs);
            var batch := Batch(store.account, box, retry.limit);
            AfterRun(mid, box, retry) ==
            Store(AfterRun(store, box, retry).account, ImportAll(Of(store, box, retry), mid.rows, batch))
  {
    CrashedRuns(store, box, runs);
    FailingIsIgnored(store.account, runs != [] || store.account.failing, box, retry);
  }

  // ---------- which rows there are ----------

  /** The run would store this message if its external id were new: it is fetched and not shadowed. */
  ghost predicate Takes(store: Store, box: Mailbox, run: Run, u: nat) {
    var s, uids := Of(store, box, run), Handled(store.account, box, run);
    u in uids && Fetchable(s, u) && !Shadowed(s, uids, u)
  }

  ghost predicate TakesKey(store: Store, box: Mailbox, run: Run, externalId: string) {
    FetchesKey(Of(store, box, run), Handled(store.account, box, run), externalId)
  }

  ghost predicate SomeTakesKey(store: Store, box: Mailbox, runs: seq<Run>, id: string) {
    runs != [] &&
    (SomeTakesKey(store, box, runs[..|runs| - 1], id) || TakesKey(store, box, runs[|runs| - 1], id))
  }

  /** External id and row of a message do not depend on the run. */
  function IdOf(store: Store, box: Mailbox, u: nat): string
    requires u in box.mails
  {
    ExternalId(box.mails[u], store.account.id, box.uidvalidity, u)
  }

  function MailRow(store: Store, box: Mailbox, u: nat): Row
    requires u in box.mails
  {
    Row(store.account.id, IdOf(store, box, u), u, box.mails[u])
  }

  /** After the earlier runs, this run is the first to take a message with this new external id. */
  ghost predicate FirstTaken(store: Store, box: Mailbox, earlier: seq<Run>, run: Run, u: nat) {
    && u in box.mails && Takes(store, box, run, u)
    && !HasKey(store.rows, store.account.id, IdOf(store, box, u))
    && !SomeTakesKey(store, box, earlier, IdOf(store, box, u))
  }

  /** Some run is the first to take the message of this row. */
  ghost predicate FirstRow(store: Store, box: Mailbox, runs: seq<Run>, row: Row) {
    runs != [] &&
    var init, last := runs[..|runs| - 1], runs[|runs| - 1];
    || FirstRow(store, box, init, row)
    || exists u :: u in box.mails && FirstTaken(store, box, init, last, u) && row == MailRow(store, box, u)
  }

  lemma HandledIncreases(account: Account, box: Mailbox, run: Run)
    ensures Increasing(Handled(account, box, run))
    ensures forall u :: u in Handled(account, box, run) ==> u in box.mails
  {
    UidsFromFacts(box, StartUid(account, box));
    BatchIsPending(account, box, run.limit);
  }

  /** What one run adds to a table. */
  lemma RowAfterImport(store: Store, box: Mailbox, run: Run, rows: seq<Row>, row: Row)
    ensures row in ImportAll(Of(store, box, run), rows, Handled(store.account, box, run)) <==>
            || row in rows
            || exists u :: u in box.mails && Takes(store, box, run, u) && row == MailRow(store, box, u) &&
                           !HasKey(rows, store.account.id, IdOf(store, box, u))
  {
    var s, uids := Of(store, box, run), Handled(store.account, box, run);
    var after := ImportAll(s, rows, uids);
    HandledIncreases(store.account, box, run);
    ImportAllFacts(s, rows, uids);
    assert forall i :: 0 <= i < |rows| ==> rows[i] == after[i];
    if row in after && row !in rows {
      var i :| 0 <= i < |after| && after[i] == row;
      NewRowsFaithful(s, rows, uids, i);
      OwnRowIsStored(s, rows, uids, row.uid);
      assert Takes(store, box, run, row.uid) && row == MailRow(store, box, row.uid);
    }
    forall u | u in box.mails && Takes(store, box, run, u) && !HasKey(rows, store.account.id, IdOf(store, box, u))
      ensures MailRow(store, box, u) in after
    {
      OwnRowIsStored(s, rows, uids, u);
    }
  }

  /** After crashed runs, exactly the external ids they took were added. */
  lemma {:induction false} KeyAfterCrashes(store: Store, box: Mailbox, runs: seq<Run>, id: string)
    requires AllCrash(store, box, runs)
    ensures HasKey(Repeat(store, box, runs).rows, store.account.id, id) <==>
            HasKey(store.rows, store.account.id, id) || SomeTakesKey(store, box, runs, id)
  {
    if runs != [] {
      var init, last := runs[..|runs| - 1], runs[|runs| - 1];
      KeyAfterCrashes(store, box, init, id);
      CrashedRuns(store, box, runs);
      KeyAfterImport(Of(store, box, last), Repeat(store, box, init).rows, Handled(store.account, box, last), id);
    }
  }

  /** After crashed runs, exactly the rows of first takers were added. */
  lemma {:induction false} RowAfterCrashes(store: Store, box: Mailbox, runs: seq<Run>, row: Row)
    requires AllCrash(store, box, runs)
    ensures row in Repeat(store, box, runs).rows <==> row in store.rows || FirstRow(store, box, runs, row)
  {
    if runs != [] {
      var init, last := runs[..|runs| - 1], runs[|runs| - 1];
      RowAfterCrashes(store, box, init, row);
      CrashedRuns(store, box, runs);
      RowAfterImport(store, box, last, Repeat(store, box, init).rows, row);
      forall u | u in box.mails && Takes(store, box, last, u)
        ensures FirstTaken(store, box, init, last, u) <==>
                !HasKey(Repeat(store, box, init).rows, store.account.id, IdOf(store, box, u))
      {
        KeyAfterCrashes(store, box, init, IdOf(store, box, u));
      }
    }
  }

  // ---------- the retry ----------

  ghost predicate SameRows(a: seq<Row>, b: seq<Row>) {
    forall row :: row in a <==> row in b
  }

  /** Every message that a crashed run is the first to take is one the retry takes as well. */
  ghost predicate RetryAgrees(store: Store, box: Mailbox, runs: seq<Run>, retry: Run) {
    forall j, u :: 0 <= j < |runs| && FirstTaken(store, box, runs[..j], runs[j], u) ==> Takes(store, box, retry, u)
  }

  /**
   The account row after the retry is always that of one clean run.  The table has the same rows as
   after one clean run if and only if every message that a crashed run was the first to take is in
   the retry's batch, fetched there, and not shadowed there by a smaller UID.
   */
  lemma CrashRetryExact(store: Store, box: Mailbox, runs: seq<Run>, retry: Run)
    requires AllCrash(store, box, runs) && Plain(retry)
    ensures var after, clean := AfterRun(Repeat(store, box, runs), box, retry), AfterRun(store, box, retry);
            && after.account == clean.account
            && (SameRows(after.rows, clean.rows) <==> RetryAgrees(store, box, runs, retry))
  {
    var after, clean := AfterRun(Repeat(store, box, runs), box, retry), AfterRun(store, box, retry);
    RetryAfterCrashes(store, box, runs, retry);
    if SameRows(after.rows, clean.rows) {
      forall j, u | 0 <= j < |runs| && FirstTaken(store, box, runs[..j], runs[j], u)
        ensures Takes(store, box, retry, u)
      {
        FirstTakenInClean(store, box, runs, retry, j, u);
      }
    }
    if RetryAgrees(store, box, runs, retry) {
      forall row ensures row in after.rows <==> row in clean.rows {
        if row in after.rows {
          AfterInClean(store, box, runs, retry, row);
        }
        if row in clean.rows {
          CleanInAfter(store, box, runs, retry, row);
        }
      }
    }
  }

  /** Whom some run is the first to take, and where. */
  lemma {:induction false} FirstRowIndex(store: Store, box: Mailbox, runs: seq<Run>, row: Row) returns (j: nat, u: nat)
    requires FirstRow(store, box, runs, row)
    ensures j < |runs| && u in box.mails && FirstTaken(store, box, runs[..j], runs[j], u)
    ensures row == MailRow(store, box, u)
  {
    var init, last := runs[..|runs| - 1], runs[|runs| - 1];
    if FirstRow(store, box, init, row) {
      j, u := FirstRowIndex(store, box, init, row);
      assert init[..j] == runs[..j];
    } else {
      j := |init|;
      u :| u in box.mails && FirstTaken(store, box, init, last, u) && row == MailRow(store, box, u);
    }
  }

  lemma {:induction false} IndexFirstRow(store: Store, box: Mailbox, runs: seq<Run>, j: nat, u: nat)
    requires j < |runs| && FirstTaken(store, box, runs[..j], runs[j], u)
    ensures FirstRow(store, box, runs, MailRow(store, box, u))
  {
    var init := runs[..|runs| - 1];
    if j < |init| {
      assert init[..j] == runs[..j];
      IndexFirstRow(store, box, init, j, u);
    }
  }

  lemma FirstTakenInClean(store: Store, box: Mailbox, runs: seq<Run>, retry: Run, j: nat, u: nat)
    requires AllCrash(store, box, runs) && Plain(retry) && j < |runs| && FirstTaken(store, box, runs[..j], runs[j], u)
    requires SameRows(AfterRun(Repeat(store, box, runs), box, retry).rows, AfterRun(store, box, retry).rows)
    ensures Takes(store, box, retry, u)
  {
    var mid, row := Repeat(store, box, runs), MailRow(store, box, u);
    RetryAfterCrashes(store, box, runs, retry);
    IndexFirstRow(store, box, runs, j, u);
    RowAfterCrashes(store, box, runs, row);
    RowAfterImport(store, box, retry, mid.rows, row);
    RowAfterImport(store, box, retry, store.rows, row);
    RowHasKey(store.rows, row);
  }

  lemma RowHasKey(rows: seq<Row>, row: Row)
    ensures row in rows ==> HasKey(rows, row.account, row.externalId)
  {
  }

  lemma AfterInClean(store: Store, box: Mailbox, runs: seq<Run>, retry: Run, row: Row)
    requires AllCrash(store, box, runs) && Plain(retry) && RetryAgrees(store, box, runs, retry)
    requires row in AfterRun(Repeat(store, box, runs), box, retry).rows
    ensures row in AfterRun(store, box, retry).rows
  {
    var mid := Repeat(store, box, runs);
    RetryAfterCrashes(store, box, runs, retry);
    RowAfterImport(store, box, retry, mid.rows, row);
    RowAfterImport(store, box, retry, store.rows, row);
    RowAfterCrashes(store, box, runs, row);
    if row !in mid.rows {
      var u :| u in box.mails && Takes(store, box, retry, u) && row == MailRow(store, box, u) &&
               !HasKey(mid.rows, store.account.id, IdOf(store, box, u));
      KeyAfterCrashes(store, box, runs, IdOf(store, box, u));
    } else if row !in store.rows {
      var j, u := FirstRowIndex(store, box, runs, row);
      assert Takes(store, box, retry, u);
    }
  }

  lemma CleanInAfter(store: Store, box: Mailbox, runs: seq<Run>, retry: Run, row: Row)
    requires AllCrash(store, box, runs) && Plain(retry) && RetryAgrees(store, box, runs, retry)
    requires row in AfterRun(store, box, retry).rows
    ensures row in AfterRun(Repeat(store, box, runs), box, retry).rows
  {
    var mid := Repeat(store, box, runs);
    RetryAfterCrashes(store, box, runs, retry);
    RowAfterImport(store, box, retry, mid.rows, row);
    RowAfterImport(store, box, retry, store.rows, row);
    RowAfterCrashes(store, box, runs, row);
    if row !in store.rows {
      var u :| u in box.mails && Takes(store, box, retry, u) && row == MailRow(store, box, u) &&
               !HasKey(store.rows, store.account.id, IdOf(store, box, u));
      if HasKey(mid.rows, store.account.id, IdOf(store, box, u)) {
        var i :| 0 <= i < |mid.rows| && mid.rows[i].account == store.account.id &&
                 mid.rows[i].externalId == IdOf(store, box, u);
        TakenIsUnique(store, box, runs, retry, u, mid.rows[i]);
      }
    }
  }

  /** Of the messages with one external id, the retry takes only one. */
  lemma TakenIsUnique(store: Store, box: Mailbox, runs: seq<Run>, retry: Run, u: nat, row: Row)
    requires AllCrash(store, box, runs) && RetryAgrees(store, box, runs, retry)
    requires u in box.mails && Takes(store, box, retry, u)
    requires !HasKey(store.rows, store.account.id, IdOf(store, box, u))
    requires row in Repeat(store, box, runs).rows
    requires row.account == store.account.id && row.externalId == IdOf(store, box, u)
    ensures row == MailRow(store, box, u)
  {
    RowAfterCrashes(store, box, runs, row);
    RowHasKey(store.rows, row);
    var j, v := FirstRowIndex(store, box, runs, row);
    assert Takes(store, box, retry, v);
    var s, uids := Of(store, box, retry), Handled(store.account, box, retry);
    SmallerShadows(s, uids, u, v);
    SmallerShadows(s, uids, v, u);
  }

  lemma SmallerShadows(s: Session, uids: seq<nat>, u: nat, v: nat)
    requires u in uids && Fetchable(s, u) && v in s.box.mails && ExternalIdOf(s, u) == ExternalIdOf(s, v)
    ensures u < v ==> Shadowed(s, uids, v)
  {
  }

  /**
   Speaking of external ids alone: the retry adds nothing but what crashed runs took, and the table
   has the ids of one clean run if and only if every new id a crashed run took is taken by the retry.
   */
  lemma CrashRetryKeys(store: Store, box: Mailbox, runs: seq<Run>, retry: Run, id: string)
    requires AllCrash(store, box, runs) && Plain(retry)
    ensures var after, clean := AfterRun(Repeat(store, box, runs), box, retry), AfterRun(store, box, retry);
            var a := store.account.id;
            && (HasKey(clean.rows, a, id) ==> HasKey(after.rows, a, id))
            && (HasKey(after.rows, a, id) && !HasKey(clean.rows, a, id) <==>
                  && !HasKey(store.rows, a, id) && !TakesKey(store, box, retry, id)
                  && SomeTakesKey(store, box, runs, id))
  {
    var s, batch := Of(store, box, retry), Handled(store.account, box, retry);
    RetryAfterCrashes(store, box, runs, retry);
    KeyAfterCrashes(store, box, runs, id);
    KeyAfterImport(s, Repeat(store, box, runs).rows, batch, id);
    KeyAfterImport(s, store.rows, batch, id);
  }

  // ---------- the same fetches fail ----------

  lemma {:induction false} RetryAbsorbs(s: Session, rows: seq<Row>, uids: seq<nat>, k: nat)
    requires k <= |uids|
    ensures ImportAll(s, ImportAll(s, rows, uids[..k]), uids) == ImportAll(s, rows, uids)
  {
    var mid := ImportAll(s, rows, uids[..k]);
    ImportAllFacts(s, rows, uids[..k]);
    ImportAllAbsorbs(s, mid, uids[..k]);
    assert uids == uids[..k] + uids[k..];
    ImportAllConcat(s, mid, uids[..k], uids[k..]);
    ImportAllConcat(s, rows, uids[..k], uids[k..]);
  }

  /** Importing two prefixes of a batch one after the other imports the longer one. */
  lemma {:induction false} PrefixesAbsorb(s: Session, rows: seq<Row>, uids: seq<nat>, j: nat, k: nat)
    requires j <= |uids| && k <= |uids|
    ensures ImportAll(s, ImportAll(s, rows, uids[..j]), uids[..k]) == ImportAll(s, rows, uids[..Max(j, k)])
  {
    if j <= k {
      assert uids[..k][..j] == uids[..j];
      RetryAbsorbs(s, rows, uids[..k], j);
    } else {
      ImportAllFacts(s, rows, uids[..j]);
      assert forall u :: u in uids[..k] ==> u in uids[..j];
      ImportAllAbsorbs(s, ImportAll(s, rows, uids[..j]), uids[..k]);
    }
  }

  /** Crashes of one run, wherever they happen, leave some prefix of its batch imported. */
  lemma {:induction false} CrashesKeepAPrefix(store: Store, box: Mailbox, runs: seq<Run>, retry: Run) returns (k: nat)
    requires AllCrash(store, box, runs) && forall i :: 0 <= i < |runs| ==> runs[i] == retry.(crash := runs[i].crash)
    ensures k <= |Batch(store.account, box, retry.limit)|
    ensures Repeat(store, box, runs).rows ==
            ImportAll(Of(store, box, retry), store.rows, Batch(store.account, box, retry.limit)[..k])
  {
    if runs == [] {
      k := 0;
    } else {
      var init, last := runs[..|runs| - 1], runs[|runs| - 1];
      var j := CrashesKeepAPrefix(store, box, init, retry);
      CrashedRuns(store, box, runs);
      k := Max(j, last.crash.value);
      PrefixesAbsorb(Of(store, box, retry), store.rows, Batch(store.account, box, retry.limit), j, last.crash.value);
    }
  }

  /**
   If the crashed runs had the limit and the failing fetches of the retry, then, however often and
   wherever they crashed, the retry gives exactly the store of one clean run, row order included.
   */
  lemma {:induction false} CrashRetryIsClean(store: Store, box: Mailbox, runs: seq<Run>, retry: Run)
    requires AllCrash(store, box, runs) && Plain(retry)
    requires forall i :: 0 <= i < |runs| ==> runs[i] == retry.(crash := runs[i].crash)
    ensures AfterRun(Repeat(store, box, runs), box, retry) == AfterRun(store, box, retry)
  {
    var k := CrashesKeepAPrefix(store, box, runs, retry);
    RetryAfterCrashes(store, box, runs, retry);
    RetryAbsorbs(Of(store, box, retry), store.rows, Batch(store.account, box, retry.limit), k);
  }

  // ---------- a retry that differs ----------

  const FIRST: Mail := Mail("x", "a")
  const SECOND: Mail := Mail("x", "b")
  const SAME_ID: Mailbox := Mailbox(1, map[1 := FIRST, 2 := SECOND], 3)

  lemma ImportTwo(s: Session, rows: seq<Row>)
    ensures ImportAll(s, rows, [1, 2]) == ImportOne(s, ImportOne(s, rows, 1), 2)
  {
    assert [1, 2][..1] == [1] && [1][..0] == [];
    assert ImportAll(s, rows, []) == rows;
  }

  lemma SameIds(s: Session)
    requires s.box == SAME_ID
    ensures ExternalIdOf(s, 1) == ExternalIdOf(s, 2) == "x"
  {
    OneWord("x");
  }

  lemma OnlySecond(s: Session)
    requires s == Session(7, SAME_ID, {1})
    ensures ImportAll(s, [], [1, 2]) == [Row(7, "x", 2, SECOND)]
  {
    SameIds(s);
    ImportTwo(s, []);
  }

  lemma FirstOfTwo(s: Session)
    requires s == Session(7, SAME_ID, {})
    ensures ImportAll(s, [], [1, 2]) == [Row(7, "x", 1, FIRST)]
  {
    SameIds(s);
    ImportTwo(s, []);
    var rows := [Row(7, "x", 1, FIRST)];
    assert ImportOne(s, [], 1) == rows;
    RowHasKey(rows, rows[0]);
  }

  lemma NeitherOfTwo(s: Session, rows: seq<Row>)
    requires s == Session(7, SAME_ID, {}) && HasKey(rows, 7, "x")
    ensures ImportAll(s, rows, [1, 2]) == rows
  {
    SameIds(s);
    ImportTwo(s, rows);
  }

  lemma BothPending()
    ensures Pending(Account(7, None, 0, false), SAME_ID) == [1, 2]
  {
    UidsFromFacts(SAME_ID, 1);
    IncreasingUnique(Pending(Account(7, None, 0, false), SAME_ID), [1, 2]);
  }

  /**
   Two messages share a Message-ID.  The crashed run could not fetch the first and stored the second;
   a clean run stores the first, and the retry does not repair that.
   */
  lemma CrashRetryCanDiffer()
    ensures var store := Store(Account(7, None, 0, false), []);
            var crashed, retry := Run(0, false, {1}, Some(2)), Run(0, false, {}, None);
            && AllCrash(store, SAME_ID, [crashed])
            && AfterRun(Repeat(store, SAME_ID, [crashed]), SAME_ID, retry).rows == [Row(7, "x", 2, SECOND)]
            && AfterRun(store, SAME_ID, retry).rows == [Row(7, "x", 1, FIRST)]
  {
    var store := Store(Account(7, None, 0, false), []);
    var crashed, retry := Run(0, false, {1}, Some(2)), Run(0, false, {}, None);
    BothPending();
    assert [1, 2][..2] == [1, 2];
    assert [crashed][..0] == [] && Repeat(store, SAME_ID, []) == store;
    CrashedRuns(store, SAME_ID, [crashed]);
    OnlySecond(Of(store, SAME_ID, crashed));
    RowHasKey([Row(7, "x", 2, SECOND)], Row(7, "x", 2, SECOND));
    RetryAfterCrashes(store, SAME_ID, [crashed], retry);
    NeitherOfTwo(Of(store, SAME_ID, retry), [Row(7, "x", 2, SECOND)]);
    FirstOfTwo(Of(store, SAME_ID, retry));
  }
}
