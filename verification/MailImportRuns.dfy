/** What every history of mailbox changes and import runs guarantees. */
module MailImportRuns {
  import opened Common
  import opened Decimals
  import opened MailImport

  // ---------- storing a batch ----------

  ghost predicate UniqueKeys(rows: seq<Row>) {
    forall i, j :: 0 <= i < j < |rows| ==>
      !(rows[i].account == rows[j].account && rows[i].externalId == rows[j].externalId)
  }

  lemma HasKeyPrefix(rows: seq<Row>, more: seq<Row>, account: nat, externalId: string)
    requires rows <= more && HasKey(rows, account, externalId)
    ensures HasKey(more, account, externalId)
  {
    var i :| 0 <= i < |rows| && rows[i].account == account && rows[i].externalId == externalId;
    assert more[i] == rows[i];
  }

  lemma InsertFacts(rows: seq<Row>, row: Row)
    ensures rows <= Insert(rows, row)
    ensures HasKey(Insert(rows, row), row.account, row.externalId)
    ensures UniqueKeys(rows) ==> UniqueKeys(Insert(rows, row))
  {
    var after := Insert(rows, row);
    if after != rows {
      assert after[|rows|] == row;
    }
  }

  /** A batch only appends, keeps the key unique and stores every message it can fetch. */
  lemma {:induction false} ImportAllFacts(s: Session, rows: seq<Row>, uids: seq<nat>)
    ensures rows <= ImportAll(s, rows, uids)
    ensures UniqueKeys(rows) ==> UniqueKeys(ImportAll(s, rows, uids))
    ensures forall u :: u in uids && Fetchable(s, u) ==>
              HasKey(ImportAll(s, rows, uids), s.account, ExternalIdOf(s, u))
  {
    if uids != [] {
      var init, last := uids[..|uids| - 1], uids[|uids| - 1];
      ImportAllFacts(s, rows, init);
      var mid, after := ImportAll(s, rows, init), ImportAll(s, rows, uids);
      if Fetchable(s, last) {
        InsertFacts(mid, Row(s.account, ExternalIdOf(s, last), last, s.box.mails[last]));
      }
      forall u | u in uids && Fetchable(s, u) ensures HasKey(after, s.account, ExternalIdOf(s, u)) {
        if u in init {
          HasKeyPrefix(mid, after, s.account, ExternalIdOf(s, u));
        }
      }
    }
  }

  /** Every appended row holds the mail of its own UID, under that mail's external id. */
  lemma {:induction false} NewRowsFaithful(s: Session, rows: seq<Row>, uids: seq<nat>, i: nat)
    requires |rows| <= i < |ImportAll(s, rows, uids)|
    ensures var row := ImportAll(s, rows, uids)[i];
            && row.uid in uids && Fetchable(s, row.uid)
            && row == Row(s.account, ExternalIdOf(s, row.uid), row.uid, s.box.mails[row.uid])
  {
    if uids != [] {
      var init := uids[..|uids| - 1];
      if i < |ImportAll(s, rows, init)| {
        NewRowsFaithful(s, rows, init, i);
      }
    }
  }

  function RowOf(s: Session, uid: nat): Row
    requires uid in s.box.mails
  {
    Row(s.account, ExternalIdOf(s, uid), uid, s.box.mails[uid])
  }

  /** Some fetched message with a smaller UID has the same external id. */
  ghost predicate Shadowed(s: Session, uids: seq<nat>, u: nat)
    requires u in s.box.mails
  {
    exists v :: v in uids && v < u && Fetchable(s, v) && ExternalIdOf(s, v) == ExternalIdOf(s, u)
  }

  /** An appended key is that of a fetched message. */
  lemma NewKey(s: Session, rows: seq<Row>, uids: seq<nat>, externalId: string) returns (v: nat)
    requires HasKey(ImportAll(s, rows, uids), s.account, externalId) && !HasKey(rows, s.account, externalId)
    ensures v in uids && Fetchable(s, v) && ExternalIdOf(s, v) == externalId
  {
    var after := ImportAll(s, rows, uids);
    ImportAllFacts(s, rows, uids);
    assert forall j :: 0 <= j < |rows| ==> rows[j] == after[j];
    var i :| 0 <= i < |after| && after[i].account == s.account && after[i].externalId == externalId;
    NewRowsFaithful(s, rows, uids, i);
    v := after[i].uid;
  }

  /** Some message of the batch is fetched and has the external id. */
  ghost predicate FetchesKey(s: Session, uids: seq<nat>, externalId: string) {
    exists v :: v in uids && Fetchable(s, v) && ExternalIdOf(s, v) == externalId
  }

  /** A batch adds exactly the external ids of what it fetches. */
  lemma KeyAfterImport(s: Session, rows: seq<Row>, uids: seq<nat>, externalId: string)
    ensures HasKey(ImportAll(s, rows, uids), s.account, externalId) <==>
            HasKey(rows, s.account, externalId) || FetchesKey(s, uids, externalId)
  {
    var after := ImportAll(s, rows, uids);
    ImportAllFacts(s, rows, uids);
    if HasKey(rows, s.account, externalId) {
      HasKeyPrefix(rows, after, s.account, externalId);
    } else if HasKey(after, s.account, externalId) {
      var v := NewKey(s, rows, uids, externalId);
      assert v in uids && Fetchable(s, v) && ExternalIdOf(s, v) == externalId;
    }
  }

  /**
   "Stored" speaks about the external id.  The row with the message's own UID and content is in the
   table after a run exactly when it was there before, or when no earlier row has its external id
   and no message with a smaller UID in the batch has it.
   */
  lemma {:induction false} OwnRowIsStored(s: Session, rows: seq<Row>, uids: seq<nat>, u: nat)
    requires Increasing(uids) && u in uids && Fetchable(s, u)
    ensures RowOf(s, u) in ImportAll(s, rows, uids) <==>
            RowOf(s, u) in rows || (!HasKey(rows, s.account, ExternalIdOf(s, u)) && !Shadowed(s, uids, u))
  {
    var init, last := uids[..|uids| - 1], uids[|uids| - 1];
    var mid, key := ImportAll(s, rows, init), ExternalIdOf(s, u);
    ImportAllFacts(s, rows, init);
    assert Shadowed(s, uids, u) <==> Shadowed(s, init, u) by {
      assert forall v :: v in init ==> v in uids;
      assert forall v :: v in uids && v < u ==> v in init;
    }
    if u == last {
      if RowOf(s, u) in mid {
        OnlyBatchIsNew(s, rows, init, u);
      }
      if Shadowed(s, init, u) {
        var v :| v in init && v < u && Fetchable(s, v) && ExternalIdOf(s, v) == key;
        assert HasKey(mid, s.account, key);
      }
      if HasKey(mid, s.account, key) && !HasKey(rows, s.account, key) {
        var v := NewKey(s, rows, init, key);
        assert v in init && v < last;
      }
      if HasKey(rows, s.account, key) {
        HasKeyPrefix(rows, mid, s.account, key);
      }
    } else {
      OwnRowIsStored(s, rows, init, u);
    }
  }

  lemma OnlyBatchIsNew(s: Session, rows: seq<Row>, uids: seq<nat>, u: nat)
    requires u !in uids && u in s.box.mails && RowOf(s, u) in ImportAll(s, rows, uids)
    ensures RowOf(s, u) in rows
  {
    var after := ImportAll(s, rows, uids);
    ImportAllFacts(s, rows, uids);
    var i :| 0 <= i < |after| && after[i] == RowOf(s, u);
    if i >= |rows| {
      NewRowsFaithful(s, rows, uids, i);
    } else {
      assert rows[i] == after[i];
    }
  }

  lemma {:induction false} ImportAllConcat(s: Session, rows: seq<Row>, a: seq<nat>, b: seq<nat>)
    ensures ImportAll(s, rows, a + b) == ImportAll(s, ImportAll(s, rows, a), b)
  {
    if b == [] {
      assert a + b == a;
    } else {
      var init := b[..|b| - 1];
      ImportAllConcat(s, rows, a, init);
      assert (a + b)[..|a + b| - 1] == a + init;
    }
  }

  /** Importing again what is already stored changes nothing. */
  lemma {:induction false} ImportAllAbsorbs(s: Session, rows: seq<Row>, uids: seq<nat>)
    requires forall u :: u in uids && Fetchable(s, u) ==> HasKey(rows, s.account, ExternalIdOf(s, u))
    ensures ImportAll(s, rows, uids) == rows
  {
    if uids != [] {
      ImportAllAbsorbs(s, rows, uids[..|uids| - 1]);
    }
  }

  lemma {:induction false} HighestUidFacts(last: nat, uids: seq<nat>)
    ensures HighestUid(last, uids) >= last && forall u :: u in uids ==> u <= HighestUid(last, uids)
    ensures HighestUid(last, uids) == last || HighestUid(last, uids) in uids
  {
    if uids != [] {
      var init := uids[..|uids| - 1];
      HighestUidFacts(last, init);
      assert forall u :: u in uids ==> u in init || u == uids[|uids| - 1];
    }
  }

  lemma {:induction false} HighestUidConcat(last: nat, a: seq<nat>, b: seq<nat>)
    ensures HighestUid(last, a + b) == HighestUid(HighestUid(last, a), b)
  {
    if b == [] {
      assert a + b == a;
    } else {
      var init := b[..|b| - 1];
      HighestUidConcat(last, a, init);
      assert (a + b)[..|a + b| - 1] == a + init;
    }
  }

  /** A batch is closed downwards: it skips no pending UID below one of its own. */
  lemma BatchIsClosed(account: Account, box: Mailbox, limit: int, u: nat, v: nat)
    requires u in box.mails && StartUid(account, box) <= u <= v
    requires v in Batch(account, box, limit)
    ensures u in Batch(account, box, limit)
  {
    var pending, batch := Pending(account, box), Batch(account, box, limit);
    UidsFromFacts(box, StartUid(account, box));
    var i :| 0 <= i < |pending| && pending[i] == u;
    var j :| 0 <= j < |batch| && batch[j] == v;
    assert pending[j] == v;
    assert i <= j;
    assert batch[i] == u;
  }

  lemma BatchIsPending(account: Account, box: Mailbox, limit: int)
    ensures forall u :: u in Batch(account, box, limit) ==> u in box.mails && u >= StartUid(account, box)
  {
    UidsFromFacts(box, StartUid(account, box));
    assert forall u :: u in Batch(account, box, limit) ==> u in Pending(account, box);
  }

  // ---------- whole histories within one UIDVALIDITY ----------

  /** `skipped` collects, by UIDVALIDITY and UID, what completed runs logged as not fetchable. */
  datatype World = World(box: Mailbox, store: Store, skipped: set<(nat, nat)>)

  /** `Renumber` gives the folder a larger UIDVALIDITY and, with it, new contents. */
  datatype Event =
    | Arrive(uid: nat, mail: Mail) | Expunge(uid: nat) | Import(run: Run)
    | Renumber(uidvalidity: nat, mails: map<nat, Mail>, uidNext: nat)

  ghost predicate Enabled(w: World, e: Event) {
    && (e.Arrive? ==> e.uid >= w.box.uidNext)
    && (e.Renumber? ==> e.uidvalidity > w.box.uidvalidity && ValidMailbox(Mailbox(e.uidvalidity, e.mails, e.uidNext)))
  }

  predicate Completes(w: World, run: Run) {
    !run.dryRun && !(run.crash.Some? && run.crash.value <= |Batch(w.store.account, w.box, run.limit)|)
  }

  /** What a run fails to fetch. */
  function Missed(w: World, run: Run): set<(nat, nat)> {
    set u | u in Batch(w.store.account, w.box, run.limit) &&
            !Fetchable(SessionOf(w.store.account, w.box, run.failed), u) :: (w.box.uidvalidity, u)
  }

  function Step(w: World, e: Event): World {
    match e
    case Arrive(uid, mail) => w.(box := w.box.(mails := w.box.mails[uid := mail], uidNext := uid + 1))
    case Expunge(uid) => w.(box := w.box.(mails := w.box.mails - {uid}))
    case Import(run) =>
      w.(store := AfterRun(w.store, w.box, run),
         skipped := if Completes(w, run) then w.skipped + Missed(w, run) else w.skipped)
    case Renumber(uidvalidity, mails, uidNext) => w.(box := Mailbox(uidvalidity, mails, uidNext))
  }

  function Exec(w: World, es: seq<Event>): World {
    if es == [] then w else Step(Exec(w, es[..|es| - 1]), es[|es| - 1])
  }

  ghost predicate AllEnabled(w: World, es: seq<Event>) {
    forall i :: 0 <= i < |es| ==> Enabled(Exec(w, es[..i]), es[i])
  }

  ghost predicate SameEpoch(account: Account, box: Mailbox) {
    account.uidvalidity == None || account.uidvalidity == Some(box.uidvalidity)
  }

  ghost predicate InEpoch(w: World) {
    SameEpoch(w.store.account, w.box)
  }

  /** Events that leave the UIDVALIDITY alone. */
  ghost predicate WithinEpoch(es: seq<Event>) {
    forall i :: 0 <= i < |es| ==> !es[i].Renumber?
  }

  ghost predicate Stored(w: World, u: nat)
    requires u in w.box.mails
  {
    HasKey(w.store.rows, w.store.account.id,
           ExternalId(w.box.mails[u], w.store.account.id, w.box.uidvalidity, u))
  }

  ghost predicate Logged(w: World, u: nat) {
    (w.box.uidvalidity, u) in w.skipped
  }

  /** Every present message at or below the watermark is stored or was logged as unfetchable. */
  ghost predicate NoLoss(w: World) {
    forall u :: u in w.box.mails && u <= w.store.account.lastUid ==> Stored(w, u) || Logged(w, u)
  }

  ghost predicate Inv(w: World) {
    && ValidMailbox(w.box) && InEpoch(w) && UniqueKeys(w.store.rows)
    && w.store.account.lastUid < w.box.uidNext && NoLoss(w)
  }

  /** What holds in and out of an epoch: nothing is logged before a run completes in the epoch. */
  ghost predicate WellFormed(w: World) {
    && ValidMailbox(w.box) && UniqueKeys(w.store.rows)
    && (w.store.account.uidvalidity.Some? ==> w.store.account.uidvalidity.value <= w.box.uidvalidity)
    && (forall v, u :: (v, u) in w.skipped ==>
          v <= w.box.uidvalidity && (v == w.box.uidvalidity ==> w.store.account.uidvalidity == Some(v)))
  }

  /** The same for a completed run: which of its messages end up with a row of their own. */
  lemma RunStoresOwnRow(w: World, run: Run, u: nat)
    requires Completes(w, run) && u in Batch(w.store.account, w.box, run.limit)
    requires Fetchable(SessionOf(w.store.account, w.box, run.failed), u)
    ensures var s := SessionOf(w.store.account, w.box, run.failed);
            RowOf(s, u) in Step(w, Import(run)).store.rows <==>
            RowOf(s, u) in w.store.rows ||
            (!Stored(w, u) && !Shadowed(s, Batch(w.store.account, w.box, run.limit), u))
  {
    UidsFromFacts(w.box, StartUid(w.store.account, w.box));
    OwnRowIsStored(SessionOf(w.store.account, w.box, run.failed), w.store.rows,
                   Batch(w.store.account, w.box, run.limit), u);
  }

  /** What any step does to the store, in or out of an epoch. */
  lemma StepStore(w: World, e: Event)
    ensures var w' := Step(w, e);
            && w.store.rows <= w'.store.rows && w.store.account.lastUid <= w'.store.account.lastUid
            && w.store.account.id == w'.store.account.id && w.skipped <= w'.skipped
            && (UniqueKeys(w.store.rows) ==> UniqueKeys(w'.store.rows))
  {
    if e.Import? {
      var account := w.store.account;
      var uids := Batch(account, w.box, e.run.limit);
      var session := SessionOf(account, w.box, e.run.failed);
      ImportAllFacts(session, w.store.rows, uids);
      HighestUidFacts(account.lastUid, uids);
      if e.run.crash.Some? && e.run.crash.value <= |uids| {
        ImportAllFacts(session, w.store.rows, uids[..e.run.crash.value]);
      }
    }
  }

  lemma StoredStays(w: World, w': World, u: nat)
    requires u in w.box.mails && u in w'.box.mails && w.box.mails[u] == w'.box.mails[u] && Stored(w, u)
    requires w.box.uidvalidity == w'.box.uidvalidity && w.store.account.id == w'.store.account.id
    requires w.store.rows <= w'.store.rows
    ensures Stored(w', u)
  {
    HasKeyPrefix(w.store.rows, w'.store.rows, w.store.account.id,
                 ExternalId(w.box.mails[u], w.store.account.id, w.box.uidvalidity, u));
  }

  /** A message in the batch of a completed run ends up stored or logged. */
  lemma BatchIsAccounted(w: World, run: Run, u: nat)
    requires Completes(w, run) && u in w.box.mails && u in Batch(w.store.account, w.box, run.limit)
    ensures Stored(Step(w, Import(run)), u) || Logged(Step(w, Import(run)), u)
  {
    ImportAllFacts(SessionOf(w.store.account, w.box, run.failed), w.store.rows,
                   Batch(w.store.account, w.box, run.limit));
  }

  lemma ImportKeepsInv(w: World, run: Run)
    requires Inv(w)
    ensures Inv(Step(w, Import(run)))
  {
    var w' := Step(w, Import(run));
    StepStore(w, Import(run));
    var account := w.store.account;
    var uids := Batch(account, w.box, run.limit);
    HighestUidFacts(account.lastUid, uids);
    forall u | u in w'.box.mails && u <= w'.store.account.lastUid ensures Stored(w', u) || Logged(w', u) {
      if u <= account.lastUid {
        if Stored(w, u) {
          StoredStays(w, w', u);
        }
      } else {
        var top := HighestUid(account.lastUid, uids);
        BatchIsClosed(account, w.box, run.limit, u, top);
        BatchIsAccounted(w, run, u);
      }
    }
    BatchIsPending(account, w.box, run.limit);
  }

  lemma StepKeepsInv(w: World, e: Event)
    requires Inv(w) && Enabled(w, e) && !e.Renumber?
    ensures Inv(Step(w, e))
  {
    if e.Import? {
      ImportKeepsInv(w, e.run);
    } else {
      var w' := Step(w, e);
      forall u | u in w'.box.mails && u <= w'.store.account.lastUid ensures Stored(w', u) || Logged(w', u) {
        assert u in w.box.mails;
        if Stored(w, u) {
          StoredStays(w, w', u);
        }
      }
    }
  }

  /** A new account has watermark 0 and no UIDVALIDITY yet. */
  ghost predicate Fresh(w: World) {
    && ValidMailbox(w.box) && UniqueKeys(w.store.rows)
    && w.store.account.lastUid == 0 && w.store.account.uidvalidity == None && w.skipped == {}
  }

  lemma EnabledPrefix(w: World, es: seq<Event>)
    requires es != [] && AllEnabled(w, es)
    ensures AllEnabled(w, es[..|es| - 1]) && Enabled(Exec(w, es[..|es| - 1]), es[|es| - 1])
  {
    var init := es[..|es| - 1];
    forall i | 0 <= i < |init| ensures Enabled(Exec(w, init[..i]), init[i]) {
      assert init[..i] == es[..i];
    }
  }

  lemma StepKeepsWellFormed(w: World, e: Event)
    requires WellFormed(w) && Enabled(w, e)
    ensures WellFormed(Step(w, e))
  {
    StepStore(w, e);
  }

  /**
   Across any number of changes of UIDVALIDITY: rows are only appended, no (account, external id)
   pair is stored twice, and the watermark never falls.
   */
  lemma {:induction false} HistoryKeepsWellFormed(w: World, es: seq<Event>)
    requires WellFormed(w) && AllEnabled(w, es)
    ensures WellFormed(Exec(w, es))
    ensures w.store.rows <= Exec(w, es).store.rows
    ensures w.store.account.lastUid <= Exec(w, es).store.account.lastUid
  {
    if es != [] {
      EnabledPrefix(w, es);
      HistoryKeepsWellFormed(w, es[..|es| - 1]);
      StepStore(Exec(w, es[..|es| - 1]), es[|es| - 1]);
      StepKeepsWellFormed(Exec(w, es[..|es| - 1]), es[|es| - 1]);
    }
  }

  /**
   Under any interleaving of arrivals, expunges and complete, limited, dry or crashing runs:
   nothing at or below the watermark is lost, the watermark never falls, rows are only appended
   and no (account, external id) pair is stored twice.
   */
  lemma {:induction false} HistoryKeepsInv(w: World, es: seq<Event>)
    requires Fresh(w) || Inv(w)
    requires AllEnabled(w, es) && WithinEpoch(es)
    ensures Inv(Exec(w, es))
    ensures w.store.rows <= Exec(w, es).store.rows
    ensures w.store.account.lastUid <= Exec(w, es).store.account.lastUid
  {
    if es != [] {
      EnabledPrefix(w, es);
      HistoryKeepsInv(w, es[..|es| - 1]);
      StepStore(Exec(w, es[..|es| - 1]), es[|es| - 1]);
      StepKeepsInv(Exec(w, es[..|es| - 1]), es[|es| - 1]);
    }
  }

  // ---------- change of UIDVALIDITY ----------

  /** Every message the batch leaves out at or below the old watermark has its external id stored. */
  ghost predicate LeavesNothing(w: World, run: Run) {
    forall u :: u in w.box.mails && u <= w.store.account.lastUid && u !in Batch(w.store.account, w.box, run.limit) ==>
      Stored(w, u) || DuplicateInBatch(w, run, u)
  }

  /**
   The run after a change restarts the search at UID 1 but keeps the old watermark.  Nothing present
   is lost exactly when every message the batch leaves out at or below the old watermark is stored
   already or shares its external id with a message fetched in the batch.
   */
  lemma EpochChangeNoLoss(w: World, run: Run)
    requires WellFormed(w) && !InEpoch(w) && Completes(w, run)
    ensures NoLoss(Step(w, Import(run))) <==> LeavesNothing(w, run)
  {
    var w' := Step(w, Import(run));
    var account, batch := w.store.account, Batch(w.store.account, w.box, run.limit);
    HighestUidFacts(account.lastUid, batch);
    forall u | u in w.box.mails && u !in batch
      ensures Stored(w', u) <==> Stored(w, u) || DuplicateInBatch(w, run, u)
      ensures !Logged(w', u)
    {
      StoredAfterRun(w, run, u);
    }
    forall u | u in w.box.mails && u in batch ensures Stored(w', u) || Logged(w', u) {
      BatchIsAccounted(w, run, u);
    }
    forall u | u in w.box.mails && u <= w'.store.account.lastUid && u > account.lastUid ensures u in batch {
      BatchIsClosed(account, w.box, run.limit, u, w'.store.account.lastUid);
    }
  }

  ghost predicate DuplicateInBatch(w: World, run: Run, u: nat)
    requires u in w.box.mails
  {
    var s := SessionOf(w.store.account, w.box, run.failed);
    FetchesKey(s, Batch(w.store.account, w.box, run.limit), ExternalIdOf(s, u))
  }

  lemma StoredAfterRun(w: World, run: Run, u: nat)
    requires u in w.box.mails && Completes(w, run)
    ensures Stored(Step(w, Import(run)), u) <==> Stored(w, u) || DuplicateInBatch(w, run, u)
  {
    var s := SessionOf(w.store.account, w.box, run.failed);
    KeyAfterImport(s, w.store.rows, Batch(w.store.account, w.box, run.limit), ExternalIdOf(s, u));
  }

  lemma EpochChangeInv(w: World, run: Run)
    requires WellFormed(w) && !InEpoch(w) && Completes(w, run)
    ensures Inv(Step(w, Import(run))) <==>
            NoLoss(Step(w, Import(run))) && w.store.account.lastUid < w.box.uidNext
  {
    var account, batch := w.store.account, Batch(w.store.account, w.box, run.limit);
    StepStore(w, Import(run));
    HighestUidFacts(account.lastUid, batch);
    BatchIsPending(account, w.box, run.limit);
  }

  /** Nothing is lost now or in any later history of the epoch. */
  ghost predicate NeverLoses(w: World) {
    forall es :: AllEnabled(w, es) && WithinEpoch(es) ==> NoLoss(Exec(w, es))
  }

  /**
   After the first completed run of a new epoch, no later history of that epoch ever loses a message
   if and only if that run left nothing out and the old watermark lies below the next UID.
   */
  lemma EpochChangeExact(w: World, run: Run)
    requires WellFormed(w) && !InEpoch(w) && Completes(w, run)
    ensures NeverLoses(Step(w, Import(run))) <==>
            LeavesNothing(w, run) && w.store.account.lastUid < w.box.uidNext
  {
    var w' := Step(w, Import(run));
    EpochChangeNoLoss(w, run);
    EpochChangeInv(w, run);
    if Inv(w') {
      forall es | AllEnabled(w', es) && WithinEpoch(es) ensures NoLoss(Exec(w', es)) {
        HistoryKeepsInv(w', es);
      }
    } else if NoLoss(w') {
      var e := LostArrival(w, run);
      assert Exec(w', []) == w';
      assert [e][..0] == [];
      assert AllEnabled(w', [e]) && Exec(w', [e]) == Step(w', e);
    } else {
      assert Exec(w', []) == w';
      assert AllEnabled(w', []) && WithinEpoch([]);
    }
  }

  /** With the old watermark at or above the next UID, a message that arrives next can be lost. */
  lemma LostArrival(w: World, run: Run) returns (e: Event)
    requires WellFormed(w) && !InEpoch(w) && Completes(w, run) && w.store.account.lastUid >= w.box.uidNext
    ensures e.Arrive? && e.uid == w.box.uidNext && Enabled(Step(w, Import(run)), e)
    ensures !NoLoss(Step(Step(w, Import(run)), e))
  {
    var w' := Step(w, Import(run));
    var id := UnusedId(w'.store.rows, w.store.account.id);
    e := Arrive(w.box.uidNext, Mail(id, ""));
    var w'' := Step(w', e);
    StepStore(w, Import(run));
    BatchIsPending(w.store.account, w.box, run.limit);
    assert !Logged(w'', e.uid);
    assert !Stored(w'', e.uid);
  }

  /** A Message-ID that no stored row carries and that has no white space. */
  lemma UnusedId(rows: seq<Row>, account: nat) returns (id: string)
    ensures id != "" && CollapseWhitespace(id) == id && !HasKey(rows, account, id)
  {
    var n := LongestId(rows);
    id := seq(n + 1, _ => 'x');
    OneWord(id);
  }

  lemma {:induction false} LongestId(rows: seq<Row>) returns (n: nat)
    ensures forall i :: 0 <= i < |rows| ==> |rows[i].externalId| <= n
  {
    n := 0;
    for i := 0 to |rows|
      invariant forall j :: 0 <= j < i ==> |rows[j].externalId| <= n
    {
      n := Max(n, |rows[i].externalId|);
    }
  }

  lemma OneWord(s: string)
    requires s != "" && forall i :: 0 <= i < |s| ==> !IsSpace(s[i])
    ensures CollapseWhitespace(s) == s
  {
    WordLengthAll(s);
    assert SkipSpace(s) == s && SkipSpace(s[|s|..]) == [];
  }

  lemma {:induction false} WordLengthAll(s: string)
    requires forall i :: 0 <= i < |s| ==> !IsSpace(s[i])
    ensures WordLength(s) == |s|
  {
    if s != [] {
      WordLengthAll(s[1..]);
    }
  }

  /** Within an epoch, rows added later come from UIDs above the watermark. */
  lemma {:induction false} NewRowsAboveWatermark(w: World, es: seq<Event>, i: nat)
    requires InEpoch(w) && WithinEpoch(es) && |w.store.rows| <= i < |Exec(w, es).store.rows|
    ensures InEpoch(Exec(w, es)) && Exec(w, es).store.account.lastUid >= w.store.account.lastUid
    ensures Exec(w, es).store.rows[i].uid > w.store.account.lastUid
  {
    EpochStays(w, es);
    if es != [] {
      var init, last := es[..|es| - 1], es[|es| - 1];
      var mid := Exec(w, init);
      EpochStays(w, init);
      StepStore(mid, last);
      if i < |mid.store.rows| {
        NewRowsAboveWatermark(w, init, i);
      } else {
        var s := SessionOf(mid.store.account, mid.box, last.run.failed);
        var batch := Batch(mid.store.account, mid.box, last.run.limit);
        var uids := if last.run.crash.Some? && last.run.crash.value <= |batch|
                    then batch[..last.run.crash.value] else batch;
        NewRowsFaithful(s, mid.store.rows, uids, i);
        assert Exec(w, es).store.rows[i].uid in batch;
        BatchIsPending(mid.store.account, mid.box, last.run.limit);
      }
    }
  }

  lemma {:induction false} EpochStays(w: World, es: seq<Event>)
    requires InEpoch(w) && WithinEpoch(es)
    ensures InEpoch(Exec(w, es)) && Exec(w, es).store.account.lastUid >= w.store.account.lastUid
  {
    if es != [] {
      EpochStays(w, es[..|es| - 1]);
      StepStore(Exec(w, es[..|es| - 1]), es[|es| - 1]);
    }
  }

  const TWO_MAILS: Mailbox := Mailbox(2, map[1 := Mail("", "a"), 2 := Mail("", "b")], 3)

  /** Two unseen messages under a new UIDVALIDITY; the account still has watermark 5 from the old. */
  function RenumberedWorld(): World {
    World(TWO_MAILS, Store(Account(7, Some(1), 5, false), []), {})
  }

  lemma FirstBatchAfterChange()
    ensures var w, run := RenumberedWorld(), Run(1, false, {}, None);
            var s := SessionOf(w.store.account, w.box, {});
            && Batch(w.store.account, w.box, 1) == [1]
            && Step(w, Import(run)) ==
               World(w.box, Store(Account(7, Some(2), 5, false), [Row(7, ExternalIdOf(s, 1), 1, w.box.mails[1])]), {})
  {
    var w, run := RenumberedWorld(), Run(1, false, {}, None);
    var s := SessionOf(w.store.account, w.box, {});
    UidsFromFacts(w.box, 1);
    IncreasingUnique(Pending(w.store.account, w.box), [1, 2]);
    assert Batch(w.store.account, w.box, 1) == [1];
    assert [1][..0] == [];
    assert ImportAll(s, [], []) == [];
    assert HighestUid(5, []) == 5;
    assert Missed(w, run) == {};
  }

  /**
   Concrete loss: with limit 1, message 2 is neither stored nor logged, nothing is pending any
   more, and no later history in that epoch ever stores a row for UID 2.
   */
  lemma EpochChangeCanLose(es: seq<Event>)
    requires WithinEpoch(es)
    ensures var w' := Step(RenumberedWorld(), Import(Run(1, false, {}, None)));
            && !NoLoss(w') && !Stored(w', 2) && Pending(w'.store.account, w'.box) == []
            && (forall row :: row in Exec(w', es).store.rows ==> row.uid != 2)
  {
    var w' := Step(RenumberedWorld(), Import(Run(1, false, {}, None)));
    FirstBatchAfterChange();
    SyntheticIdInjective(7, 2, 1, 7, 2, 2);
    assert !Stored(w', 2);
    UidsFromFacts(w'.box, 6);
    IncreasingUnique(Pending(w'.store.account, w'.box), []);
    var rows := Exec(w', es).store.rows;
    RowsStay(w', es);
    forall i | 0 <= i < |rows| ensures rows[i].uid != 2 {
      if i >= 1 {
        NewRowsAboveWatermark(w', es, i);
      }
    }
  }

  /** An empty folder under a new UIDVALIDITY, with watermark 5 from the old one. */
  function EmptiedWorld(): World {
    World(Mailbox(2, map[], 1), Store(Account(7, Some(1), 5, false), []), {})
  }

  /**
   Concrete loss of later mail: an unlimited run loses nothing, but the message that arrives next
   is neither stored nor pending, and no later history in that epoch ever stores a row for it.
   */
  lemma ArrivalCanBeLost(mail: Mail, es: seq<Event>)
    requires WithinEpoch(es)
    ensures var w' := Step(EmptiedWorld(), Import(Run(0, false, {}, None)));
            var w'' := Step(w', Arrive(1, mail));
            && NoLoss(w') && Enabled(w', Arrive(1, mail))
            && !NoLoss(w'') && !Stored(w'', 1) && Pending(w''.store.account, w''.box) == []
            && (forall row :: row in Exec(w'', es).store.rows ==> row.uid != 1)
  {
    var w, run := EmptiedWorld(), Run(0, false, {}, None);
    UidsFromFacts(w.box, 1);
    IncreasingUnique(Pending(w.store.account, w.box), []);
    assert Missed(w, run) == {};
    var w' := Step(w, Import(run));
    assert w' == World(w.box, Store(Account(7, Some(2), 5, false), []), {});
    assert NoLoss(w');
    var w'' := Step(w', Arrive(1, mail));
    assert 1 in w''.box.mails && !Stored(w'', 1) && !Logged(w'', 1);
    UidsFromFacts(w''.box, 6);
    IncreasingUnique(Pending(w''.store.account, w''.box), []);
    var rows := Exec(w'', es).store.rows;
    forall i | 0 <= i < |rows| ensures rows[i].uid != 1 {
      NewRowsAboveWatermark(w'', es, i);
    }
  }

  lemma {:induction false} RowsStay(w: World, es: seq<Event>)
    ensures w.store.rows <= Exec(w, es).store.rows
  {
    if es != [] {
      RowsStay(w, es[..|es| - 1]);
      StepStore(Exec(w, es[..|es| - 1]), es[|es| - 1]);
    }
  }

  // ---------- single runs and external ids ----------

  /** A dry run changes nothing, whatever it sees. */
  lemma DryRunChangesNothing(w: World, run: Run)
    requires run.dryRun
    ensures Step(w, Import(run)) == w
  {
  }

  /** A run that completes records the folder's UIDVALIDITY and the highest UID of its batch. */
  lemma CompletedRunRecords(w: World, run: Run)
    requires Completes(w, run)
    ensures var account, batch := Step(w, Import(run)).store.account, Batch(w.store.account, w.box, run.limit);
            && account.uidvalidity == Some(w.box.uidvalidity) && !account.failing
            && account.lastUid >= w.store.account.lastUid && (forall u :: u in batch ==> u <= account.lastUid)
            && (account.lastUid == w.store.account.lastUid || account.lastUid in batch)
  {
    HighestUidFacts(w.store.account.lastUid, Batch(w.store.account, w.box, run.limit));
  }

  /** A run that crashes leaves the cursor where it was and marks the account as failing. */
  lemma CrashedRunRecords(w: World, run: Run)
    requires !run.dryRun && !Completes(w, run)
    ensures Step(w, Import(run)).store.account == w.store.account.(failing := true)
  {
  }

  ghost predicate Blank(s: string) {
    forall i :: 0 <= i < |s| ==> IsSpace(s[i])
  }

  ghost predicate Word(s: string) {
    s != "" && forall i :: 0 <= i < |s| ==> !IsSpace(s[i])
  }

  lemma {:induction false} SkipBlank(pad: string, s: string)
    requires Blank(pad) && (s == [] || !IsSpace(s[0]))
    ensures SkipSpace(pad + s) == s
  {
    if pad == [] {
      assert pad + s == s;
    } else {
      SkipBlank(pad[1..], s);
      assert (pad + s)[1..] == pad[1..] + s;
    }
  }

  lemma {:induction false} WordThen(w: string, s: string)
    requires (forall i :: 0 <= i < |w| ==> !IsSpace(w[i])) && (s == [] || IsSpace(s[0]))
    ensures WordLength(w + s) == |w|
  {
    if w == [] {
      assert w + s == s;
    } else {
      WordThen(w[1..], s);
      assert (w + s)[1..] == w[1..] + s;
    }
  }

  /** White space around and between the words of a Message-ID collapses to single blanks. */
  lemma CollapseMeans(pad: string, w: string, gap: string, rest: string)
    requires Blank(pad) && Word(w) && Blank(gap) && (rest == "" || (gap != "" && !IsSpace(rest[0])))
    ensures CollapseWhitespace(pad + (w + (gap + rest))) == if rest == "" then w else w + " " + CollapseWhitespace(rest)
  {
    var t := w + (gap + rest);
    SkipBlank(pad, t);
    assert gap + rest == [] || IsSpace((gap + rest)[0]);
    WordThen(w, gap + rest);
    assert t[..|w|] == w && t[|w|..] == gap + rest;
    SkipBlank(gap, rest);
  }

  lemma CollapseBlank(pad: string)
    requires Blank(pad)
    ensures CollapseWhitespace(pad) == ""
  {
    assert pad + "" == pad;
    SkipBlank(pad, "");
  }

  /** A usable Message-ID is the external id, collapsed; without one the id is made up. */
  lemma ExternalIdMeans(mail: Mail, account: nat, uidvalidity: nat, uid: nat)
    ensures !Blank(mail.messageId) ==>
              ExternalId(mail, account, uidvalidity, uid) == CollapseWhitespace(mail.messageId)
    ensures Blank(mail.messageId) ==>
              ExternalId(mail, account, uidvalidity, uid) == SyntheticId(account, uidvalidity, uid)
  {
    if Blank(mail.messageId) {
      CollapseBlank(mail.messageId);
    } else {
      NotBlankHasWord(mail.messageId);
    }
  }

  lemma {:induction false} NotBlankHasWord(s: string)
    requires !Blank(s)
    ensures CollapseWhitespace(s) != ""
  {
    SkipsToWord(s);
    var t := SkipSpace(s);
    assert WordLength(t) > 0;
  }

  lemma {:induction false} SkipsToWord(s: string)
    requires !Blank(s)
    ensures SkipSpace(s) != []
  {
    if IsSpace(s[0]) {
      assert !Blank(s[1..]) by {
        var i :| 0 <= i < |s| && !IsSpace(s[i]);
        assert s[1..][i - 1] == s[i];
      }
      SkipsToWord(s[1..]);
    }
  }

  // ---------- synthetic ids ----------

  lemma NumberThenMark(a: string, b: string, mark: char, x: string, y: string)
    requires AllDigits(a) && AllDigits(b) && !IsDigit(mark)
    requires a + ([mark] + x) == b + ([mark] + y)
    ensures a == b && x == y
  {
    var s := a + ([mark] + x);
    LeadingDigitsAre(a, [mark] + x);
    LeadingDigitsAre(b, [mark] + y);
    assert s[..|a|] == a && s[..|b|] == b;
    assert s[|a| + 1..] == x && s[|b| + 1..] == y;
  }

  lemma CancelPrefix(p: string, x: string, y: string)
    requires p + x == p + y
    ensures x == y
  {
    assert (p + x)[|p|..] == x && (p + y)[|p|..] == y;
  }

  /** Messages without a usable Message-ID get pairwise different external ids. */
  lemma SyntheticIdInjective(a: nat, v: nat, u: nat, a': nat, v': nat, u': nat)
    ensures SyntheticId(a, v, u) == SyntheticId(a', v', u') ==> a == a' && v == v' && u == u'
  {
    if SyntheticId(a, v, u) == SyntheticId(a', v', u') {
      var end := "es-daskuechenhaus.de>";
      var x, x' := Render(u) + ("@" + end), Render(u') + ("@" + end);
      assert "@es-daskuechenhaus.de>" == "@" + end;
      var y, y' := Render(v) + ("-" + x), Render(v') + ("-" + x');
      CancelPrefix("<imap-", Render(a) + ("-" + y), Render(a') + ("-" + y'));
      NumberThenMark(Render(a), Render(a'), '-', y, y');
      NumberThenMark(Render(v), Render(v'), '-', x, x');
      NumberThenMark(Render(u), Render(u'), '@', end, end);
      RenderInjective(a, a');
      RenderInjective(v, v');
      RenderInjective(u, u');
    }
  }
}
