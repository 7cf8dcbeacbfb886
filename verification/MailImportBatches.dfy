/** Draining a mailbox at rest in several runs. */
module MailImportBatches {
  import opened Common
  import opened MailImport
  import opened MailImportRuns

  /** A run that neither is dry nor crashes. */
  ghost predicate Plain(run: Run) {
    !run.dryRun && run.crash == None
  }

  ghost predicate AllPlain(runs: seq<Run>) {
    forall i :: 0 <= i < |runs| ==> Plain(runs[i])
  }

  /** One run after the other; each has its own limit and its own failing fetches. */
  function Repeat(store: Store, box: Mailbox, runs: seq<Run>): Store {
    if runs == [] then store else AfterRun(Repeat(store, box, runs[..|runs| - 1]), box, runs[|runs| - 1])
  }

  /** The UIDs that a run tries and fails to fetch. */
  function FailedIn(store: Store, box: Mailbox, run: Run): set<nat> {
    set u | u in Batch(store.account, box, run.limit) && u in run.failed
  }

  /** The UIDs whose fetch failed when it was tried. */
  function AllFailed(store: Store, box: Mailbox, runs: seq<Run>): set<nat> {
    if runs == [] then {}
    else
      var init, last := runs[..|runs| - 1], runs[|runs| - 1];
      AllFailed(store, box, init) + FailedIn(Repeat(store, box, init), box, last)
  }

  /** State after the first `k` pending messages were imported by completed runs. */
  function Progress(store: Store, box: Mailbox, failed: set<nat>, k: nat): Store
    requires k <= |Pending(store.account, box)|
  {
    var done := Pending(store.account, box)[..k];
    Store(store.account.(uidvalidity := Some(box.uidvalidity),
                         lastUid := HighestUid(store.account.lastUid, done), failing := false),
          ImportAll(SessionOf(store.account, box, failed), store.rows, done))
  }

  lemma RestIsAbove(p: seq<nat>, floor: nat, k: nat)
    requires Increasing(p) && k <= |p| && forall x :: x in p ==> x > floor
    ensures Increasing(p[k..])
    ensures forall x :: x in p[k..] <==> x in p && x > HighestUid(floor, p[..k])
  {
    var last := HighestUid(floor, p[..k]);
    HighestUidFacts(floor, p[..k]);
    forall x | x in p ensures x in p[k..] <==> x > last {
      var i :| 0 <= i < |p| && p[i] == x;
      if i < k {
        assert p[..k][i] == x;
      } else {
        assert p[k..][i - k] == x;
        if last in p[..k] {
          var j :| 0 <= j < k && p[j] == last;
        }
      }
    }
  }

  lemma RestIsUnique(p: seq<nat>, floor: nat, k: nat, q: seq<nat>)
    requires Increasing(p) && k <= |p| && forall x :: x in p ==> x > floor
    requires Increasing(q) && forall x :: x in q <==> x in p && x > HighestUid(floor, p[..k])
    ensures q == p[k..]
  {
    RestIsAbove(p, floor, k);
    IncreasingUnique(q, p[k..]);
  }

  lemma UidsAbovePrefix(box: Mailbox, floor: nat, p: seq<nat>, k: nat)
    requires p == UidsFrom(box, floor + 1) && k <= |p|
    ensures UidsFrom(box, HighestUid(floor, p[..k]) + 1) == p[k..]
  {
    var last := HighestUid(floor, p[..k]);
    var q := UidsFrom(box, last + 1);
    UidsFromFacts(box, floor + 1);
    UidsFromFacts(box, last + 1);
    assert last >= floor by {
      HighestUidFacts(floor, p[..k]);
    }
    RestIsUnique(p, floor, k, q);
  }

  /** What is pending after progress `k` is the rest of what was pending. */
  lemma PendingAfter(store: Store, box: Mailbox, failed: set<nat>, k: nat)
    requires SameEpoch(store.account, box) && k <= |Pending(store.account, box)|
    ensures Pending(Progress(store, box, failed, k).account, box) == Pending(store.account, box)[k..]
  {
    UidsAbovePrefix(box, store.account.lastUid, Pending(store.account, box), k);
  }

  /** Only the fetches that are tried matter. */
  lemma {:induction false} ImportAllSame(s: Session, failed: set<nat>, rows: seq<Row>, uids: seq<nat>)
    requires forall u :: u in uids ==> (u in failed <==> u in s.failed)
    ensures ImportAll(s.(failed := failed), rows, uids) == ImportAll(s, rows, uids)
  {
    if uids != [] {
      var init := uids[..|uids| - 1];
      assert forall u :: u in init ==> u in uids;
      ImportAllSame(s, failed, rows, init);
      assert uids[|init|] in uids;
    }
  }

  function Reach(size: nat, k: nat, limit: int): nat
    requires k <= size
  {
    if limit > 0 then Min(k + limit, size) else size
  }

  lemma PlainRunIsProgress(store: Store, box: Mailbox, run: Run)
    requires Plain(run)
    ensures var n := Reach(|Pending(store.account, box)|, 0, run.limit);
            && Batch(store.account, box, run.limit) == Pending(store.account, box)[..n]
            && AfterRun(store, box, run) == Progress(store, box, run.failed, n)
  {
    var p := Pending(store.account, box);
    assert p[..|p|] == p;
  }

  /** How many pending messages the runs handle. */
  function Reached(size: nat, runs: seq<Run>): (n: nat)
    ensures n <= size
  {
    if runs == [] then 0 else Reach(size, Reached(size, runs[..|runs| - 1]), runs[|runs| - 1].limit)
  }

  /** The runs so far amount to progress with the failures so far, all of which were handled. */
  ghost predicate IsProgress(store: Store, box: Mailbox, after: Store, failed: set<nat>, k: nat)
    requires k <= |Pending(store.account, box)|
  {
    && after == Progress(store, box, failed, k)
    && forall u :: u in failed ==> u in Pending(store.account, box)[..k]
  }

  /** A run after progress `k` handles the next `n` pending messages. */
  lemma RunAfterProgress(store: Store, box: Mailbox, f: set<nat>, k: nat, run: Run) returns (n: nat)
    requires Plain(run) && SameEpoch(store.account, box) && k <= |Pending(store.account, box)|
    ensures k + n == Reach(|Pending(store.account, box)|, k, run.limit)
    ensures n <= |Pending(Progress(store, box, f, k).account, box)|
    ensures AfterRun(Progress(store, box, f, k), box, run) == Progress(Progress(store, box, f, k), box, run.failed, n)
    ensures forall u :: u in FailedIn(Progress(store, box, f, k), box, run) <==>
                        u in Pending(store.account, box)[k..][..n] && u in run.failed
  {
    var p, mid := Pending(store.account, box), Progress(store, box, f, k);
    n := Reach(|p|, k, run.limit) - k;
    PendingAfter(store, box, f, k);
    PlainRunIsProgress(mid, box, run);
    assert Batch(mid.account, box, run.limit) == p[k..][..n];
  }

  /** The failures `f` of the first part and `g` of the second do not mix. */
  ghost predicate Combined(a: seq<nat>, b: seq<nat>, f: set<nat>, g: set<nat>, all: set<nat>) {
    && (forall u :: u in a ==> (u in all <==> u in f))
    && (forall u :: u in b ==> (u in all <==> u in g))
    && (forall u :: u in all ==> u in a + b)
  }

  lemma FailuresCombine(p: seq<nat>, k: nat, n: nat, f: set<nat>, g: set<nat>, h: set<nat>)
    requires Increasing(p) && k + n <= |p| && forall u :: u in f ==> u in p[..k]
    requires forall u :: u in h <==> u in p[k..][..n] && u in g
    ensures Combined(p[..k], p[k..][..n], f, g, f + h)
  {
    assert forall u :: u in p[k..][..n] ==> u !in p[..k];
  }

  /** Progress with failures `f`, then with failures `g`, is progress with the failures of both. */
  lemma ProgressCompose(store: Store, box: Mailbox, f: set<nat>, k: nat, g: set<nat>, n: nat, all: set<nat>)
    requires SameEpoch(store.account, box) && k + n <= |Pending(store.account, box)|
    requires Combined(Pending(store.account, box)[..k], Pending(store.account, box)[k..][..n], f, g, all)
    ensures Pending(Progress(store, box, f, k).account, box) == Pending(store.account, box)[k..]
    ensures IsProgress(store, box, Progress(Progress(store, box, f, k), box, g, n), all, k + n)
  {
    PendingAfter(store, box, f, k);
    var p, s := Pending(store.account, box), SessionOf(store.account, box, all);
    var a, b := p[..k], p[k..][..n];
    assert a + b == p[..k + n];
    ImportAllSame(s, f, store.rows, a);
    ImportAllSame(s, g, ImportAll(s, store.rows, a), b);
    ImportAllConcat(s, store.rows, a, b);
    HighestUidConcat(store.account.lastUid, a, b);
  }

  lemma PendingFailuresCombine(account: Account, box: Mailbox, k: nat, n: nat, f: set<nat>, g: set<nat>, h: set<nat>)
    requires k + n <= |Pending(account, box)| && forall u :: u in f ==> u in Pending(account, box)[..k]
    requires forall u :: u in h <==> u in Pending(account, box)[k..][..n] && u in g
    ensures Combined(Pending(account, box)[..k], Pending(account, box)[k..][..n], f, g, f + h)
  {
    UidsFromFacts(box, StartUid(account, box));
    FailuresCombine(Pending(account, box), k, n, f, g, h);
  }

  /** A plain run carries progress on. */
  lemma RunExtendsProgress(store: Store, box: Mailbox, f: set<nat>, k: nat, run: Run)
    requires Plain(run) && SameEpoch(store.account, box) && k <= |Pending(store.account, box)|
    requires forall u :: u in f ==> u in Pending(store.account, box)[..k]
    ensures var p, mid := Pending(store.account, box), Progress(store, box, f, k);
            IsProgress(store, box, AfterRun(mid, box, run), f + FailedIn(mid, box, run), Reach(|p|, k, run.limit))
  {
    var h := FailedIn(Progress(store, box, f, k), box, run);
    var n := RunAfterProgress(store, box, f, k, run);
    PendingFailuresCombine(store.account, box, k, n, f, run.failed, h);
    ProgressCompose(store, box, f, k, run.failed, n, f + h);
  }

  lemma {:induction false} RepeatIsProgress(store: Store, box: Mailbox, runs: seq<Run>)
    requires AllPlain(runs) && SameEpoch(store.account, box) && runs != []
    ensures IsProgress(store, box, Repeat(store, box, runs), AllFailed(store, box, runs),
                       Reached(|Pending(store.account, box)|, runs))
  {
    var init, last := runs[..|runs| - 1], runs[|runs| - 1];
    if init == [] {
      FirstRunIsProgress(store, box, last);
      var size := |Pending(store.account, box)|;
      assert Repeat(store, box, init) == store && Reached(size, init) == 0;
      assert Repeat(store, box, runs) == AfterRun(store, box, last);
      assert Reached(size, runs) == Reach(size, 0, last.limit);
      assert AllFailed(store, box, runs) == FailedIn(store, box, last);
    } else {
      RepeatIsProgress(store, box, init);
      var k := Reached(|Pending(store.account, box)|, init);
      RunExtendsProgress(store, box, AllFailed(store, box, init), k, last);
    }
  }

  lemma FirstRunIsProgress(store: Store, box: Mailbox, run: Run)
    requires Plain(run)
    ensures IsProgress(store, box, AfterRun(store, box, run), FailedIn(store, box, run),
                       Reach(|Pending(store.account, box)|, 0, run.limit))
  {
    PlainRunIsProgress(store, box, run);
    ImportAllSame(SessionOf(store.account, box, run.failed), FailedIn(store, box, run), store.rows,
                  Batch(store.account, box, run.limit));
  }

  function CeilDiv(p: nat, m: nat): nat
    requires m > 0
  {
    (p + m - 1) / m
  }

  lemma CeilDivIsLeast(p: nat, m: nat, n: nat)
    requires m > 0
    ensures n * m >= p <==> n >= CeilDiv(p, m)
  {
    var q := CeilDiv(p, m);
    assert q * m <= p + m - 1 < q * m + m;
    if n >= q {
      assert n * m >= q * m;
    } else {
      assert n * m <= (q - 1) * m;
      assert (q - 1) * m == q * m - m;
    }
  }

  lemma {:induction false} ReachedWithLimit(size: nat, runs: seq<Run>, m: nat)
    requires m > 0 && forall i :: 0 <= i < |runs| ==> runs[i].limit == m
    ensures Reached(size, runs) == Min(|runs| * m, size)
  {
    if runs != [] {
      var init := runs[..|runs| - 1];
      ReachedWithLimit(size, init, m);
      assert |runs| * m == |init| * m + m;
    }
  }

  /** On a mailbox at rest, limited runs drain it in exactly ceil(pending / limit) runs. */
  lemma DrainCount(store: Store, box: Mailbox, runs: seq<Run>, m: nat)
    requires AllPlain(runs) && SameEpoch(store.account, box)
    requires m > 0 && forall i :: 0 <= i < |runs| ==> runs[i].limit == m
    ensures Pending(Repeat(store, box, runs).account, box) == [] <==>
            |runs| >= CeilDiv(|Pending(store.account, box)|, m)
  {
    var size := |Pending(store.account, box)|;
    CeilDivIsLeast(size, m, |runs|);
    ReachedWithLimit(size, runs, m);
    if runs != [] {
      RepeatIsProgress(store, box, runs);
      PendingAfter(store, box, AllFailed(store, box, runs), Reached(size, runs));
    }
  }

  /**
   However a mailbox at rest was drained, with any limits and any failing fetches along the way, the
   account row and the table are those of one unlimited run with the same failing fetches.
   */
  lemma BatchingIsInvisible(store: Store, box: Mailbox, runs: seq<Run>)
    requires AllPlain(runs) && SameEpoch(store.account, box) && runs != []
    requires Pending(Repeat(store, box, runs).account, box) == []
    ensures Repeat(store, box, runs) == AfterRun(store, box, Run(0, false, AllFailed(store, box, runs), None))
  {
    var size, failed := |Pending(store.account, box)|, AllFailed(store, box, runs);
    RepeatIsProgress(store, box, runs);
    PendingAfter(store, box, failed, Reached(size, runs));
    PlainRunIsProgress(store, box, Run(0, false, failed, None));
  }
}
