/** What a whole run of calls does to the ledger. */
module LedgerRuns {
  import opened Options
  import opened Ledger

  // ---------- Journals ----------

  lemma NetSnoc(es: seq<Entry>, e: Entry, a: AccountKey)
    ensures Net(es + [e], a) == Net(es, a) + if e.account == a then Signed(e) else 0
  {
    assert (es + [e])[..|es|] == es;
  }

  lemma EntriesOfSnoc(es: seq<Entry>, e: Entry, k: TxKey)
    ensures EntriesOf(es + [e], k) == EntriesOf(es, k) + if e.tx == k then [e] else []
  {
    assert (es + [e])[..|es|] == es;
  }

  lemma {:induction false} NetConcat(es: seq<Entry>, fs: seq<Entry>, a: AccountKey)
    ensures Net(es + fs, a) == Net(es, a) + Net(fs, a)
  {
    if fs == [] {
      assert es + fs == es;
    } else {
      var n := |fs| - 1;
      assert es + fs == (es + fs[..n]) + [fs[n]];
      NetConcat(es, fs[..n], a);
      NetSnoc(es + fs[..n], fs[n], a);
    }
  }

  lemma {:induction false} EntriesOfConcat(es: seq<Entry>, fs: seq<Entry>, k: TxKey)
    ensures EntriesOf(es + fs, k) == EntriesOf(es, k) + EntriesOf(fs, k)
  {
    if fs == [] {
      assert es + fs == es;
    } else {
      var n := |fs| - 1;
      assert es + fs == (es + fs[..n]) + [fs[n]];
      EntriesOfConcat(es, fs[..n], k);
      EntriesOfSnoc(es + fs[..n], fs[n], k);
    }
  }

  /** Entries of one transaction only: all of them for its key, none for another. */
  lemma {:induction false} EntriesOfUniform(es: seq<Entry>, owner: TxKey, k: TxKey)
    requires forall e :: e in es ==> e.tx == owner
    ensures EntriesOf(es, k) == if k == owner then es else []
  {
    if es != [] {
      var n := |es| - 1;
      assert es == es[..n] + [es[n]];
      EntriesOfUniform(es[..n], owner, k);
    }
  }

  /** The balance table after a list of updates adds the net effect of the list. */
  lemma {:induction false} BumpAllIsNet(b: map<AccountKey, int>, es: seq<Entry>, a: AccountKey)
    ensures Amount(BumpAll(b, es), a) == Amount(b, a) + Net(es, a)
    ensures a in BumpAll(b, es) ==> a in b || exists e :: e in es && e.account == a
  {
    if es != [] {
      var n := |es| - 1;
      BumpAllIsNet(b, es[..n], a);
      assert es == es[..n] + [es[n]];
    }
  }

  // ---------- What one call writes ----------

  /** How many of the seven completing writes of a call stay in the database. */
  function WritesKept(l: Ledger, req: Request, survives: nat): (n: nat)
    ensures n <= COMPLETION_WRITES
  {
    var k := KeyOf(req);
    if !ValidInputs(req) then 0
    else if k !in l.txs then if SelfTransfer(req) || survives < FRESH_WRITES then 0 else COMPLETION_WRITES
    else if l.txs[k].status == Posted || EntriesOf(l.entries, k) != [] then 0
    else
      var most := if SelfTransfer(req) then 2 else COMPLETION_WRITES;
      if survives < most then survives else most
  }

  function Booked(l: Ledger, req: Request, survives: nat): seq<Entry> {
    Plan(l, req)[..EntriesWritten(WritesKept(l, req, survives))]
  }

  function Applied(l: Ledger, req: Request, survives: nat): seq<Entry> {
    Plan(l, req)[..BalancesWritten(WritesKept(l, req, survives))]
  }

  /** A call that writes anything performs a prefix of the completing writes. */
  lemma CallIsPrefix(l: Ledger, req: Request, survives: nat)
    ensures var n := WritesKept(l, req, survives);
      var base := if KeyOf(req) in l.txs then l else CreateTx(l, req);
      Post(l, req, survives).0 == if n == 0 then l else AfterWrites(base, req, n)
    ensures 0 < WritesKept(l, req, survives) < COMPLETION_WRITES ==> KeyOf(req) in l.txs
  {
  }

  lemma PlanIgnoresTxs(l: Ledger, req: Request)
    ensures Plan(CreateTx(l, req), req) == Plan(l, req)
    ensures ResolveBoth(CreateTx(l, req), req).types == ResolveBoth(l, req).types
  {
  }

  /** One call appends to the journal and bumps balances. */
  lemma CallJournal(l: Ledger, req: Request, survives: nat)
    ensures var r := Post(l, req, survives).0;
      && r.entries == l.entries + Booked(l, req, survives)
      && r.balances == BumpAll(l.balances, Applied(l, req, survives))
  {
    CallIsPrefix(l, req, survives);
    PlanIgnoresTxs(l, req);
    assert l.entries + [] == l.entries;
  }

  /** One call touches one transaction row at most. */
  lemma CallRows(l: Ledger, req: Request, survives: nat)
    ensures var r := Post(l, req, survives).0;
      && (forall k :: k != KeyOf(req) ==> (k in r.txs <==> k in l.txs))
      && (forall k :: k != KeyOf(req) && k in l.txs ==> r.txs[k] == l.txs[k])
      && (KeyOf(req) in l.txs ==> KeyOf(req) in r.txs)
      && (WritesKept(l, req, survives) == COMPLETION_WRITES ==>
           KeyOf(req) in r.txs && r.txs[KeyOf(req)].status == Posted)
      && (WritesKept(l, req, survives) == 0 ==> r == l)
      && (0 < WritesKept(l, req, survives) < COMPLETION_WRITES ==> r.txs == l.txs && KeyOf(req) in l.txs)
  {
    CallIsPrefix(l, req, survives);
  }

  /** The type of an account is fixed when the account is first resolved. */
  lemma TypesFixed(l: Ledger, req: Request, survives: nat)
    ensures var r := Post(l, req, survives).0;
      forall a :: a in l.types ==> a in r.types && r.types[a] == l.types[a]
  {
    CallIsPrefix(l, req, survives);
    PlanIgnoresTxs(l, req);
  }

  // ---------- Runs in which any process may die ----------

  datatype Call = Call(req: Request, survives: nat)

  function RunCalls(l: Ledger, calls: seq<Call>): Ledger
    decreases |calls|
  {
    if calls == [] then l
    else RunCalls(Post(l, calls[0].req, calls[0].survives).0, calls[1..])
  }

  /** Every balance update a run performs, in order. */
  function AppliedRun(l: Ledger, calls: seq<Call>): seq<Entry>
    decreases |calls|
  {
    if calls == [] then []
    else
      var (req, n) := (calls[0].req, calls[0].survives);
      Applied(l, req, n) + AppliedRun(Post(l, req, n).0, calls[1..])
  }

  /**
  The journal, the balance table and the transaction rows against the list of balance updates:
  at most two entries per transaction, each applied to a balance at most once and in order, and
  a posted transaction has both entries and both updates.
  */
  ghost predicate CrashSafe(l: Ledger, applied: seq<Entry>) {
    && (forall a :: BalanceOf(l, a) == Net(applied, a))
    && (forall k :: EntriesOf(applied, k) <= EntriesOf(l.entries, k))
    && (forall k :: |EntriesOf(l.entries, k)| <= 2)
    && (forall k :: k !in l.txs ==> EntriesOf(l.entries, k) == [])
    && (forall k :: k in l.txs && l.txs[k].status == Posted ==>
         |EntriesOf(l.entries, k)| == 2 && EntriesOf(applied, k) == EntriesOf(l.entries, k))
  }

  lemma PlanPrefixes(l: Ledger, req: Request, n: nat, k: TxKey)
    requires n <= 2
    ensures EntriesOf(Plan(l, req)[..n], k) == if k == KeyOf(req) then Plan(l, req)[..n] else []
  {
    EntriesOfUniform(Plan(l, req)[..n], KeyOf(req), k);
  }

  lemma CrashSafeCall(l: Ledger, applied: seq<Entry>, req: Request, survives: nat)
    requires CrashSafe(l, applied)
    ensures CrashSafe(Post(l, req, survives).0, applied + Applied(l, req, survives))
  {
    var booked, more := Booked(l, req, survives), Applied(l, req, survives);
    CallRows(l, req, survives);
    CallBalances(l, applied, req, survives);
    BookedOnce(l, req, survives);
    forall k ensures EntriesGrow(l, Post(l, req, survives).0, applied, applied + more, booked, more, KeyOf(req), k) {
      CallEntries(l, applied, req, survives, k);
    }
    CrashSafeNext(l, Post(l, req, survives).0, applied, applied + more, booked, more, KeyOf(req));
  }

  lemma CallBalances(l: Ledger, applied: seq<Entry>, req: Request, survives: nat)
    requires forall a :: BalanceOf(l, a) == Net(applied, a)
    ensures forall a :: BalanceOf(Post(l, req, survives).0, a) == Net(applied + Applied(l, req, survives), a)
  {
    CallJournal(l, req, survives);
    var more := Applied(l, req, survives);
    forall a ensures BalanceOf(Post(l, req, survives).0, a) == Net(applied + more, a) {
      BumpAllIsNet(l.balances, more, a);
      NetConcat(applied, more, a);
    }
  }

  /** The entries of transaction `k`, booked and applied, grow by `booked` and `more` if `k` is `k0`. */
  predicate EntriesGrow(
    l: Ledger, r: Ledger, applied: seq<Entry>, applied1: seq<Entry>, booked: seq<Entry>, more: seq<Entry>,
    k0: TxKey, k: TxKey)
  {
    && EntriesOf(r.entries, k) == (if k == k0 then EntriesOf(l.entries, k) + booked else EntriesOf(l.entries, k))
    && EntriesOf(applied1, k) == (if k == k0 then EntriesOf(applied, k) + more else EntriesOf(applied, k))
  }

  lemma CallEntries(l: Ledger, applied: seq<Entry>, req: Request, survives: nat, k: TxKey)
    ensures var booked, more := Booked(l, req, survives), Applied(l, req, survives);
      EntriesGrow(l, Post(l, req, survives).0, applied, applied + more, booked, more, KeyOf(req), k)
  {
    CallJournal(l, req, survives);
    PrefixAppended(l.entries, l, req, |Booked(l, req, survives)|, k);
    PrefixAppended(applied, l, req, |Applied(l, req, survives)|, k);
  }

  lemma CrashSafeNext(
    l: Ledger, r: Ledger, applied: seq<Entry>, applied1: seq<Entry>, booked: seq<Entry>, more: seq<Entry>,
    k0: TxKey)
    requires CrashSafe(l, applied) && forall a :: BalanceOf(r, a) == Net(applied1, a)
    requires forall k :: EntriesGrow(l, r, applied, applied1, booked, more, k0, k)
    requires more <= booked && |booked| <= 2 && (booked != [] ==> EntriesOf(l.entries, k0) == [])
    requires forall k :: k != k0 ==> (k in r.txs <==> k in l.txs) && (k in l.txs ==> r.txs[k] == l.txs[k])
    requires k0 in l.txs || booked != [] ==> k0 in r.txs
    requires k0 in r.txs && r.txs[k0].status == Posted ==>
      (|booked| == 2 && more == booked) || (booked == [] && k0 in l.txs && l.txs[k0].status == Posted)
    ensures CrashSafe(r, applied1)
  {
    forall k
      ensures EntriesOf(applied1, k) <= EntriesOf(r.entries, k) && |EntriesOf(r.entries, k)| <= 2
      ensures k !in r.txs ==> EntriesOf(r.entries, k) == []
      ensures k in r.txs && r.txs[k].status == Posted ==>
        |EntriesOf(r.entries, k)| == 2 && EntriesOf(applied1, k) == EntriesOf(r.entries, k)
    {
      assert EntriesGrow(l, r, applied, applied1, booked, more, k0, k);
      assert EntriesOf(applied, k) <= EntriesOf(l.entries, k);
    }
  }

  lemma PrefixAppended(es: seq<Entry>, l: Ledger, req: Request, n: nat, k: TxKey)
    requires n <= 2
    ensures EntriesOf(es + Plan(l, req)[..n], k)
         == if k == KeyOf(req) then EntriesOf(es, k) + Plan(l, req)[..n] else EntriesOf(es, k)
  {
    EntriesOfConcat(es, Plan(l, req)[..n], k);
    PlanPrefixes(l, req, n, k);
  }

  /** A call books only for a transaction that has no entry yet, and applies no more than it books. */
  lemma BookedOnce(l: Ledger, req: Request, survives: nat)
    requires KeyOf(req) !in l.txs ==> EntriesOf(l.entries, KeyOf(req)) == []
    ensures var booked, more := Booked(l, req, survives), Applied(l, req, survives);
      && more <= booked && |booked| <= 2
      && (booked != [] ==> EntriesOf(l.entries, KeyOf(req)) == [])
      && (WritesKept(l, req, survives) == COMPLETION_WRITES ==> |booked| == 2 && more == booked)
      && (WritesKept(l, req, survives) > 0 && KeyOf(req) in l.txs ==> l.txs[KeyOf(req)].status != Posted)
      && (booked != [] ==> WritesKept(l, req, survives) > 0)
  {
  }

  /** Whatever the crash points of whatever calls, a run keeps the ledger crash-safe. */
  lemma {:induction false} CrashSafeRun(l: Ledger, applied: seq<Entry>, calls: seq<Call>)
    requires CrashSafe(l, applied)
    ensures CrashSafe(RunCalls(l, calls), applied + AppliedRun(l, calls))
    decreases |calls|
  {
    if calls == [] {
      assert applied + [] == applied;
    } else {
      var req, n := calls[0].req, calls[0].survives;
      CrashSafeCall(l, applied, req, n);
      CrashSafeRun(Post(l, req, n).0, applied + Applied(l, req, n), calls[1..]);
      var rest := AppliedRun(Post(l, req, n).0, calls[1..]);
      assert applied + AppliedRun(l, calls) == applied + Applied(l, req, n) + rest;
    }
  }

  /** Once a transaction has an entry, no later run adds another, touches a balance for it, or changes its row. */
  lemma {:induction false} EntriesFixed(l: Ledger, calls: seq<Call>, k: TxKey)
    requires k in l.txs && EntriesOf(l.entries, k) != []
    ensures EntriesOf(RunCalls(l, calls).entries, k) == EntriesOf(l.entries, k)
    ensures EntriesOf(AppliedRun(l, calls), k) == []
    ensures k in RunCalls(l, calls).txs && RunCalls(l, calls).txs[k] == l.txs[k]
    decreases |calls|
  {
    if calls != [] {
      var req, n := calls[0].req, calls[0].survives;
      var l1 := Post(l, req, n).0;
      CallJournal(l, req, n);
      CallRows(l, req, n);
      PrefixAppended(l.entries, l, req, |Booked(l, req, n)|, k);
      PlanPrefixes(l, req, |Applied(l, req, n)|, k);
      EntriesFixed(l1, calls[1..], k);
      EntriesOfConcat(Applied(l, req, n), AppliedRun(l1, calls[1..]), k);
    }
  }

  /** Such a transaction, if it is not posted, stays so: after any run, any call for it is refused and changes nothing. */
  lemma StuckForever(l: Ledger, calls: seq<Call>, req: Request, survives: nat)
    requires KeyOf(req) in l.txs && l.txs[KeyOf(req)].status != Posted && EntriesOf(l.entries, KeyOf(req)) != []
    ensures Post(RunCalls(l, calls), req, survives) == (RunCalls(l, calls), Refused)
  {
    EntriesFixed(l, calls, KeyOf(req));
  }

  /** `es` is the source entry, or the source entry and the destination entry, of `req`. */
  predicate FromRequest(es: seq<Entry>, req: Request) {
    && 1 <= |es| <= 2
    && es[0].account == SourceKey(req) && es[0].amount == req.amount
    && (|es| == 2 ==> es[1].account == DestKey(req) && es[1].amount == req.amount)
  }

  lemma FirstBooked(l: Ledger, req: Request, survives: nat, k: TxKey)
    requires EntriesOf(l.entries, k) == []
    ensures var r := Post(l, req, survives).0;
      EntriesOf(r.entries, k) != [] ==>
        KeyOf(req) == k && k in r.txs && FromRequest(EntriesOf(r.entries, k), req)
  {
    CallJournal(l, req, survives);
    CallRows(l, req, survives);
    PrefixAppended(l.entries, l, req, |Booked(l, req, survives)|, k);
  }

  /** All entries of a transaction come from one single call of the run. */
  lemma {:induction false} EntriesFromOneCall(l: Ledger, calls: seq<Call>, k: TxKey) returns (i: nat)
    requires EntriesOf(l.entries, k) == [] && EntriesOf(RunCalls(l, calls).entries, k) != []
    ensures i < |calls| && KeyOf(calls[i].req) == k
    ensures FromRequest(EntriesOf(RunCalls(l, calls).entries, k), calls[i].req)
    decreases |calls|
  {
    assert calls != [];
    var req, n := calls[0].req, calls[0].survives;
    var l1 := Post(l, req, n).0;
    assert RunCalls(l, calls) == RunCalls(l1, calls[1..]);
    FirstBooked(l, req, n, k);
    if EntriesOf(l1.entries, k) == [] {
      var j := EntriesFromOneCall(l1, calls[1..], k);
      i := j + 1;
      assert calls[1..][j] == calls[i];
    } else {
      EntriesFixed(l1, calls[1..], k);
      i := 0;
    }
  }

  // ---------- The running balance against the journal ----------

  ghost predicate Agrees(l: Ledger) {
    forall a :: BalanceOf(l, a) == Net(l.entries, a)
  }

  /**
  One call keeps every balance equal to its journal exactly when its process does not die on the
  unprotected path between the first entry and the second balance update.
  */
  lemma AgreementExactly(l: Ledger, req: Request, survives: nat)
    requires Agrees(l)
    ensures var n := WritesKept(l, req, survives);
      Agrees(Post(l, req, survives).0) <==>
        (n < 3 || n > 5 || (n == 4 && SourceKey(req) == DestKey(req)))
  {
    var r := Post(l, req, survives).0;
    var n := WritesKept(l, req, survives);
    var plan, booked, more := Plan(l, req), Booked(l, req, survives), Applied(l, req, survives);
    CallJournal(l, req, survives);
    forall a ensures BalanceOf(r, a) - Net(r.entries, a) == Net(more, a) - Net(booked, a) {
      BumpAllIsNet(l.balances, more, a);
      NetConcat(l.entries, booked, a);
    }
    NetPlan(l, req);
    if n == 3 || n == 5 || n == 4 {
      assert BalanceOf(r, SourceKey(req)) - Net(r.entries, SourceKey(req)) == Net(more, SourceKey(req)) - Net(booked, SourceKey(req));
      assert BalanceOf(r, DestKey(req)) - Net(r.entries, DestKey(req)) == Net(more, DestKey(req)) - Net(booked, DestKey(req));
    }
  }

  lemma NetPlan(l: Ledger, req: Request)
    ensures var p := Plan(l, req);
      forall a ::
        && Net(p[..0], a) == 0
        && Net(p[..1], a) == (if p[0].account == a then Signed(p[0]) else 0)
        && Net(p[..2], a) == Net(p[..1], a) + (if p[1].account == a then Signed(p[1]) else 0)
    ensures SourceKey(req) == DestKey(req) ==> Signed(Plan(l, req)[0]) == -Signed(Plan(l, req)[1])
  {
    var p := Plan(l, req);
    assert p[..1][..0] == p[..0] == [];
    assert p[..2][..1] == p[..1];
  }

  /** A run whose processes all survive keeps every balance equal to its journal. */
  lemma {:induction false} BalancesAreJournal(l: Ledger, calls: seq<Call>)
    requires Agrees(l)
    requires forall i :: 0 <= i < |calls| ==> calls[i].survives >= FRESH_WRITES
    ensures Agrees(RunCalls(l, calls))
    decreases |calls|
  {
    if calls != [] {
      AgreementExactly(l, calls[0].req, calls[0].survives);
      BalancesAreJournal(Post(l, calls[0].req, calls[0].survives).0, calls[1..]);
    }
  }

  // ---------- Idempotent replay ----------

  /** No transaction row was left behind unposted. */
  predicate NoOrphans(l: Ledger) {
    forall k :: k in l.txs ==> l.txs[k].status == Posted
  }

  /** Read off the request alone. */
  predicate Acceptable(req: Request) {
    ValidInputs(req) && !SelfTransfer(req)
  }

  function RunOk(l: Ledger, reqs: seq<Request>): Ledger
    decreases |reqs|
  {
    if reqs == [] then l else RunOk(PostOk(l, reqs[0]).0, reqs[1..])
  }

  /** The first acceptable request for each key not seen yet, in order. */
  function FirstPerKey(reqs: seq<Request>, seen: set<TxKey>): seq<Request> {
    if reqs == [] then []
    else if Acceptable(reqs[0]) && KeyOf(reqs[0]) !in seen then
      [reqs[0]] + FirstPerKey(reqs[1..], seen + {KeyOf(reqs[0])})
    else FirstPerKey(reqs[1..], seen)
  }

  /** Without orphans a call either leaves the ledger as it is or posts a new transaction in full. */
  lemma CleanCall(l: Ledger, req: Request, survives: nat)
    requires NoOrphans(l)
    ensures var r := Post(l, req, survives).0;
      && NoOrphans(r)
      && (if KeyOf(req) !in l.txs && Acceptable(req) && survives >= FRESH_WRITES then
            && r.txs == l.txs[KeyOf(req) := LedgerTx(req.extId, Posted, None)]
            && r.entries == l.entries + Plan(l, req)
            && r.balances == BumpAll(l.balances, Plan(l, req))
            && r.types == ResolveBoth(l, req).types
          else r == l)
  {
    var p := Plan(l, req);
    assert p[..2] == p;
    assert Plan(CreateTx(l, req), req) == p;
    var t := LedgerTx(req.extId, Posted, None);
    assert l.txs[KeyOf(req) := LedgerTx(req.extId, Pending, None)][KeyOf(req) := t] == l.txs[KeyOf(req) := t];
  }

  /** A first posting that is not accepted leaves accounts, transactions, entries and balances alone. */
  lemma RefusedFreshPost(l: Ledger, req: Request, survives: nat)
    requires KeyOf(req) !in l.txs
    ensures Post(l, req, survives).1 != PostedOk ==> Post(l, req, survives).0 == l
    ensures Post(l, req, survives).1 == PostedOk <==> Acceptable(req) && survives >= FRESH_WRITES
  {
  }

  /** A request sequence has the effect of the first acceptable request for each key. */
  lemma {:induction false} ReplayEquivalence(l: Ledger, reqs: seq<Request>)
    requires NoOrphans(l)
    ensures RunOk(l, reqs) == RunOk(l, FirstPerKey(reqs, l.txs.Keys))
    ensures NoOrphans(RunOk(l, reqs))
    decreases |reqs|
  {
    if reqs != [] {
      CleanCall(l, reqs[0], FRESH_WRITES);
      var l1 := PostOk(l, reqs[0]).0;
      ReplayEquivalence(l1, reqs[1..]);
      if Acceptable(reqs[0]) && KeyOf(reqs[0]) !in l.txs {
        var rest := FirstPerKey(reqs[1..], l1.txs.Keys);
        assert l1.txs.Keys == l.txs.Keys + {KeyOf(reqs[0])};
        assert FirstPerKey(reqs, l.txs.Keys) == [reqs[0]] + rest;
        assert ([reqs[0]] + rest)[1..] == rest;
      }
    }
  }

  predicate DistinctAcceptable(kept: seq<Request>, seen: set<TxKey>) {
    && (forall i :: 0 <= i < |kept| ==> Acceptable(kept[i]) && KeyOf(kept[i]) !in seen)
    && (forall i, j :: 0 <= i < j < |kept| ==> KeyOf(kept[i]) != KeyOf(kept[j]))
  }

  /** The kept requests are acceptable and have distinct, unseen keys. */
  lemma {:induction false} FirstPerKeyDistinct(reqs: seq<Request>, seen: set<TxKey>)
    ensures DistinctAcceptable(FirstPerKey(reqs, seen), seen)
    decreases |reqs|
  {
    if reqs != [] {
      if Acceptable(reqs[0]) && KeyOf(reqs[0]) !in seen {
        var rest := FirstPerKey(reqs[1..], seen + {KeyOf(reqs[0])});
        FirstPerKeyDistinct(reqs[1..], seen + {KeyOf(reqs[0])});
        forall i | 0 <= i < |rest| ensures KeyOf(rest[i]) != KeyOf(reqs[0]) && KeyOf(rest[i]) !in seen {
        }
        assert DistinctAcceptable([reqs[0]] + rest, seen);
      } else {
        FirstPerKeyDistinct(reqs[1..], seen);
      }
    }
  }

  /** The first acceptable request for an unseen key is the one that is kept for it. */
  lemma {:induction false} FirstPerKeyCovers(reqs: seq<Request>, seen: set<TxKey>, n: nat)
    requires n < |reqs| && Acceptable(reqs[n]) && KeyOf(reqs[n]) !in seen
    requires forall m :: 0 <= m < n ==> !(Acceptable(reqs[m]) && KeyOf(reqs[m]) == KeyOf(reqs[n]))
    ensures reqs[n] in FirstPerKey(reqs, seen)
    decreases |reqs|
  {
    if n > 0 {
      var seen1 := if Acceptable(reqs[0]) && KeyOf(reqs[0]) !in seen then seen + {KeyOf(reqs[0])} else seen;
      forall m | 0 <= m < n - 1
        ensures !(Acceptable(reqs[1..][m]) && KeyOf(reqs[1..][m]) == KeyOf(reqs[n]))
      {
        assert reqs[1..][m] == reqs[m + 1];
      }
      FirstPerKeyCovers(reqs[1..], seen1, n - 1);
    }
  }

  /** Which calls of a run succeed, read off the requests alone. */
  lemma {:induction false} ReplayVerdicts(l: Ledger, reqs: seq<Request>, i: nat)
    requires NoOrphans(l) && i < |reqs|
    ensures PostOk(RunOk(l, reqs[..i]), reqs[i]).1 == PostedOk <==>
      ValidInputs(reqs[i]) && (KeyOf(reqs[i]) in l.txs || AcceptedBy(reqs, i, KeyOf(reqs[i])))
    decreases |reqs|
  {
    if i == 0 {
      assert reqs[..0] == [];
    } else {
      CleanCall(l, reqs[0], FRESH_WRITES);
      ReplayVerdicts(PostOk(l, reqs[0]).0, reqs[1..], i - 1);
      assert reqs[..i][1..] == reqs[1..][..i - 1];
      AcceptedLater(reqs, i, KeyOf(reqs[i]));
    }
  }

  /** One of the requests up to position `i` is acceptable and carries key `k`. */
  predicate AcceptedBy(reqs: seq<Request>, i: nat, k: TxKey)
    requires i < |reqs|
  {
    exists j :: 0 <= j <= i && Acceptable(reqs[j]) && KeyOf(reqs[j]) == k
  }

  lemma AcceptedLater(reqs: seq<Request>, i: nat, k: TxKey)
    requires 0 < i < |reqs|
    ensures AcceptedBy(reqs, i, k) <==>
      (Acceptable(reqs[0]) && KeyOf(reqs[0]) == k) || AcceptedBy(reqs[1..], i - 1, k)
  {
    if AcceptedBy(reqs, i, k) {
      var j :| 0 <= j <= i && Acceptable(reqs[j]) && KeyOf(reqs[j]) == k;
      if j > 0 { assert reqs[1..][j - 1] == reqs[j]; }
    }
    if AcceptedBy(reqs[1..], i - 1, k) {
      var j :| 0 <= j <= i - 1 && Acceptable(reqs[1..][j]) && KeyOf(reqs[1..][j]) == k;
      assert reqs[1..][j] == reqs[j + 1];
    }
  }

}
