/** Runs that show which hypothesis each protocol theorem needs. */
module CounterRuns {
  import opened Options
  import opened Outbox
  import opened Protocol
  import opened LedgerClient
  import opened Runs
  import ExactlyOnce
  import L = Ledger
  import LedgerRuns
  import Deliveries
  import CrossService
  import Backoff

  function Sample(kind: Kind, amount: int, idem: string): Params {
    Params("org", "sandbox", "acct", "acct", amount, "USD", kind, idem)
  }

  /** The row's request passes every check of the ledger but that of the key. */
  predicate Postable(id: nat, p: Params) {
    var req := RequestOf(id, p);
    WellFormed(p) && L.WellFormed(req) && LedgerRuns.Acceptable(req) && L.KeyOf(req) == TxKeyOf(p)
  }

  lemma SampleIsFine(kind: Kind, amount: int, idem: string, id: nat)
    requires kind != Transfer && amount > 0 && idem != ""
    ensures Postable(id, Sample(kind, amount, idem))
    ensures TxKeyOf(Sample(kind, amount, idem)) == L.TxKey("org", "sandbox", idem)
  {
    var p := Sample(kind, amount, idem);
    assert L.IsSystem(L.CASH);
    assert "acct"[0] != "SYSTEM_"[0];
    assert !L.IsSystem("acct");
  }

  /** The first posting of an acceptable request is confirmed, and books what the request says. */
  lemma FirstRpc(l: L.Ledger, req: L.Request)
    requires LedgerRuns.NoOrphans(l) && L.KeyOf(req) !in l.txs && L.WellFormed(req) && LedgerRuns.Acceptable(req)
    ensures L.Rpc(l, req).1 == L.PostedOk && LedgerRuns.NoOrphans(L.Rpc(l, req).0)
    ensures L.Rpc(l, req).0.entries == l.entries + L.Plan(l, req)
    ensures L.Rpc(l, req).0.txs == l.txs[L.KeyOf(req) := L.LedgerTx(req.extId, L.Posted, None)]
    ensures L.Rpc(l, req).0.balances == L.BumpAll(l.balances, L.Plan(l, req))
  {
    LedgerRuns.CleanCall(l, req, L.FRESH_WRITES);
  }

  /** A run from the empty system that leads to `s`. */
  ghost predicate Reached(cfg: Config, hyp: set<Hypothesis>, steps: seq<Step>, s: System) {
    && Legal(cfg, hyp, Init(0), steps) && Run(cfg, hyp, Init(0), steps) == s
    && |s.expiries| == |s.rows|
  }

  const ACCT := L.AccountKey("org", "sandbox", "acct", "USD")

  lemma CustomerAcct()
    ensures !L.IsSystem(ACCT.ext)
  {
    assert "acct"[0] != "SYSTEM_"[0];
  }

  /** A landing for the key of `p` adds the key, and to the sample account the share of `p`. */
  predicate Gains(l: L.Ledger, r: L.Ledger, p: Params) {
    && Deliveries.Clean(r) && r.txs.Keys == l.txs.Keys + {TxKeyOf(p)}
    && CustomerView(r, ACCT) == CustomerView(l, ACCT) + CrossService.Share(p, ACCT)
  }

  /** The request of a row or of a replay lands: its key is in, and the customers see its share. */
  lemma LandsOn(l: L.Ledger, id: nat, p: Params)
    requires Deliveries.Clean(l) && Postable(id, p) && TxKeyOf(p) !in l.txs
    ensures L.Rpc(l, RequestOf(id, p)).1 == L.PostedOk && Gains(l, L.Rpc(l, RequestOf(id, p)).0, p)
  {
    FirstRpc(l, RequestOf(id, p));
    ExactlyOnce.RpcOnRow(l, id, p);
    CustomerAcct();
    CrossService.PairIsShare(l, L.Rpc(l, RequestOf(id, p)).0, id, p, ACCT);
  }

  /** Two handlers hold the same row, the first one past its lease. */
  lemma TwoClaims(cfg: Config, hyp: set<Hypothesis>, p: Params) returns (x: seq<Step>, s: System)
    requires WellFormed(p) && !Debit(p)
    requires Timely !in hyp && (Paced in hyp ==> Millis(cfg.staleSecs) < cfg.perRowMs)
    ensures Reached(cfg, hyp, x, s) && |s.rows| == 1 && s.rows[0].p == p && s.ledger == L.EMPTY && |s.holders| == 2
    ensures forall h :: 0 <= h < 2 ==>
      var o := s.holders[h]; o.phase == Claimed && o.base == h && o.row == 0 && !o.worker && o.req == RequestOf(0, p)
  {
    x, s := HandlerHolds(cfg, hyp, p);
    x, s := Next(cfg, hyp, Init(0), x, s, Tick(Millis(cfg.staleSecs) + 1));
    x, s := Next(cfg, hyp, Init(0), x, s, ReconcileRequeue);
    assert s.rows[0].status == Pending;
    x, s := Next(cfg, hyp, Init(0), x, s, HandlerClaim(0, p));
  }

  lemma HandlerHolds(cfg: Config, hyp: set<Hypothesis>, p: Params) returns (x: seq<Step>, s: System)
    requires WellFormed(p) && !Debit(p) && Timely !in hyp
    ensures Reached(cfg, hyp, x, s) && s.rows == [TryClaim([FreshRow(p, 0)], 0, 0)[0]] && s.now == 0
    ensures s.ledger == L.EMPTY && s.holders == [Holder(0, RequestOf(0, p), false, 0, 0, 0, Claimed, 0)]
  {
    s, x := Init(0), [];
    x, s := Next(cfg, hyp, Init(0), x, s, Create(p, 0));
    assert s.rows == [FreshRow(p, 0)];
    x, s := Next(cfg, hyp, Init(0), x, s, HandlerClaim(0, p));
  }

  /**
  Without the lease bound: a holder whose lease expired writes its own failed call over the row
  that another holder has meanwhile posted.
  */
  lemma PostedRowOverwritten(cfg: Config) returns (before: seq<Step>, s: System, after: seq<Step>, t: System)
    ensures Reached(cfg, {Honest}, before, s) && Reached(cfg, {Honest}, after, t) && before <= after
    ensures |s.rows| == 1 && s.rows[0].status == Posted
    ensures |t.rows| == 1 && t.rows[0].status == Pending && ExactlyOnce.Landed(t.ledger, t.rows[0].p)
  {
    var p := Sample(Deposit, 100, "k");
    SampleIsFine(Deposit, 100, "k", 0);
    LandsOn(L.EMPTY, 0, p);
    var claimed: System;
    before, claimed := TwoClaims(cfg, {Honest}, p);
    before, s := FinishHolder(cfg, {Honest}, Init(0), before, claimed, 1, Answers, false, "");
    after, t := FinishHolder(cfg, {Honest}, Init(0), before, s, 0, Unreachable, false, TIMEOUT);
  }

  /** A handler posts a pending row for the first time, with the row's parameters or a replay's. */
  lemma HandlerPosts(cfg: Config, hyp: set<Hypothesis>, steps: seq<Step>, s: System, id: nat, p: Params)
    returns (more: seq<Step>, t: System)
    requires Reached(cfg, hyp, steps, s) && id < |s.rows| && s.rows[id].status == Pending
    requires Postable(id, p) && SameKey(s.rows[id].p, p) && (Honest in hyp ==> s.rows[id].p == p)
    requires Timely in hyp ==> cfg.perRowMs <= Millis(cfg.staleSecs)
    requires Deliveries.Clean(s.ledger) && TxKeyOf(p) !in s.ledger.txs
    ensures Reached(cfg, hyp, more, t) && steps <= more && |t.rows| == |s.rows|
    ensures t.rows == s.rows[id := t.rows[id]] && t.rows[id].status == Posted && t.rows[id].p == s.rows[id].p
    ensures Gains(s.ledger, t.ledger, p) && t.now == s.now
    ensures s.holders <= t.holders && |t.holders| == |s.holders| + 1 && !Live(t.holders[|s.holders|])
    ensures s.wire <= t.wire && t.checks == Watch(s.checks, t.rows)
  {
    LandsOn(s.ledger, id, p);
    more, t := HandlerFinishes(cfg, hyp, steps, s, id, p);
  }

  lemma HandlerFinishes(cfg: Config, hyp: set<Hypothesis>, steps: seq<Step>, s: System, id: nat, p: Params)
    returns (more: seq<Step>, t: System)
    requires Reached(cfg, hyp, steps, s) && id < |s.rows| && s.rows[id].status == Pending
    requires WellFormed(p) && SameKey(s.rows[id].p, p) && (Honest in hyp ==> s.rows[id].p == p)
    requires Timely in hyp ==> cfg.perRowMs <= Millis(cfg.staleSecs)
    requires L.Rpc(s.ledger, RequestOf(id, p)).1 == L.PostedOk
    ensures Reached(cfg, hyp, more, t) && steps <= more && |t.rows| == |s.rows|
    ensures t.rows == s.rows[id := t.rows[id]] && t.rows[id].status == Posted && t.rows[id].p == s.rows[id].p
    ensures t.ledger == L.Rpc(s.ledger, RequestOf(id, p)).0 && t.now == s.now
    ensures s.holders <= t.holders && |t.holders| == |s.holders| + 1 && !Live(t.holders[|s.holders|])
    ensures s.wire <= t.wire && t.checks == Watch(s.checks, t.rows)
  {
    var claimed: System;
    more, claimed := HandlerClaims(cfg, hyp, steps, s, id, p);
    more, t := FinishHolder(cfg, hyp, Init(0), more, claimed, |s.holders|, Answers, false, "");
  }

  lemma HandlerClaims(cfg: Config, hyp: set<Hypothesis>, steps: seq<Step>, s: System, id: nat, p: Params)
    returns (more: seq<Step>, t: System)
    requires Reached(cfg, hyp, steps, s) && id < |s.rows| && s.rows[id].status == Pending
    requires WellFormed(p) && SameKey(s.rows[id].p, p) && (Honest in hyp ==> s.rows[id].p == p)
    requires Timely in hyp ==> cfg.perRowMs <= Millis(cfg.staleSecs)
    ensures Reached(cfg, hyp, more, t) && steps <= more
    ensures var x := Holder(id, RequestOf(id, p), false, s.rows[id].retryCount, s.now, |s.holders|, Claimed, s.now);
      t == s.(rows := TryClaim(s.rows, id, s.now), holders := s.holders + [x])
  {
    more, t := Next(cfg, hyp, Init(0), steps, s, HandlerClaim(id, p));
  }

  /**
  Without honest replays: a replay with another amount makes the row posted while the ledger
  booked the other amount.
  */
  lemma MismatchedReplay(cfg: Config, hyp: set<Hypothesis>) returns (steps: seq<Step>, t: System)
    requires Honest !in hyp && (Timely in hyp ==> cfg.perRowMs <= Millis(cfg.staleSecs))
    ensures Reached(cfg, hyp, steps, t) && |t.rows| == 1 && t.rows[0].status == Posted && t.rows[0].p.amount == 100
    ensures |t.ledger.entries| == 2 && t.ledger.entries[0].amount == t.ledger.entries[1].amount == 5
  {
    var p, q := Sample(Deposit, 100, "k"), Sample(Deposit, 5, "k");
    SampleIsFine(Deposit, 100, "k", 0);
    SampleIsFine(Deposit, 5, "k", 0);
    var s: System;
    steps, s := Creates(cfg, hyp, p);
    FirstRpc(L.EMPTY, RequestOf(0, q));
    steps, t := HandlerFinishes(cfg, hyp, steps, s, 0, q);
  }

  /** The first row there is. */
  lemma Creates(cfg: Config, hyp: set<Hypothesis>, p: Params) returns (steps: seq<Step>, t: System)
    requires WellFormed(p) && !Debit(p)
    ensures Reached(cfg, hyp, steps, t) && t == Init(0).(rows := [FreshRow(p, 0)], expiries := [0])
  {
    steps, t := Next(cfg, hyp, Init(0), [], Init(0), Create(p, 0));
  }

  // ---------- A call that fails, and a row that ages out ----------

  predicate NoneLive(s: System) {
    forall h :: 0 <= h < |s.holders| ==> !Live(s.holders[h])
  }

  /** The worker claims one row, as the only claim there is. */
  lemma WorkerTakes(cfg: Config, hyp: set<Hypothesis>, steps: seq<Step>, s: System, id: nat)
    returns (more: seq<Step>, t: System)
    requires Reached(cfg, hyp, steps, s) && id < |s.rows| && cfg.limit >= 1
    requires Eligible(s.rows[id], s.now, cfg.olderSecs, None)
    requires Timely in hyp ==> cfg.perRowMs <= Millis(cfg.staleSecs)
    ensures Reached(cfg, hyp, more, t) && steps <= more
    ensures var x := Holder(id, RequestOf(id, s.rows[id].p), true, s.rows[id].retryCount + 1, s.now, |s.holders|, Claimed, s.now);
      t == s.(rows := s.rows[id := ClaimRow(s.rows[id], s.now)], holders := s.holders + [x])
  {
    assert 1 * cfg.perRowMs == cfg.perRowMs;
    OneClaimed(s.rows, id, s.now, |s.holders|);
    more, t := Next(cfg, hyp, Init(0), steps, s, WorkerClaim([id], None));
  }

  lemma OneClaimed(rows: seq<Row>, id: nat, now: int, base: nat)
    requires id < |rows|
    ensures ClaimAll(rows, [id], now) == rows[id := ClaimRow(rows[id], now)]
    ensures NewHolders(ClaimAll(rows, [id], now), [id], now, base)
         == [Holder(id, RequestOf(id, rows[id].p), true, rows[id].retryCount + 1, now, base, Claimed, now)]
  {
  }

  /** A retry after one failed attempt at `now` can be written down, or none is due. */
  predicate FirstRetryFits(cfg: Config, now: int) {
    cfg.maxAttempts <= 1 || Backoff.RetryTimeFor(Backoff.Min(cfg.baseMs, Backoff.U64_MAX), now).At?
  }

  /** What a failed call leaves of a row that was in posting. */
  predicate LeftOver(before: Row, after: Row) {
    && after.p == before.p && after.retryCount == before.retryCount && after.createdAt == before.createdAt
    && (after == before || after.status == Pending || after.status == Failed)
  }

  /** The worker's single call fails; the outcome is written down, or the worker dies of it. */
  lemma WorkerFails(
    cfg: Config, hyp: set<Hypothesis>, steps: seq<Step>, s: System, h: nat, d: Delivery)
    returns (more: seq<Step>, t: System)
    requires Reached(cfg, hyp, steps, s) && h + 1 == |s.holders| && !PostVia(s.ledger, s.holders[h].req, d).1
    requires var x := s.holders[h];
      && x.phase == Claimed && x.base == h && x.worker && x.row < |s.rows| && x.attempt == 1
    requires forall g :: 0 <= g < h ==> !Live(s.holders[g])
    requires Reliable in hyp ==> FirstRetryFits(cfg, s.now)
    ensures Reached(cfg, hyp, more, t) && steps <= more && NoneLive(t) && |t.rows| == |s.rows|
    ensures var x := s.holders[h]; t.rows == s.rows[x.row := t.rows[x.row]] && LeftOver(s.rows[x.row], t.rows[x.row])
    ensures t.ledger == PostVia(s.ledger, s.holders[h].req, d).0 && t.now == s.now
    ensures t.wire == s.wire + {s.holders[h].req} && (t.checks == s.checks || t.checks == Watch(s.checks, t.rows))
  {
    var x := s.holders[h];
    Backoff.FirstDelay(cfg.baseMs, cfg.maxMs);
    if FirstRetryFits(cfg, s.now) {
      more, t := FinishHolder(cfg, hyp, Init(0), steps, s, h, d, false, TIMEOUT);
    } else {
      var called: System;
      more, called := CallHolder(cfg, hyp, Init(0), steps, s, h, d);
      assert called.holders[h].phase == Answered(false);
      more, t := Next(cfg, hyp, Init(0), more, called, Crash(h));
    }
  }

  /** With nobody at work, a row with an attempt behind it is given up, however it was left. */
  lemma AgesOut(cfg: Config, hyp: set<Hypothesis>, steps: seq<Step>, s: System, id: nat)
    returns (more: seq<Step>, t: System)
    requires Reached(cfg, hyp, steps, s) && NoneLive(s) && id < |s.rows|
    requires s.rows[id].status != Posted && s.rows[id].retryCount >= 1
    requires s.rows[id].createdAt <= s.now && (s.rows[id].status == Posting ==> s.rows[id].updatedAt <= s.now)
    ensures Reached(cfg, hyp, more, t) && steps <= more && |t.rows| == |s.rows|
    ensures t.rows[id].status == Failed && t.rows[id].p == s.rows[id].p
    ensures forall i :: 0 <= i < |s.rows| && s.rows[i].status == Posted ==> t.rows[i] == s.rows[i]
    ensures t.ledger == s.ledger && t.holders == s.holders && t.wire == s.wire && t.checks == s.checks
  {
    var s1: System;
    more, s1 := Next(cfg, hyp, Init(0), steps, s, Tick(Millis(cfg.staleSecs) + Millis(cfg.pendingSecs) + 1));
    assert s1.rows == s.rows;
    more, t := Sweeps(cfg, hyp, more, s1);
  }

  /** Both statements of the reconciler. */
  lemma Sweeps(cfg: Config, hyp: set<Hypothesis>, steps: seq<Step>, s: System) returns (more: seq<Step>, t: System)
    requires Reached(cfg, hyp, steps, s)
    ensures Reached(cfg, hyp, more, t) && steps <= more
    ensures t.rows == SweepFail(SweepRequeue(s.rows, s.now, cfg.staleSecs), s.now, cfg.pendingSecs)
    ensures t == s.(rows := t.rows, expiries := t.expiries)
  {
    more, t := Next(cfg, hyp, Init(0), steps, s, ReconcileRequeue);
    more, t := Next(cfg, hyp, Init(0), more, t, ReconcileFail);
  }

  /**
  Under every hypothesis but that of reliability: the answer of a call that landed is lost, the row
  ages out, and a failed row has its full ledger effect. It takes no unreliability if the first
  retry time fits.
  */
  lemma FailedRowLanded(cfg: Config, hyp: set<Hypothesis>) returns (steps: seq<Step>, t: System)
    requires cfg.limit >= 1 && (Timely in hyp ==> cfg.perRowMs <= Millis(cfg.staleSecs))
    requires Reliable in hyp ==> FirstRetryFits(cfg, Millis(cfg.olderSecs) + 1)
    ensures Reached(cfg, hyp, steps, t)
    ensures |t.rows| == 1 && t.rows[0].status == Failed && ExactlyOnce.Landed(t.ledger, t.rows[0].p)
  {
    var p := Sample(Deposit, 100, "k");
    SampleIsFine(Deposit, 100, "k", 0);
    LandsOn(L.EMPTY, 0, p);
    var s: System;
    steps, s := TakenAlone(cfg, hyp, p);
    steps, t := LandsAndAges(cfg, hyp, steps, s, p);
  }

  lemma TakenAlone(cfg: Config, hyp: set<Hypothesis>, p: Params) returns (steps: seq<Step>, t: System)
    requires WellFormed(p) && !Debit(p) && cfg.limit >= 1 && (Timely in hyp ==> cfg.perRowMs <= Millis(cfg.staleSecs))
    ensures Reached(cfg, hyp, steps, t) && t.ledger == L.EMPTY && t.now == Millis(cfg.olderSecs) + 1
    ensures t.rows == [ClaimRow(FreshRow(p, 0), t.now)]
    ensures t.holders == [Holder(0, RequestOf(0, p), true, 1, t.now, 0, Claimed, t.now)]
  {
    var s: System;
    steps, s := Creates(cfg, hyp, p);
    steps, s := Next(cfg, hyp, Init(0), steps, s, Tick(Millis(cfg.olderSecs) + 1));
    steps, t := WorkerTakes(cfg, hyp, steps, s, 0);
  }

  lemma LandsAndAges(cfg: Config, hyp: set<Hypothesis>, steps: seq<Step>, s: System, p: Params)
    returns (more: seq<Step>, t: System)
    requires Reached(cfg, hyp, steps, s) && s.rows == [ClaimRow(FreshRow(p, 0), s.now)] && s.now >= 0
    requires s.holders == [Holder(0, RequestOf(0, p), true, 1, s.now, 0, Claimed, s.now)]
    requires TxKeyOf(p) in L.Rpc(s.ledger, RequestOf(0, p)).0.txs && (Reliable in hyp ==> FirstRetryFits(cfg, s.now))
    ensures Reached(cfg, hyp, more, t)
    ensures |t.rows| == 1 && t.rows[0].status == Failed && t.rows[0].p == p && ExactlyOnce.Landed(t.ledger, p)
  {
    var failed: System;
    more, failed := WorkerFails(cfg, hyp, steps, s, 0, ReplyLost);
    more, t := AgesOut(cfg, hyp, more, failed, 0);
  }

}
