/** A worker's batch in which every row takes as long as it may, and the last one outlives its lease. */
module Batches {
  import opened Options
  import opened Outbox
  import opened Protocol
  import opened LedgerClient
  import opened Runs
  import opened CounterRuns
  import opened Deliveries
  import CrossService
  import L = Ledger

  function Tag(n: nat): (s: string)
    ensures |s| == n + 1
  {
    seq(n + 1, _ => 'k')
  }

  /** The deposits that fill the batch; they are to another account. */
  function Nth(i: nat): Params {
    Params("org", "sandbox", "other", "other", 100, "USD", Deposit, Tag(i))
  }

  lemma NthIsFine(i: nat, id: nat)
    ensures Postable(id, Nth(i)) && !Debit(Nth(i)) && TxKeyOf(Nth(i)) == L.TxKey("org", "sandbox", Tag(i))
    ensures CrossService.Share(Nth(i), ACCT) == 0
  {
    assert L.IsSystem(L.CASH);
    assert "other"[0] != "SYSTEM_"[0];
    assert !L.IsSystem("other");
    assert "other"[0] != "acct"[0];
  }

  // ---------- The batch ----------

  /**
  The table starts with `first`, which the batch leaves alone, and goes on with `n` rows: deposits,
  and `last`. The account has the balance `view`, and the key `spare` is not used. The batch is
  claimed at `c`.
  */
  datatype Job = Job(first: seq<Row>, n: nat, last: Params, view: int, spare: L.TxKey, c: int)

  function Item(n: nat, last: Params, k: nat): Params {
    if k + 1 == n then last else Nth(k)
  }

  /** What is asked of the last row and of what is there before. */
  predicate Fine(job: Job) {
    && job.n >= 1 && Postable(|job.first| + job.n - 1, job.last)
    && (forall k :: 0 <= k < job.n - 1 ==> TxKeyOf(Nth(k)) != TxKeyOf(job.last) && TxKeyOf(Nth(k)) != job.spare)
  }

  /** The ledger lacks the keys of the rows from `j` on. */
  predicate Lacks(l: L.Ledger, job: Job, j: nat) {
    && Clean(l) && CustomerView(l, ACCT) == job.view && job.spare !in l.txs
    && forall k :: j <= k < job.n ==> TxKeyOf(Item(job.n, job.last, k)) !in l.txs
  }

  /** All rows of the batch are there, old enough in `wait` milliseconds. */
  predicate Waiting(s: System, job: Job, createdAt: int) {
    var b := |job.first|;
    && |s.rows| == |s.expiries| == b + job.n && |s.holders| == b && NoneLive(s)
    && s.rows[..b] == job.first && Lacks(s.ledger, job, 0) && createdAt <= s.now
    && forall i :: b <= i < b + job.n ==> s.rows[i] == FreshRow(Item(job.n, job.last, i - b), createdAt)
  }

  predicate Member(x: Holder, job: Job, k: nat, finished: bool) {
    var b := |job.first|;
    && x.row == b + k && x.req == RequestOf(b + k, Item(job.n, job.last, k)) && x.base == b && x.claimedAt == job.c
    && x.phase == (if finished then Finished else Claimed)
  }

  /** The last row of the batch, as the claim left it, and old. */
  predicate LastRow(cfg: Config, r: Row, job: Job) {
    && r.p == job.last && r.status == Posting && r.updatedAt == job.c && r.retryCount == 1
    && r.createdAt < job.c - Millis(cfg.pendingSecs)
  }

  predicate OnlyDeposits(rows: seq<Row>, job: Job) {
    var b := |job.first|;
    |rows| == b + job.n && forall i :: b <= i < b + job.n - 1 ==> rows[i].p == Nth(i - b)
  }

  /** The batch is claimed, and `j` of its rows have been worked off as slowly as allowed. */
  predicate Working(cfg: Config, s: System, job: Job, j: nat) {
    var b := |job.first|;
    && j < job.n && |s.rows| == |s.holders| == |s.expiries| == b + job.n
    && s.now == job.c + j * cfg.perRowMs && Lacks(s.ledger, job, j)
    && s.rows[..b] == job.first && LastRow(cfg, s.rows[b + job.n - 1], job) && OnlyDeposits(s.rows, job)
    && (forall h :: 0 <= h < b ==> !Live(s.holders[h]))
    && (forall h :: b <= h < b + job.n ==> Member(s.holders[h], job, h - b, h < b + j))
    && (j > 0 ==> s.holders[b + j - 1].doneAt == s.now)
  }

  function Ids(b: nat, n: nat): (r: seq<nat>)
    ensures |r| == n && forall i :: 0 <= i < n ==> r[i] == b + i
  {
    seq(n, i requires 0 <= i => b + i)
  }

  lemma BatchClaimed(cfg: Config, hyp: set<Hypothesis>, x: seq<Step>, s: System, job: Job, createdAt: int)
    returns (more: seq<Step>, t: System, job1: Job)
    requires Reached(cfg, hyp, x, s) && Waiting(s, job, createdAt) && Fine(job) && job.n <= cfg.limit && Timely !in hyp
    ensures job1 == job.(c := job1.c)
    ensures Reached(cfg, hyp, more, t) && Working(cfg, t, job1, 0) && x <= more
  {
    var wait := Millis(cfg.olderSecs) + Millis(cfg.pendingSecs) + 1;
    var later: System;
    more, later := Next(cfg, hyp, Init(0), x, s, Tick(wait));
    assert later == s.(now := s.now + wait);
    job1 := job.(c := later.now);
    more, t := ClaimsAll(cfg, hyp, more, later, job1, createdAt);
  }

  lemma ClaimsAll(cfg: Config, hyp: set<Hypothesis>, x: seq<Step>, s: System, job: Job, createdAt: int)
    returns (more: seq<Step>, t: System)
    requires Reached(cfg, hyp, x, s) && Waiting(s, job, createdAt) && Fine(job) && job.n <= cfg.limit && Timely !in hyp
    requires s.now == job.c && createdAt < job.c - Millis(cfg.olderSecs) && createdAt < job.c - Millis(cfg.pendingSecs)
    ensures Reached(cfg, hyp, more, t) && Working(cfg, t, job, 0) && x <= more
  {
    var b, ids := |job.first|, Ids(|job.first|, job.n);
    MayClaimAll(cfg, s, job, createdAt);
    more, t := Next(cfg, hyp, Init(0), x, s, WorkerClaim(ids, None));
    ClaimedRows(s, t, job, createdAt);
    ClaimedMembers(s, t, job);
    assert t.rows[b + job.n - 1] == ClaimRow(FreshRow(Item(job.n, job.last, job.n - 1), createdAt), job.c);
    assert 0 * cfg.perRowMs == 0;
  }

  lemma MayClaimAll(cfg: Config, s: System, job: Job, createdAt: int)
    requires Waiting(s, job, createdAt) && job.n <= cfg.limit && createdAt < s.now - Millis(cfg.olderSecs)
    ensures Enabled(cfg, s, WorkerClaim(Ids(|job.first|, job.n), None))
  {
    var b, ids := |job.first|, Ids(|job.first|, job.n);
    forall i | 0 <= i < |ids| ensures ids[i] < |s.rows| && Eligible(s.rows[ids[i]], s.now, cfg.olderSecs, None) {
      assert s.rows[b + i] == FreshRow(Item(job.n, job.last, i), createdAt);
    }
  }

  lemma ClaimedRows(s: System, t: System, job: Job, createdAt: int)
    requires Waiting(s, job, createdAt) && t.rows == ClaimAll(s.rows, Ids(|job.first|, job.n), job.c)
    ensures t.rows[..|job.first|] == job.first
    ensures forall i :: |job.first| <= i < |job.first| + job.n ==>
      t.rows[i] == ClaimRow(FreshRow(Item(job.n, job.last, i - |job.first|), createdAt), job.c)
  {
    var b, ids := |job.first|, Ids(|job.first|, job.n);
    forall i | b <= i < b + job.n ensures t.rows[i] == ClaimRow(FreshRow(Item(job.n, job.last, i - b), createdAt), job.c) {
      assert ids[i - b] == i;
    }
    assert t.rows[..b] == s.rows[..b];
  }

  lemma ClaimedMembers(s: System, t: System, job: Job)
    requires |s.holders| == |job.first| && |t.rows| == |job.first| + job.n
    requires forall i :: |job.first| <= i < |job.first| + job.n ==> t.rows[i].p == Item(job.n, job.last, i - |job.first|)
    requires t.holders == s.holders + NewHolders(t.rows, Ids(|job.first|, job.n), job.c, |job.first|)
    ensures forall h :: |job.first| <= h < |job.first| + job.n ==> Member(t.holders[h], job, h - |job.first|, false)
  {
    var b, ids := |job.first|, Ids(|job.first|, job.n);
    forall h | b <= h < b + job.n ensures Member(t.holders[h], job, h - b, false) {
      assert t.holders[h] == NewHolders(t.rows, ids, job.c, b)[h - b] && ids[h - b] == h;
    }
  }

  /** The holder whose turn it is. */
  lemma MemberTurn(cfg: Config, s: System, job: Job, j: nat)
    requires Working(cfg, s, job, j)
    ensures var h := |job.first| + j;
      h < |s.holders| && Member(s.holders[h], job, j, false) && Turn(s, h) && StartOf(s, h) == s.now
  {
    var b := |job.first|;
    assert Member(s.holders[b + j], job, b + j - b, false);
    if j > 0 { assert Member(s.holders[b + j - 1], job, b + j - 1 - b, true); }
    if j == 0 { assert j * cfg.perRowMs == 0; }
  }

  /** Only that holder bounds the clock. */
  lemma MayTick(cfg: Config, s: System, job: Job, j: nat, d: nat)
    requires Working(cfg, s, job, j) && d <= cfg.perRowMs
    ensures PacedStep(cfg, s, Tick(d))
  {
    var b := |job.first|;
    MemberTurn(cfg, s, job, j);
    forall h | 0 <= h < |s.holders| && Live(s.holders[h]) && Turn(s, h) ensures h == b + j {
      OnlyTurn(cfg, s, job, j, h);
    }
  }

  lemma OnlyTurn(cfg: Config, s: System, job: Job, j: nat, h: nat)
    requires Working(cfg, s, job, j) && h < |s.holders| && Live(s.holders[h]) && Turn(s, h)
    ensures h == |job.first| + j
  {
    var b := |job.first|;
    assert h >= b;
    assert Member(s.holders[h], job, h - b, h < b + j);
    if h > b { assert Member(s.holders[h - 1], job, h - 1 - b, h - 1 < b + j); }
  }

  lemma Ticks(cfg: Config, hyp: set<Hypothesis>, x: seq<Step>, s: System, d: nat) returns (more: seq<Step>, t: System)
    requires Reached(cfg, hyp, x, s) && Timely !in hyp && PacedStep(cfg, s, Tick(d))
    ensures Reached(cfg, hyp, more, t) && t == s.(now := s.now + d) && x <= more
  {
    more, t := Next(cfg, hyp, Init(0), x, s, Tick(d));
  }

  lemma OneMore(cfg: Config, hyp: set<Hypothesis>, x: seq<Step>, s: System, job: Job, j: nat)
    returns (more: seq<Step>, t: System)
    requires Reached(cfg, hyp, x, s) && Working(cfg, s, job, j) && Fine(job) && j + 1 < job.n && Timely !in hyp
    ensures Reached(cfg, hyp, more, t) && Working(cfg, t, job, j + 1) && x <= more
  {
    var later: System;
    more, later := TakesItsTime(cfg, hyp, x, s, job, j);
    more, t := MemberPosts(cfg, hyp, more, later, |job.first| + j, Nth(j));
    MemberDone(cfg, s, t, job, j);
  }

  lemma TakesItsTime(cfg: Config, hyp: set<Hypothesis>, x: seq<Step>, s: System, job: Job, j: nat)
    returns (more: seq<Step>, t: System)
    requires Reached(cfg, hyp, x, s) && Working(cfg, s, job, j) && j + 1 < job.n && Timely !in hyp
    ensures Reached(cfg, hyp, more, t) && x <= more && t == s.(now := s.now + cfg.perRowMs)
    ensures var h := |job.first| + j;
      && h < |t.holders| && t.holders[h].phase == Claimed && Turn(t, h) && t.holders[h].row == h
      && t.holders[h].req == RequestOf(h, Nth(j)) && Postable(h, Nth(j)) && TxKeyOf(Nth(j)) !in t.ledger.txs
      && Clean(t.ledger)
  {
    MayTick(cfg, s, job, j, cfg.perRowMs);
    MayPost(cfg, s, job, j);
    more, t := Ticks(cfg, hyp, x, s, cfg.perRowMs);
  }

  lemma MayPost(cfg: Config, s: System, job: Job, j: nat)
    requires Working(cfg, s, job, j) && j + 1 < job.n
    ensures var h := |job.first| + j;
      && h < |s.holders| && s.holders[h].phase == Claimed && Turn(s, h) && s.holders[h].row == h
      && s.holders[h].req == RequestOf(h, Nth(j)) && Postable(h, Nth(j)) && TxKeyOf(Nth(j)) !in s.ledger.txs
  {
    MemberTurn(cfg, s, job, j);
    NthIsFine(j, |job.first| + j);
    assert Item(job.n, job.last, j) == Nth(j);
  }

  lemma MemberPosts(cfg: Config, hyp: set<Hypothesis>, x: seq<Step>, s: System, h: nat, p: Params)
    returns (more: seq<Step>, t: System)
    requires Reached(cfg, hyp, x, s) && h < |s.holders| && s.holders[h].phase == Claimed && Turn(s, h)
    requires s.holders[h].req == RequestOf(s.holders[h].row, p) && Postable(s.holders[h].row, p)
    requires Clean(s.ledger) && TxKeyOf(p) !in s.ledger.txs
    ensures Reached(cfg, hyp, more, t) && x <= more && t.now == s.now && t.expiries == s.expiries
    ensures t.rows == UpdateStatus(s.rows, s.holders[h].row, Posted, None, s.now)
    ensures Gains(s.ledger, t.ledger, p)
    ensures t.holders == s.holders[h := s.holders[h].(phase := Finished, doneAt := s.now)]
  {
    LandsOn(s.ledger, s.holders[h].row, p);
    more, t := FinishHolder(cfg, hyp, Init(0), x, s, h, Answers, false, "");
  }

  lemma MemberDone(cfg: Config, s: System, t: System, job: Job, j: nat)
    requires Working(cfg, s, job, j) && j + 1 < job.n
    requires Gains(s.ledger, t.ledger, Nth(j)) && Fine(job)
    requires t.now == s.now + cfg.perRowMs && |t.expiries| == |t.rows| == |s.rows|
    requires t.rows == UpdateStatus(s.rows, |job.first| + j, Posted, None, t.now)
    requires var h := |job.first| + j; t.holders == s.holders[h := s.holders[h].(phase := Finished, doneAt := t.now)]
    ensures Working(cfg, t, job, j + 1)
  {
    assert (j + 1) * cfg.perRowMs == j * cfg.perRowMs + cfg.perRowMs;
    MembersDone(cfg, s, t, job, j);
    assert t.rows[..|job.first|] == s.rows[..|job.first|];
    LedgerDone(s.ledger, t.ledger, job, j);
  }

  lemma MembersDone(cfg: Config, s: System, t: System, job: Job, j: nat)
    requires Working(cfg, s, job, j) && j + 1 < job.n
    requires var h := |job.first| + j; t.holders == s.holders[h := s.holders[h].(phase := Finished, doneAt := t.now)]
    ensures forall h :: 0 <= h < |job.first| ==> !Live(t.holders[h])
    ensures forall h :: |job.first| <= h < |job.first| + job.n ==>
      Member(t.holders[h], job, h - |job.first|, h < |job.first| + (j + 1))
    ensures t.holders[|job.first| + j].doneAt == t.now
  {
    var b := |job.first|;
    forall h | b <= h < b + job.n ensures Member(t.holders[h], job, h - b, h < b + (j + 1)) {
      assert Member(s.holders[h], job, h - b, h < b + j);
    }
  }

  lemma LedgerDone(l: L.Ledger, r: L.Ledger, job: Job, j: nat)
    requires Lacks(l, job, j) && j + 1 < job.n && Fine(job) && Gains(l, r, Nth(j))
    ensures Lacks(r, job, j + 1)
  {
    NthIsFine(j, 0);
    forall k | j + 1 <= k < job.n ensures TxKeyOf(Item(job.n, job.last, k)) != TxKeyOf(Nth(j)) {
      OtherKey(job, j, k);
    }
    LacksNext(l, r, job, j, TxKeyOf(Nth(j)));
  }

  lemma LacksNext(l: L.Ledger, r: L.Ledger, job: Job, j: nat, key: L.TxKey)
    requires Lacks(l, job, j) && Clean(r) && CustomerView(r, ACCT) == CustomerView(l, ACCT)
    requires r.txs.Keys == l.txs.Keys + {key}
    requires key != job.spare && forall k :: j + 1 <= k < job.n ==> TxKeyOf(Item(job.n, job.last, k)) != key
    ensures Lacks(r, job, j + 1)
  {
    assert job.spare !in r.txs.Keys;
    forall k | j + 1 <= k < job.n ensures TxKeyOf(Item(job.n, job.last, k)) !in r.txs.Keys { }
  }

  lemma OtherKey(job: Job, j: nat, k: nat)
    requires Fine(job) && j < k < job.n
    ensures TxKeyOf(Item(job.n, job.last, k)) != TxKeyOf(Nth(j))
  {
    if k + 1 < job.n {
      assert |Tag(k)| != |Tag(j)|;
      NthIsFine(k, 0);
      NthIsFine(j, 0);
    }
  }

  /** All rows but the last are worked off. */
  lemma {:induction false} AllButOne(cfg: Config, hyp: set<Hypothesis>, x: seq<Step>, s: System, job: Job, j: nat)
    returns (more: seq<Step>, t: System)
    requires Reached(cfg, hyp, x, s) && Working(cfg, s, job, j) && Fine(job) && Timely !in hyp
    ensures Reached(cfg, hyp, more, t) && Working(cfg, t, job, job.n - 1) && x <= more
    decreases job.n - j
  {
    if j + 1 == job.n {
      more, t := x, s;
    } else {
      var y, u := OneMore(cfg, hyp, x, s, job, j);
      more, t := AllButOne(cfg, hyp, y, u, job, j + 1);
    }
  }

  /** And the last one's lease runs out within its turn. */
  lemma LastIsStale(cfg: Config, hyp: set<Hypothesis>, x: seq<Step>, s: System, job: Job)
    returns (more: seq<Step>, t: System)
    requires Reached(cfg, hyp, x, s) && job.n >= 1 && Working(cfg, s, job, job.n - 1) && Timely !in hyp
    requires Millis(cfg.staleSecs) < job.n * cfg.perRowMs
    ensures Reached(cfg, hyp, more, t) && x <= more && t == s.(now := t.now)
    ensures Stale(t.rows[|job.first| + job.n - 1], t.now, cfg.staleSecs) && job.c <= t.now
  {
    var gap := Millis(cfg.staleSecs) + 1 - (job.n - 1) * cfg.perRowMs;
    assert job.n * cfg.perRowMs == (job.n - 1) * cfg.perRowMs + cfg.perRowMs;
    assert (job.n - 1) * cfg.perRowMs >= 0;
    var d := if gap < 0 then 0 else gap;
    MayTick(cfg, s, job, job.n - 1, d);
    more, t := Ticks(cfg, hyp, x, s, d);
  }

  // ---------- Filling the table ----------

  function Deposits(n: nat, createdAt: int): (r: seq<Row>)
    ensures |r| == n && forall k :: 0 <= k < n ==> r[k] == FreshRow(Nth(k), createdAt)
  {
    seq(n, k requires 0 <= k => FreshRow(Nth(k), createdAt))
  }

  predicate NoTag(rows: seq<Row>, n: nat) {
    forall i, k :: 0 <= i < |rows| && 0 <= k < n ==> !SameKey(rows[i].p, Nth(k))
  }

  /** `n` deposits are created at one instant. */
  lemma {:induction false} Filled(cfg: Config, hyp: set<Hypothesis>, x: seq<Step>, s: System, n: nat)
    returns (more: seq<Step>, t: System)
    requires Reached(cfg, hyp, x, s) && NoTag(s.rows, n) && s.checks == []
    ensures Reached(cfg, hyp, more, t) && x <= more
    ensures t.rows == s.rows + Deposits(n, s.now) && t == s.(rows := t.rows, expiries := t.expiries)
  {
    if n == 0 {
      more, t := x, s;
    } else {
      var y, u := Filled(cfg, hyp, x, s, n - 1);
      more, t := OneDeposit(cfg, hyp, y, u, s.rows, n - 1);
      assert Deposits(n, s.now) == Deposits(n - 1, s.now) + [FreshRow(Nth(n - 1), s.now)];
    }
  }

  lemma OneDeposit(cfg: Config, hyp: set<Hypothesis>, x: seq<Step>, s: System, first: seq<Row>, n: nat)
    returns (more: seq<Step>, t: System)
    requires Reached(cfg, hyp, x, s) && s.rows == first + Deposits(n, s.now) && NoTag(first, n + 1) && s.checks == []
    ensures Reached(cfg, hyp, more, t) && x <= more
    ensures t.rows == s.rows + [FreshRow(Nth(n), s.now)] && t == s.(rows := t.rows, expiries := t.expiries)
  {
    NthIsFine(n, n);
    NotFound(first, n, s.now);
    more, t := Next(cfg, hyp, Init(0), x, s, Create(Nth(n), 0));
  }

  lemma NotFound(first: seq<Row>, n: nat, now: int)
    requires NoTag(first, n + 1)
    ensures Find(first + Deposits(n, now), Nth(n)) == |first| + n
  {
    var rows := first + Deposits(n, now);
    forall i | 0 <= i < |rows| ensures !SameKey(rows[i].p, Nth(n)) {
      if i >= |first| { assert rows[i] == Deposits(n, now)[i - |first|]; }
    }
  }

}
