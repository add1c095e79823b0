/**
When an account can be overdrawn: runs that do it when one of the conditions of `Overdraft.NoOverdraft`
is missing, and the theorem that there are none otherwise.
*/
module OverdraftRuns {
  import opened Outbox
  import opened Protocol
  import opened LedgerClient
  import opened Runs
  import opened CounterRuns
  import opened Batches
  import opened Deliveries
  import CrossService
  import LeaseBound
  import Overdraft
  import L = Ledger

  /** What a read for `p` finds covers it. */
  predicate Covers(l: L.Ledger, p: Params) {
    -L.BalanceRead(l, AccountOf(p, p.from)) >= p.amount
  }

  predicate InTime(cfg: Config, hyp: set<Hypothesis>) {
    Timely in hyp ==> cfg.perRowMs <= Millis(cfg.staleSecs)
  }

  // ---------- Samples ----------

  function Deposit100(): Params {
    Sample(Deposit, 100, "0")
  }

  function WithdrawOne(amount: int): Params {
    Sample(Withdraw, amount, "1")
  }

  function WithdrawTwo(): Params {
    Sample(Withdraw, 100, "2")
  }

  /** A withdrawal from the sample account, under its own key, can be posted as row `id`. */
  predicate SampleDebit(p: Params, id: nat, amount: int) {
    && Postable(id, p) && Debit(p) && p.amount == amount && AccountOf(p, p.from) == ACCT
    && CrossService.Share(p, ACCT) == -amount
  }

  predicate KeysApart(p: Params, q: Params) {
    !SameKey(p, q) && TxKeyOf(p) != TxKeyOf(q)
  }

  lemma SampleDebits(amount: int, id: nat)
    requires amount > 0
    ensures SampleDebit(WithdrawOne(amount), id, amount)
  {
    SampleIsFine(Withdraw, amount, "1", id);
  }

  lemma SecondDebit(id: nat)
    ensures SampleDebit(WithdrawTwo(), id, 100)
  {
    SampleIsFine(Withdraw, 100, "2", id);
  }

  lemma SampleKeys(amount: int)
    requires amount > 0
    ensures KeysApart(Deposit100(), WithdrawOne(amount)) && KeysApart(Deposit100(), WithdrawTwo())
    ensures KeysApart(WithdrawOne(amount), WithdrawTwo()) && SameKey(WithdrawOne(100), WithdrawOne(amount))
  {
  }

  /** The account's deposit is posted and nothing else is there. */
  predicate FundedBy(s: System, first: Params) {
    && |s.rows| == |s.holders| == |s.expiries| == 1 && NoneLive(s) && s.checks == []
    && s.rows[0].p == first && s.rows[0].status == Posted && !Debit(first)
    && Clean(s.ledger) && s.ledger.txs.Keys == {TxKeyOf(first)} && CustomerView(s.ledger, ACCT) == 100
  }

  predicate Funded(s: System) {
    FundedBy(s, Deposit100())
  }

  lemma Funds(cfg: Config, hyp: set<Hypothesis>) returns (x: seq<Step>, s: System)
    requires InTime(cfg, hyp)
    ensures Reached(cfg, hyp, x, s) && Funded(s) && s.now == 0
  {
    var p := Deposit100();
    SampleIsFine(Deposit, 100, "0", 0);
    var created: System;
    x, created := Creates(cfg, hyp, p);
    x, s := HandlerPosts(cfg, hyp, x, created, 0, p);
    FundedView(created.ledger, s.ledger);
  }

  lemma FundedView(l: L.Ledger, r: L.Ledger)
    requires l == L.EMPTY && Gains(l, r, Deposit100())
    ensures CustomerView(r, ACCT) == 100 && r.txs.Keys == {TxKeyOf(Deposit100())}
  {
  }

  /** In a clean ledger a read shows the balance. */
  lemma ReadIsBalance(l: L.Ledger, p: Params, amount: int)
    requires Clean(l) && SampleDebit(p, 0, amount) && CustomerView(l, ACCT) >= amount
    ensures Covers(l, p)
  {
  }

  // ---------- Reads and inserts ----------

  /** A handler finds no row for its debit and reads a balance that covers it. */
  lemma Reads(cfg: Config, hyp: set<Hypothesis>, steps: seq<Step>, s: System, p: Params)
    returns (more: seq<Step>, t: System)
    requires Reached(cfg, hyp, steps, s) && WellFormed(p) && Debit(p) && Covers(s.ledger, p)
    requires forall i :: 0 <= i < |s.rows| ==> !SameKey(s.rows[i].p, p)
    ensures Reached(cfg, hyp, more, t) && more == steps + [ReadBalance(p)]
    ensures |t.checks| == |s.checks| + 1 && t.checks[..|s.checks|] == s.checks && Passed(t.checks, p, |s.checks|)
    ensures t.checks[|s.checks|].clear == NoDebitOutstanding(s.rows, AccountOf(p, p.from))
    ensures t == s.(checks := t.checks)
  {
    more, t := Next(cfg, hyp, Init(0), steps, s, ReadBalance(p));
  }

  /** A handler inserts the row its read number `c` was for. */
  lemma Inserts(cfg: Config, hyp: set<Hypothesis>, steps: seq<Step>, s: System, p: Params, c: nat)
    returns (more: seq<Step>, t: System)
    requires Reached(cfg, hyp, steps, s) && WellFormed(p) && Debit(p) && Passed(s.checks, p, c)
    requires Prudent in hyp ==> s.checks[c].clear
    requires forall i :: 0 <= i < |s.rows| ==> !SameKey(s.rows[i].p, p)
    ensures Reached(cfg, hyp, more, t) && more == steps + [Create(p, c)]
    ensures t.rows == s.rows + [FreshRow(p, s.now)]
    ensures t == s.(rows := t.rows, expiries := t.expiries, checks := Watch(s.checks, t.rows))
  {
    more, t := Next(cfg, hyp, Init(0), steps, s, Create(p, c));
  }

  lemma ReadsAndInserts(cfg: Config, hyp: set<Hypothesis>, steps: seq<Step>, s: System, p: Params)
    returns (more: seq<Step>, t: System)
    requires Reached(cfg, hyp, steps, s) && WellFormed(p) && Debit(p) && Covers(s.ledger, p)
    requires NoDebitOutstanding(s.rows, AccountOf(p, p.from))
    requires forall i :: 0 <= i < |s.rows| ==> !SameKey(s.rows[i].p, p)
    ensures Reached(cfg, hyp, more, t) && steps <= more
    ensures t.rows == s.rows + [FreshRow(p, s.now)]
    ensures t == s.(rows := t.rows, expiries := t.expiries, checks := t.checks)
  {
    var read: System;
    more, read := Reads(cfg, hyp, steps, s, p);
    more, t := Inserts(cfg, hyp, more, read, p, |s.checks|);
  }

  /** A debit is admitted and posted while nothing else is outstanding. */
  lemma AdmitsAndPosts(cfg: Config, hyp: set<Hypothesis>, steps: seq<Step>, s: System, p: Params)
    returns (more: seq<Step>, t: System)
    requires Reached(cfg, hyp, steps, s) && InTime(cfg, hyp) && SampleDebit(p, |s.rows|, p.amount)
    requires Clean(s.ledger) && CustomerView(s.ledger, ACCT) >= p.amount && TxKeyOf(p) !in s.ledger.txs
    requires NoDebitOutstanding(s.rows, ACCT) && forall i :: 0 <= i < |s.rows| ==> !SameKey(s.rows[i].p, p)
    ensures Reached(cfg, hyp, more, t) && steps <= more
    ensures Gains(s.ledger, t.ledger, p) && s.holders <= t.holders && s.wire <= t.wire
  {
    var created: System;
    more, created := ReadsAndInserts(cfg, hyp, steps, s, p);
    more, t := HandlerPosts(cfg, hyp, more, created, |s.rows|, p);
  }

  /** A request still on its way lands. */
  lemma LandsLate(cfg: Config, hyp: set<Hypothesis>, steps: seq<Step>, s: System, id: nat, p: Params)
    returns (more: seq<Step>, t: System)
    requires Reached(cfg, hyp, steps, s) && Postable(id, p) && RequestOf(id, p) in s.wire
    requires PromptStep(s, Land(RequestOf(id, p))) || Prompt !in hyp
    requires Clean(s.ledger) && TxKeyOf(p) !in s.ledger.txs
    ensures Reached(cfg, hyp, more, t) && Gains(s.ledger, t.ledger, p)
  {
    LandsOn(s.ledger, id, p);
    more, t := Next(cfg, hyp, Init(0), steps, s, Land(RequestOf(id, p)));
  }

  // ---------- A replay with other parameters ----------

  /**
  Without honest replays: a pending withdrawal of 100 is replayed under its key with 1000. The row
  is there, so the balance is not looked at again, and the handler posts what was asked for.
  */
  lemma ReplayOverdraws(cfg: Config, hyp: set<Hypothesis>) returns (steps: seq<Step>, t: System)
    requires Honest !in hyp && InTime(cfg, hyp)
    ensures Reached(cfg, hyp, steps, t) && CustomerView(t.ledger, ACCT) == -900
  {
    var s: System;
    steps, s := Funds(cfg, hyp);
    BothCovered(s);
    assert SampleDebit(WithdrawOne(100), 1, 100);
    assert TxKeyOf(WithdrawOne(1000)) == TxKeyOf(WithdrawOne(100));
    SampleDebits(1000, 1);
    SampleKeys(1000);
    steps, t := Replayed(cfg, hyp, steps, s, Deposit100(), WithdrawOne(100), WithdrawOne(1000));
  }

  lemma Replayed(cfg: Config, hyp: set<Hypothesis>, steps: seq<Step>, s: System, first: Params, q: Params, replay: Params)
    returns (more: seq<Step>, t: System)
    requires Honest !in hyp && InTime(cfg, hyp) && Reached(cfg, hyp, steps, s) && FundedBy(s, first)
    requires Covers(s.ledger, q) && KeysApart(first, q) && WellFormed(q) && Debit(q) && SameKey(q, replay)
    requires AccountOf(q, q.from) == ACCT && SampleDebit(replay, 1, 1000) && TxKeyOf(replay) !in s.ledger.txs
    ensures Reached(cfg, hyp, more, t) && CustomerView(t.ledger, ACCT) == -900
  {
    var created: System;
    more, created := ReadsAndInserts(cfg, hyp, steps, s, q);
    more, t := HandlerPosts(cfg, hyp, more, created, 1, replay);
  }

  // ---------- Two debits admitted against one balance ----------

  /** Two handlers read the same balance, each for its own debit. */
  lemma ReadsBoth(cfg: Config, hyp: set<Hypothesis>, steps: seq<Step>, s: System, q: Params, r: Params)
    returns (more: seq<Step>, t: System)
    requires Reached(cfg, hyp, steps, s) && s.checks == []
    requires WellFormed(q) && WellFormed(r) && Debit(q) && Debit(r) && Covers(s.ledger, q) && Covers(s.ledger, r)
    requires forall i :: 0 <= i < |s.rows| ==> !SameKey(s.rows[i].p, q) && !SameKey(s.rows[i].p, r)
    ensures Reached(cfg, hyp, more, t) && more == steps + [ReadBalance(q), ReadBalance(r)]
    ensures t == s.(checks := t.checks) && Passed(t.checks, q, 0) && Passed(t.checks, r, 1)
  {
    var x: seq<Step>, read: System;
    x, read := Reads(cfg, hyp, steps, s, q);
    more, t := Reads(cfg, hyp, x, read, r);
    assert t.checks[0] == read.checks[0];
  }

  /** A debit and its read, inserted and posted. */
  lemma InsertsAndPosts(cfg: Config, hyp: set<Hypothesis>, steps: seq<Step>, s: System, p: Params, c: nat)
    returns (more: seq<Step>, t: System)
    requires Prudent !in hyp && Reached(cfg, hyp, steps, s) && InTime(cfg, hyp) && SampleDebit(p, |s.rows|, p.amount)
    requires Passed(s.checks, p, c) && Clean(s.ledger) && TxKeyOf(p) !in s.ledger.txs
    requires forall i :: 0 <= i < |s.rows| ==> !SameKey(s.rows[i].p, p)
    ensures Reached(cfg, hyp, more, t) && steps + [Create(p, c)] <= more && Gains(s.ledger, t.ledger, p)
    ensures |t.rows| == |s.rows| + 1 && t.rows[..|s.rows|] == s.rows
    ensures t.rows[|s.rows|].p == p && t.rows[|s.rows|].status == Posted
    ensures t.checks == Watch(Watch(s.checks, s.rows + [FreshRow(p, s.now)]), t.rows)
  {
    var x: seq<Step>, created: System;
    x, created := Inserts(cfg, hyp, steps, s, p, c);
    more, t := HandlerPosts(cfg, hyp, x, created, |s.rows|, p);
    assert t.rows[..|s.rows|] == created.rows[..|s.rows|] == s.rows;
  }

  /** What the two withdrawals need of a funded state. */
  lemma BothCovered(s: System)
    requires Funded(s)
    ensures var q, r := WithdrawOne(100), WithdrawTwo();
      && (forall id: nat :: SampleDebit(q, id, 100) && SampleDebit(r, id, 100))
      && Covers(s.ledger, q) && Covers(s.ledger, r) && KeysApart(q, r)
      && KeysApart(s.rows[0].p, q) && KeysApart(s.rows[0].p, r)
      && TxKeyOf(q) !in s.ledger.txs && TxKeyOf(r) !in s.ledger.txs && NoDebitOutstanding(s.rows, ACCT)
  {
    forall id: nat ensures SampleDebit(WithdrawOne(100), id, 100) && SampleDebit(WithdrawTwo(), id, 100) {
      SampleDebits(100, id);
      SecondDebit(id);
    }
    SampleKeys(100);
    ReadIsBalance(s.ledger, WithdrawOne(100), 100);
    ReadIsBalance(s.ledger, WithdrawTwo(), 100);
    assert TxKeyOf(WithdrawOne(100)) !in s.ledger.txs.Keys && TxKeyOf(WithdrawTwo()) !in s.ledger.txs.Keys;
  }

  /**
  Without prudent admission: two withdrawals of 100, both admitted while the balance is 100 and both
  inserted before either is posted, leave the account at -100.
  */
  lemma TwoWithdrawalsOverdraw(cfg: Config, hyp: set<Hypothesis>)
    returns (before: seq<Step>, s: System, after: seq<Step>, t: System)
    requires Prudent !in hyp && InTime(cfg, hyp)
    ensures var q, r := WithdrawOne(100), WithdrawTwo();
      && Reached(cfg, hyp, before, s) && Reached(cfg, hyp, after, t)
      && before + [ReadBalance(q), ReadBalance(r), Create(q, 0), Create(r, 1)] <= after
    ensures CustomerView(s.ledger, ACCT) == 100 && CustomerView(t.ledger, ACCT) == -100
  {
    before, s := Funds(cfg, hyp);
    BothCovered(s);
    after, t := PostsBoth(cfg, hyp, before, s, Deposit100(), WithdrawOne(100), WithdrawTwo());
  }

  lemma PostsBoth(cfg: Config, hyp: set<Hypothesis>, steps: seq<Step>, s: System, first: Params, q: Params, r: Params)
    returns (more: seq<Step>, t: System)
    requires Prudent !in hyp && InTime(cfg, hyp) && Reached(cfg, hyp, steps, s) && FundedBy(s, first)
    requires Covers(s.ledger, q) && Covers(s.ledger, r) && KeysApart(q, r)
    requires forall id: nat :: SampleDebit(q, id, 100) && SampleDebit(r, id, 100)
    requires KeysApart(first, q) && KeysApart(first, r)
    requires TxKeyOf(q) !in s.ledger.txs && TxKeyOf(r) !in s.ledger.txs
    ensures Reached(cfg, hyp, more, t)
    ensures steps + [ReadBalance(q), ReadBalance(r), Create(q, 0), Create(r, 1)] <= more
    ensures CustomerView(t.ledger, ACCT) == -100
  {
    assert SampleDebit(q, 1, 100) && SampleDebit(r, 2, 100);
    var x: seq<Step>, s2: System, s4: System;
    x, s2 := ReadsBoth(cfg, hyp, steps, s, q, r);
    x, s4 := InsertsBoth(cfg, hyp, x, s2, q, r);
    more, t := PostsInTurn(cfg, hyp, x, s4, q, r);
  }

  lemma PostsInTurn(cfg: Config, hyp: set<Hypothesis>, steps: seq<Step>, s: System, q: Params, r: Params)
    returns (more: seq<Step>, t: System)
    requires InTime(cfg, hyp) && Reached(cfg, hyp, steps, s) && |s.rows| == 3
    requires s.rows[1].p == q && s.rows[2].p == r && s.rows[1].status == s.rows[2].status == Pending
    requires SampleDebit(q, 1, 100) && SampleDebit(r, 2, 100) && KeysApart(q, r)
    requires Clean(s.ledger) && TxKeyOf(q) !in s.ledger.txs && TxKeyOf(r) !in s.ledger.txs
    ensures Reached(cfg, hyp, more, t) && steps <= more && CustomerView(t.ledger, ACCT) == CustomerView(s.ledger, ACCT) - 200
  {
    var posted: System;
    more, posted := HandlerPosts(cfg, hyp, steps, s, 1, q);
    assert TxKeyOf(r) !in posted.ledger.txs.Keys;
    more, t := HandlerPosts(cfg, hyp, more, posted, 2, r);
  }

  lemma InsertsBoth(cfg: Config, hyp: set<Hypothesis>, steps: seq<Step>, s: System, q: Params, r: Params)
    returns (more: seq<Step>, t: System)
    requires Prudent !in hyp && Reached(cfg, hyp, steps, s) && |s.rows| == 1
    requires Passed(s.checks, q, 0) && Passed(s.checks, r, 1)
    requires WellFormed(q) && WellFormed(r) && Debit(q) && Debit(r) && !SameKey(q, r)
    requires !SameKey(s.rows[0].p, q) && !SameKey(s.rows[0].p, r)
    ensures Reached(cfg, hyp, more, t) && more == steps + [Create(q, 0), Create(r, 1)]
    ensures t.ledger == s.ledger && t.rows == s.rows + [FreshRow(q, s.now), FreshRow(r, s.now)]
  {
    var x: seq<Step>, s3: System;
    x, s3 := Inserts(cfg, hyp, steps, s, q, 0);
    more, t := Inserts(cfg, hyp, x, s3, r, 1);
  }

  /**
  It is not enough that no debit of the account is outstanding at the read and at the insert: one
  that is admitted and posted in between has spent what the read saw.
  */
  lemma CheckThenCreateOverdraws(cfg: Config, hyp: set<Hypothesis>)
    returns (before: seq<Step>, s: System, between: seq<Step>, t: System, after: seq<Step>, u: System)
    requires Prudent !in hyp && InTime(cfg, hyp)
    ensures var r := WithdrawTwo();
      && Reached(cfg, hyp, before, s) && Reached(cfg, hyp, between, t) && Reached(cfg, hyp, after, u)
      && before + [ReadBalance(r)] <= between && between + [Create(r, 0)] <= after
    ensures CustomerView(s.ledger, ACCT) == 100 && NoDebitOutstanding(s.rows, ACCT)
    ensures NoDebitOutstanding(t.rows, ACCT)
    ensures CustomerView(u.ledger, ACCT) == -100
  {
    before, s := Funds(cfg, hyp);
    BothCovered(s);
    assert SampleDebit(WithdrawOne(100), 1, 100) && SampleDebit(WithdrawTwo(), 2, 100);
    between, t, after, u := SpentBetween(cfg, hyp, before, s, Deposit100(), WithdrawOne(100), WithdrawTwo());
  }

  /** A read for `r`, then `q` from insert to posting, then `r` from insert to posting. */
  lemma SpentBetween(cfg: Config, hyp: set<Hypothesis>, steps: seq<Step>, s: System, first: Params, q: Params, r: Params)
    returns (between: seq<Step>, t: System, after: seq<Step>, u: System)
    requires Prudent !in hyp && InTime(cfg, hyp) && Reached(cfg, hyp, steps, s) && FundedBy(s, first)
    requires Covers(s.ledger, q) && Covers(s.ledger, r) && KeysApart(q, r)
    requires SampleDebit(q, 1, 100) && SampleDebit(r, 2, 100)
    requires KeysApart(first, q) && KeysApart(first, r)
    requires TxKeyOf(q) !in s.ledger.txs && TxKeyOf(r) !in s.ledger.txs
    ensures Reached(cfg, hyp, between, t) && Reached(cfg, hyp, after, u)
    ensures steps + [ReadBalance(r)] <= between && between + [Create(r, 0)] <= after
    ensures NoDebitOutstanding(t.rows, ACCT) && CustomerView(u.ledger, ACCT) == -100
  {
    assert SampleDebit(r, 2, 100);
    between, t := ReadThenSpent(cfg, hyp, steps, s, first, q, r);
    after, u := InsertsAndPosts(cfg, hyp, between, t, r, 0);
  }

  lemma ReadThenSpent(cfg: Config, hyp: set<Hypothesis>, steps: seq<Step>, s: System, first: Params, q: Params, r: Params)
    returns (more: seq<Step>, t: System)
    requires Prudent !in hyp && InTime(cfg, hyp) && Reached(cfg, hyp, steps, s) && FundedBy(s, first)
    requires Covers(s.ledger, q) && Covers(s.ledger, r) && KeysApart(q, r)
    requires SampleDebit(q, 1, 100) && WellFormed(r) && Debit(r)
    requires KeysApart(first, q) && KeysApart(first, r)
    requires TxKeyOf(q) !in s.ledger.txs && TxKeyOf(r) !in s.ledger.txs
    ensures Reached(cfg, hyp, more, t) && steps + [ReadBalance(r)] <= more
    ensures |t.rows| == 2 && NoDebitOutstanding(t.rows, ACCT) && forall i :: 0 <= i < 2 ==> !SameKey(t.rows[i].p, r)
    ensures Passed(t.checks, r, 0) && Clean(t.ledger) && TxKeyOf(r) !in t.ledger.txs
    ensures CustomerView(t.ledger, ACCT) == 0
  {
    var x: seq<Step>, s2: System;
    x, s2 := ReadsBoth(cfg, hyp, steps, s, r, q);
    more, t := InsertsAndPosts(cfg, hyp, x, s2, q, 1);
    BothPosted(s.rows, t.rows, q, r);
    assert TxKeyOf(r) !in t.ledger.txs.Keys;
  }

  lemma BothPosted(rows: seq<Row>, after: seq<Row>, q: Params, r: Params)
    requires |rows| == 1 && rows[0].status == Posted && |after| == 2 && after[..1] == rows
    requires after[1].p == q && after[1].status == Posted && !SameKey(rows[0].p, r) && !SameKey(q, r)
    ensures NoDebitOutstanding(after, ACCT) && forall i :: 0 <= i < 2 ==> !SameKey(after[i].p, r)
  {
    assert after[0] == after[..1][0];
  }

  // ---------- A request that lands after its row was given up ----------

  /** A withdrawal is in the table, alone. */
  predicate OneDebit(s: System, first: Params, q: Params) {
    && |s.rows| == 2 && s.rows[0].status == Posted && s.rows[0].p == first && s.rows[1].p == q
    && Clean(s.ledger) && CustomerView(s.ledger, ACCT) == 100 && s.ledger.txs.Keys == {TxKeyOf(first)}
  }

  /** A debit has been given up, the account is as it was, and its request is still about. */
  lemma NextDebit(cfg: Config, hyp: set<Hypothesis>, steps: seq<Step>, s: System, q: Params, r: Params, id: nat)
    returns (more: seq<Step>, t: System)
    requires Reached(cfg, hyp, steps, s) && InTime(cfg, hyp) && RequestOf(id, q) in s.wire
    requires Clean(s.ledger) && CustomerView(s.ledger, ACCT) == 100
    requires TxKeyOf(q) !in s.ledger.txs && TxKeyOf(r) !in s.ledger.txs && TxKeyOf(q) != TxKeyOf(r)
    requires SampleDebit(q, id, 100) && SampleDebit(r, |s.rows|, 100)
    requires NoDebitOutstanding(s.rows, ACCT) && forall i :: 0 <= i < |s.rows| ==> !SameKey(s.rows[i].p, r)
    requires PromptStep(s, Land(RequestOf(id, q))) || Prompt !in hyp
    ensures Reached(cfg, hyp, more, t) && CustomerView(t.ledger, ACCT) == -100
  {
    var spent: System;
    more, spent := AdmitsAndPosts(cfg, hyp, steps, s, r);
    assert TxKeyOf(q) !in spent.ledger.txs.Keys;
    if PromptStep(s, Land(RequestOf(id, q))) {
      var h :| 0 <= h < |s.holders| && s.holders[h].phase == Calling && s.holders[h].req == RequestOf(id, q);
      assert spent.holders[h] == s.holders[h];
    }
    more, t := LandsLate(cfg, hyp, more, spent, id, q);
  }

  /**
  Without prompt landings: a worker's call fails for its caller and stays on its way, the row ages
  out, another withdrawal is admitted and posted, and then the first request lands.
  */
  lemma LateLandingOverdraws(cfg: Config, hyp: set<Hypothesis>) returns (steps: seq<Step>, t: System)
    requires Prompt !in hyp && cfg.limit >= 1 && InTime(cfg, hyp)
    requires Reliable in hyp ==> FirstRetryFits(cfg, Millis(cfg.olderSecs) + 1)
    ensures Reached(cfg, hyp, steps, t) && CustomerView(t.ledger, ACCT) == -100
  {
    var s: System;
    steps, s := Funds(cfg, hyp);
    BothCovered(s);
    steps, t := GivenUpThenNext(cfg, hyp, steps, s, Deposit100(), WithdrawOne(100), WithdrawTwo());
  }

  lemma GivenUpThenNext(cfg: Config, hyp: set<Hypothesis>, steps: seq<Step>, s: System, first: Params, q: Params, r: Params)
    returns (more: seq<Step>, t: System)
    requires Prompt !in hyp && cfg.limit >= 1 && InTime(cfg, hyp) && Reached(cfg, hyp, steps, s) && FundedBy(s, first)
    requires s.now == 0 && (Reliable in hyp ==> FirstRetryFits(cfg, Millis(cfg.olderSecs) + 1))
    requires Covers(s.ledger, q) && KeysApart(q, r) && KeysApart(first, q) && KeysApart(first, r)
    requires forall id: nat :: SampleDebit(q, id, 100) && SampleDebit(r, id, 100)
    ensures Reached(cfg, hyp, more, t) && CustomerView(t.ledger, ACCT) == -100
  {
    var given: System;
    assert SampleDebit(q, 1, 100) && SampleDebit(r, 2, 100);
    more, given := GivenUp(cfg, hyp, steps, s, first, q);
    KeysLeft(given, first, q, r);
    more, t := NextDebit(cfg, hyp, more, given, q, r, 1);
  }

  lemma KeysLeft(s: System, first: Params, q: Params, r: Params)
    requires OneDebit(s, first, q) && s.rows[1].status == Failed
    requires KeysApart(first, q) && KeysApart(first, r) && KeysApart(q, r)
    ensures TxKeyOf(q) !in s.ledger.txs && TxKeyOf(r) !in s.ledger.txs && NoDebitOutstanding(s.rows, ACCT)
    ensures forall i :: 0 <= i < |s.rows| ==> !SameKey(s.rows[i].p, r)
  {
    assert TxKeyOf(q) !in s.ledger.txs.Keys && TxKeyOf(r) !in s.ledger.txs.Keys;
  }

  lemma GivenUp(cfg: Config, hyp: set<Hypothesis>, steps: seq<Step>, s: System, first: Params, q: Params)
    returns (more: seq<Step>, t: System)
    requires cfg.limit >= 1 && InTime(cfg, hyp) && Reached(cfg, hyp, steps, s) && FundedBy(s, first) && s.now == 0
    requires Reliable in hyp ==> FirstRetryFits(cfg, Millis(cfg.olderSecs) + 1)
    requires SampleDebit(q, 1, 100) && Covers(s.ledger, q) && KeysApart(first, q)
    ensures Reached(cfg, hyp, more, t) && OneDebit(t, first, q) && t.rows[1].status == Failed
    ensures RequestOf(1, q) in t.wire
  {
    var taken: System, failed: System;
    more, taken := TakenUp(cfg, hyp, steps, s, first, q);
    more, failed := WorkerFails(cfg, hyp, more, taken, 1, Unreachable);
    assert failed.rows[0] == taken.rows[0];
    more, t := AgesOut(cfg, hyp, more, failed, 1);
  }

  lemma TakenUp(cfg: Config, hyp: set<Hypothesis>, steps: seq<Step>, s: System, first: Params, q: Params)
    returns (more: seq<Step>, t: System)
    requires cfg.limit >= 1 && InTime(cfg, hyp) && Reached(cfg, hyp, steps, s) && FundedBy(s, first) && s.now == 0
    requires SampleDebit(q, 1, 100) && Covers(s.ledger, q) && KeysApart(first, q)
    ensures Reached(cfg, hyp, more, t) && OneDebit(t, first, q) && t.now == Millis(cfg.olderSecs) + 1
    ensures t.rows[1] == ClaimRow(FreshRow(q, 0), t.now)
    ensures |t.holders| == 2 && !Live(t.holders[0])
    ensures t.holders[1] == Holder(1, RequestOf(1, q), true, 1, t.now, 1, Claimed, t.now)
  {
    var created: System, later: System;
    more, created := ReadsAndInserts(cfg, hyp, steps, s, q);
    more, later := IdleTick(cfg, hyp, more, created, Millis(cfg.olderSecs) + 1);
    more, t := WorkerTakes(cfg, hyp, more, later, 1);
  }

  lemma IdleTick(cfg: Config, hyp: set<Hypothesis>, steps: seq<Step>, s: System, d: nat)
    returns (more: seq<Step>, t: System)
    requires Reached(cfg, hyp, steps, s) && NoneLive(s)
    ensures Reached(cfg, hyp, more, t) && steps <= more && t == s.(now := s.now + d)
  {
    more, t := Next(cfg, hyp, Init(0), steps, s, Tick(d));
  }

  // ---------- A call that outlives its lease ----------

  /** The deposits of the batch have keys of their own. */
  lemma TagsApart(k: nat)
    ensures KeysApart(Nth(k), WithdrawOne(100)) && KeysApart(Nth(k), WithdrawTwo())
    ensures KeysApart(Deposit100(), Nth(k))
  {
    NthIsFine(k, 0);
    assert Tag(k)[0] == 'k';
  }

  predicate DebitJob(job: Job, cfg: Config) {
    && |job.first| == 1 && job.first[0].p == Deposit100() && job.first[0].status == Posted
    && job.n == cfg.limit && job.last == WithdrawOne(100) && job.view == 100
    && job.spare == TxKeyOf(WithdrawTwo()) && Fine(job)
  }

  /** A full batch: deposits to another account, and a withdrawal as the last row. */
  lemma BatchWithDebit(cfg: Config, hyp: set<Hypothesis>) returns (x: seq<Step>, s: System, job: Job)
    requires Timely !in hyp && cfg.limit >= 1
    ensures DebitJob(job, cfg) && Reached(cfg, hyp, x, s) && Working(cfg, s, job, 0)
  {
    var created: System;
    x, created, job := JobCreated(cfg, hyp);
    x, s, job := BatchClaimed(cfg, hyp, x, created, job, 0);
  }

  lemma JobCreated(cfg: Config, hyp: set<Hypothesis>) returns (x: seq<Step>, s: System, job: Job)
    requires Timely !in hyp && cfg.limit >= 1
    ensures DebitJob(job, cfg) && Reached(cfg, hyp, x, s) && Waiting(s, job, 0)
  {
    var funded: System;
    x, funded := Funds(cfg, hyp);
    BothCovered(funded);
    NoDebitYet(funded.rows, cfg.limit - 1);
    assert SampleDebit(WithdrawOne(100), cfg.limit, 100);
    x, s := FilledAndDebit(cfg, hyp, x, funded, Deposit100(), WithdrawOne(100));
    job := Job(funded.rows, cfg.limit, WithdrawOne(100), 100, TxKeyOf(WithdrawTwo()), 0);
    DebitJobIsFine(job, cfg);
    LacksAll(funded, job);
  }

  lemma FilledAndDebit(cfg: Config, hyp: set<Hypothesis>, x: seq<Step>, s: System, first: Params, q: Params)
    returns (more: seq<Step>, t: System)
    requires cfg.limit >= 1 && Reached(cfg, hyp, x, s) && FundedBy(s, first) && s.now == 0
    requires SampleDebit(q, cfg.limit, 100) && Covers(s.ledger, q) && NoTag(s.rows, cfg.limit - 1)
    requires forall row :: row in s.rows + Deposits(cfg.limit - 1, 0) ==> !SameKey(row.p, q) && !Debit(row.p)
    ensures Reached(cfg, hyp, more, t) && t.ledger == s.ledger && t.holders == s.holders && t.now == 0
    ensures t.rows == s.rows + Deposits(cfg.limit - 1, 0) + [FreshRow(q, 0)]
  {
    var filled: System;
    more, filled := Filled(cfg, hyp, x, s, cfg.limit - 1);
    forall i | 0 <= i < |filled.rows| ensures !SameKey(filled.rows[i].p, q) && !Debit(filled.rows[i].p) {
      assert filled.rows[i] in filled.rows;
    }
    more, t := ReadsAndInserts(cfg, hyp, more, filled, q);
  }

  lemma NoDebitYet(rows: seq<Row>, n: nat)
    requires |rows| == 1 && rows[0].p == Deposit100()
    ensures NoTag(rows, n)
    ensures forall row :: row in rows + Deposits(n, 0) ==> !SameKey(row.p, WithdrawOne(100)) && !Debit(row.p)
  {
    SampleKeys(100);
    forall i, k | 0 <= i < |rows| && 0 <= k < n ensures !SameKey(rows[i].p, Nth(k)) { TagsApart(k); }
    forall row | row in rows + Deposits(n, 0) ensures !SameKey(row.p, WithdrawOne(100)) && !Debit(row.p) {
      if row in Deposits(n, 0) {
        var k :| 0 <= k < n && Deposits(n, 0)[k] == row;
        TagsApart(k);
      }
    }
  }

  lemma DebitJobIsFine(job: Job, cfg: Config)
    requires cfg.limit >= 1 && |job.first| == 1 && job.n == cfg.limit && job.last == WithdrawOne(100)
    requires job.spare == TxKeyOf(WithdrawTwo())
    ensures Fine(job)
  {
    SampleDebits(100, cfg.limit);
    forall k | 0 <= k < job.n - 1 ensures TxKeyOf(Nth(k)) != TxKeyOf(job.last) && TxKeyOf(Nth(k)) != job.spare {
      TagsApart(k);
    }
  }

  lemma LacksAll(s: System, job: Job)
    requires Funded(s) && job.n >= 1 && job.last == WithdrawOne(100) && job.view == 100
    requires job.spare == TxKeyOf(WithdrawTwo())
    ensures Lacks(s.ledger, job, 0)
  {
    SampleKeys(100);
    forall k | 0 <= k < job.n ensures TxKeyOf(Item(job.n, job.last, k)) !in s.ledger.txs.Keys {
      TagsApart(k);
    }
    assert job.spare !in s.ledger.txs.Keys;
  }

  /** The account's one debit is given up while its call is out. */
  predicate CalledTooLate(s: System, cfg: Config) {
    var q, r := WithdrawOne(100), WithdrawTwo();
    && |s.rows| == cfg.limit + 1 && RequestOf(cfg.limit, q) in s.wire && PromptStep(s, Land(RequestOf(cfg.limit, q)))
    && Clean(s.ledger) && CustomerView(s.ledger, ACCT) == 100
    && TxKeyOf(q) !in s.ledger.txs && TxKeyOf(r) !in s.ledger.txs
    && NoDebitOutstanding(s.rows, ACCT) && forall i :: 0 <= i < |s.rows| ==> !SameKey(s.rows[i].p, r)
  }

  /** All rows but the last are worked off, and the last one's call goes out when its row is given up. */
  lemma CallsTooLate(cfg: Config, hyp: set<Hypothesis>, x: seq<Step>, s: System, job: Job)
    returns (more: seq<Step>, t: System)
    requires Timely !in hyp && cfg.limit >= 1 && Millis(cfg.staleSecs) < cfg.limit * cfg.perRowMs
    requires Reached(cfg, hyp, x, s) && DebitJob(job, cfg) && Working(cfg, s, job, 0)
    ensures Reached(cfg, hyp, more, t) && CalledTooLate(t, cfg)
  {
    var most: System, stale: System, swept: System;
    more, most := AllButOne(cfg, hyp, x, s, job, 0);
    more, stale := LastIsStale(cfg, hyp, more, most, job);
    more, swept := Sweeps(cfg, hyp, more, stale);
    MemberTurn(cfg, most, job, job.n - 1);
    more, t := Sent(cfg, hyp, Init(0), more, swept, cfg.limit);
    assert t.holders[cfg.limit].phase == Calling && t.holders[cfg.limit].req == RequestOf(cfg.limit, WithdrawOne(100));
    LedgerLeft(cfg, most, job);
    RowsLeft(cfg, most, swept.rows, job, stale.now);
  }

  lemma LedgerLeft(cfg: Config, s: System, job: Job)
    requires cfg.limit >= 1 && DebitJob(job, cfg) && Working(cfg, s, job, job.n - 1)
    ensures Clean(s.ledger) && CustomerView(s.ledger, ACCT) == 100
    ensures TxKeyOf(WithdrawOne(100)) !in s.ledger.txs && TxKeyOf(WithdrawTwo()) !in s.ledger.txs
  {
    assert Item(job.n, job.last, job.n - 1) == job.last;
  }

  lemma RowsLeft(cfg: Config, s: System, after: seq<Row>, job: Job, now: int)
    requires cfg.limit >= 1 && DebitJob(job, cfg) && Working(cfg, s, job, job.n - 1) && job.c <= now
    requires after == SweepFail(SweepRequeue(s.rows, now, cfg.staleSecs), now, cfg.pendingSecs)
    requires Stale(s.rows[cfg.limit], now, cfg.staleSecs)
    ensures |after| == cfg.limit + 1 && NoDebitOutstanding(after, ACCT)
    ensures forall i :: 0 <= i < |after| ==> !SameKey(after[i].p, WithdrawTwo())
  {
    SampleKeys(100);
    assert after[cfg.limit].status == Failed;
    forall i | 0 <= i < |after|
      ensures !SameKey(after[i].p, WithdrawTwo()) && (Debit(after[i].p) ==> after[i].status == Failed)
    {
      if i == 0 {
        assert s.rows[0] == s.rows[..1][0] == job.first[0];
      } else if i < cfg.limit {
        assert s.rows[i].p == Nth(i - 1);
        TagsApart(i - 1);
      }
    }
  }

  /**
  When a batch does not fit into the lease: the last row's call, still within its time, goes out
  after the row's lease ran out and the row was given up; another withdrawal is admitted and posted,
  and the call lands while its caller waits.
  */
  lemma LongBatchOverdraws(cfg: Config, hyp: set<Hypothesis>) returns (steps: seq<Step>, t: System)
    requires Timely !in hyp && cfg.limit >= 1 && !LeaseBound.Fits(cfg)
    ensures Reached(cfg, hyp, steps, t) && CustomerView(t.ledger, ACCT) == -100
  {
    var s: System, job: Job, given: System;
    steps, s, job := BatchWithDebit(cfg, hyp);
    steps, given := CallsTooLate(cfg, hyp, steps, s, job);
    SampleDebits(100, cfg.limit);
    SecondDebit(cfg.limit + 1);
    SampleKeys(100);
    steps, t := NextDebit(cfg, hyp, steps, given, WithdrawOne(100), WithdrawTwo(), cfg.limit);
  }

  // ---------- Exactly when no account can be overdrawn ----------

  ghost predicate Overdrawn(cfg: Config, hyp: set<Hypothesis>, t0: int, steps: seq<Step>, a: L.AccountKey) {
    && Legal(cfg, hyp, Init(t0), steps) && !L.IsSystem(a.ext)
    && CustomerView(Run(cfg, hyp, Init(t0), steps).ledger, a) < 0
  }

  lemma SomeRunOverdraws(cfg: Config, hyp: set<Hypothesis>) returns (steps: seq<Step>)
    requires Timely !in hyp && cfg.limit >= 1 && !({Honest, Prudent, Prompt} <= hyp && LeaseBound.Fits(cfg))
    requires Reliable in hyp ==> FirstRetryFits(cfg, Millis(cfg.olderSecs) + 1)
    ensures Overdrawn(cfg, hyp, 0, steps, ACCT)
  {
    CustomerAcct();
    var t: System;
    if Honest !in hyp {
      steps, t := ReplayOverdraws(cfg, hyp);
    } else if Prudent !in hyp {
      var before: seq<Step>, s: System;
      before, s, steps, t := TwoWithdrawalsOverdraw(cfg, hyp);
    } else if Prompt !in hyp {
      steps, t := LateLandingOverdraws(cfg, hyp);
    } else {
      steps, t := LongBatchOverdraws(cfg, hyp);
    }
  }

  /**
  When every row is worked off within `perRowMs`: no customer balance is negative in any run if and
  only if replays are honest, admission is prudent, landings are prompt, and the configuration fits.
  A worker that never dies and always writes back is assumed, or not, as long as its first retry
  time can be written at all.
  */
  lemma NeverOverdrawnIff(cfg: Config, hyp: set<Hypothesis>)
    requires Paced in hyp && Timely !in hyp && cfg.limit >= 1
    requires Reliable in hyp ==> FirstRetryFits(cfg, Millis(cfg.olderSecs) + 1)
    ensures (forall t0, steps, a :: !Overdrawn(cfg, hyp, t0, steps, a)) <==>
      {Honest, Prudent, Prompt} <= hyp && LeaseBound.Fits(cfg)
  {
    if {Honest, Prudent, Prompt} <= hyp && LeaseBound.Fits(cfg) {
      forall t0, steps, a ensures !Overdrawn(cfg, hyp, t0, steps, a) {
        if Overdrawn(cfg, hyp, t0, steps, a) {
          LeaseBound.PacedIsTimely(cfg, hyp, Init(t0), steps);
          Overdraft.NoOverdraft(cfg, hyp + {Timely}, t0, steps, a);
        }
      }
    } else {
      var steps := SomeRunOverdraws(cfg, hyp);
    }
  }

}
