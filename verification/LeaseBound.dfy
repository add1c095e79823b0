/** Which configurations keep posted and failed rows final, and rows held by one holder only. */
module LeaseBound {
  import opened Outbox
  import opened Protocol
  import opened LedgerClient
  import opened Runs
  import opened CounterRuns
  import opened Batches
  import Deliveries
  import Lease
  import L = Ledger

  /** A full batch, or a single row of a handler, is worked off within the lease. */
  predicate Fits(cfg: Config) {
    (if cfg.limit < 1 then 1 else cfg.limit) * cfg.perRowMs <= Millis(cfg.staleSecs)
  }

  /** After `before` row `i` is posted or failed, and after `after` it is not what it was. */
  ghost predicate Overwrites(
    cfg: Config, hyp: set<Hypothesis>, t0: int, before: seq<Step>, after: seq<Step>, i: nat)
  {
    && Legal(cfg, hyp, Init(t0), before)
    && var s := Run(cfg, hyp, Init(t0), before);
       && i < |s.rows| && Lease.Terminal(s.rows[i]) && Legal(cfg, hyp, s, after)
       && var rows := Run(cfg, hyp, s, after).rows;
          !(i < |rows| && rows[i] == s.rows[i])
  }

  ghost predicate TwoHolders(cfg: Config, hyp: set<Hypothesis>, t0: int, steps: seq<Step>) {
    Legal(cfg, hyp, Init(t0), steps) && !Lease.Exclusive(Run(cfg, hyp, Init(t0), steps))
  }

  // ---------- It is enough ----------

  lemma PacedStepIsTimely(cfg: Config, s: System, step: Step)
    requires Fits(cfg) && Enabled(cfg, s, step) && PacedStep(cfg, s, step)
    ensures TimelyStep(cfg, s, step)
  {
    var most := if cfg.limit < 1 then 1 else cfg.limit;
    Lease.SmallerProduct(1, most, cfg.perRowMs);
    if step.WorkerClaim? { Lease.SmallerProduct(|step.ids|, most, cfg.perRowMs); }
  }

  lemma {:induction false} PacedIsTimely(cfg: Config, hyp: set<Hypothesis>, s: System, steps: seq<Step>)
    requires Fits(cfg) && Paced in hyp && Legal(cfg, hyp, s, steps)
    ensures Legal(cfg, hyp + {Timely}, s, steps)
    ensures Run(cfg, hyp + {Timely}, s, steps) == Run(cfg, hyp, s, steps)
    decreases |steps|
  {
    if steps != [] {
      PacedStepIsTimely(cfg, s, steps[0]);
      PacedIsTimely(cfg, hyp, Apply(cfg, s, steps[0]), steps[1..]);
    }
  }

  // ---------- It is needed ----------

  /** Holder `h` of row `row` may send. */
  predicate ReadyOn(s: System, h: nat, row: nat) {
    && h < |s.holders| && row < |s.rows| && Turn(s, h) && s.holders[h].phase == Claimed
    && s.holders[h].row == row && s.holders[h].req == RequestOf(row, s.rows[row].p)
  }

  /** Of two holders of one row the earlier one posts it, and the later one, a handler, writes over it. */
  lemma WrittenOver(cfg: Config, hyp: set<Hypothesis>, x: seq<Step>, s: System, early: nat, late: nat, row: nat)
    returns (before: seq<Step>, after: seq<Step>)
    requires Reached(cfg, hyp, x, s) && early < late && ReadyOn(s, early, row) && ReadyOn(s, late, row)
    requires s.holders[late].base == late && !s.holders[late].worker
    requires Deliveries.Clean(s.ledger) && Postable(row, s.rows[row].p) && TxKeyOf(s.rows[row].p) !in s.ledger.txs
    ensures Overwrites(cfg, hyp, 0, before, after, row)
  {
    var mid: System;
    before, mid := PostedByEarly(cfg, hyp, x, s, early, late, row);
    after := LostByLate(cfg, hyp, mid, late, row);
  }

  lemma PostedByEarly(cfg: Config, hyp: set<Hypothesis>, x: seq<Step>, s: System, early: nat, late: nat, row: nat)
    returns (more: seq<Step>, t: System)
    requires Reached(cfg, hyp, x, s) && early < late && ReadyOn(s, early, row) && ReadyOn(s, late, row)
    requires s.holders[late].base == late && !s.holders[late].worker
    requires Deliveries.Clean(s.ledger) && Postable(row, s.rows[row].p) && TxKeyOf(s.rows[row].p) !in s.ledger.txs
    ensures Reached(cfg, hyp, more, t) && ReadyOn(t, late, row) && t.rows[row].status == Posted
    ensures !t.holders[late].worker
  {
    LandsOn(s.ledger, row, s.rows[row].p);
    more, t := FinishHolder(cfg, hyp, Init(0), x, s, early, Answers, false, "");
  }

  lemma LostByLate(cfg: Config, hyp: set<Hypothesis>, s: System, late: nat, row: nat) returns (steps: seq<Step>)
    requires |s.expiries| == |s.rows| && ReadyOn(s, late, row) && s.rows[row].status == Posted && !s.holders[late].worker
    ensures Legal(cfg, hyp, s, steps)
    ensures var rows := Run(cfg, hyp, s, steps).rows; row < |rows| && rows[row].status == Pending
  {
    var t: System;
    steps, t := FinishHolder(cfg, hyp, s, [], s, late, Unreachable, false, TIMEOUT);
  }

  /** Without a worker: a handler slower than the lease. */
  lemma SlowRow(cfg: Config, hyp: set<Hypothesis>) returns (x: seq<Step>, before: seq<Step>, after: seq<Step>)
    requires Timely !in hyp && Millis(cfg.staleSecs) < cfg.perRowMs
    ensures TwoHolders(cfg, hyp, 0, x) && Overwrites(cfg, hyp, 0, before, after, 0)
  {
    var p := Sample(Deposit, 100, "k");
    SampleIsFine(Deposit, 100, "k", 0);
    var s: System;
    x, s := TwoClaims(cfg, hyp, p);
    assert Live(s.holders[0]) && Live(s.holders[1]);
    before, after := WrittenOver(cfg, hyp, x, s, 0, 1, 0);
  }

  lemma Requeues(cfg: Config, hyp: set<Hypothesis>, x: seq<Step>, s: System, id: nat) returns (more: seq<Step>, t: System)
    requires Reached(cfg, hyp, x, s) && id < |s.rows| && Stale(s.rows[id], s.now, cfg.staleSecs)
    ensures Reached(cfg, hyp, more, t) && |t.rows| == |s.rows| && t.ledger == s.ledger && t.holders == s.holders
    ensures t.rows[id].status == Pending && t.rows[id].p == s.rows[id].p
  {
    more, t := Next(cfg, hyp, Init(0), x, s, ReconcileRequeue);
  }

  /** A full batch of deposits, all but the last worked off, and the last one stale. */
  lemma LongBatch(cfg: Config, hyp: set<Hypothesis>) returns (x: seq<Step>, s: System)
    requires Timely !in hyp && cfg.limit >= 1 && Millis(cfg.staleSecs) < cfg.limit * cfg.perRowMs
    ensures Reached(cfg, hyp, x, s) && |s.holders| == |s.rows| == cfg.limit
    ensures Stale(s.rows[cfg.limit - 1], s.now, cfg.staleSecs) && s.rows[cfg.limit - 1].p == Nth(cfg.limit - 1)
    ensures ReadyOn(s, cfg.limit - 1, cfg.limit - 1)
    ensures Deliveries.Clean(s.ledger) && TxKeyOf(Nth(cfg.limit - 1)) !in s.ledger.txs
  {
    var claimed: System, most: System, job: Job;
    x, claimed, job := BatchOfDeposits(cfg, hyp);
    x, most := AllButOne(cfg, hyp, x, claimed, job, 0);
    x, s := LastIsStale(cfg, hyp, x, most, job);
    LastIsReady(cfg, most, s, job);
  }

  lemma BatchOfDeposits(cfg: Config, hyp: set<Hypothesis>) returns (x: seq<Step>, s: System, job: Job)
    requires Timely !in hyp && cfg.limit >= 1
    ensures job.first == [] && job.n == cfg.limit && job.last == Nth(cfg.limit - 1) && Fine(job)
    ensures Reached(cfg, hyp, x, s) && Working(cfg, s, job, 0)
  {
    var filled: System;
    x, filled := Filled(cfg, hyp, [], Init(0), cfg.limit);
    job := Job([], cfg.limit, Nth(cfg.limit - 1), 0, NOKEY, 0);
    StartsFine(filled, job);
    x, s, job := BatchClaimed(cfg, hyp, x, filled, job, 0);
  }

  lemma LastIsReady(cfg: Config, s: System, t: System, job: Job)
    requires job.n >= 1 && Working(cfg, s, job, job.n - 1) && t == s.(now := t.now) && job.first == []
    ensures |t.holders| == |t.rows| == job.n && t.rows[job.n - 1].p == job.last
    ensures ReadyOn(t, job.n - 1, job.n - 1)
    ensures Deliveries.Clean(t.ledger) && TxKeyOf(job.last) !in t.ledger.txs
  {
    MemberTurn(cfg, s, job, job.n - 1);
    assert Item(job.n, job.last, job.n - 1) == job.last;
  }

  const NOKEY := L.TxKey("", "", "")

  lemma StartsFine(s: System, job: Job)
    requires job.n >= 1 && job == Job([], job.n, Nth(job.n - 1), 0, NOKEY, 0)
    requires s == Init(0).(rows := Deposits(job.n, 0), expiries := s.expiries) && |s.expiries| == |s.rows|
    ensures Fine(job) && Waiting(s, job, 0)
  {
    NthIsFine(job.n - 1, job.n - 1);
    forall k | 0 <= k < job.n - 1 ensures TxKeyOf(Nth(k)) != TxKeyOf(job.last) && TxKeyOf(Nth(k)) != NOKEY {
      assert |Tag(k)| != |Tag(job.n - 1)|;
      NthIsFine(k, 0);
    }
  }

  /** The last row's lease runs out before its turn is over; a handler takes the row. */
  lemma TakenOver(cfg: Config, hyp: set<Hypothesis>)
    returns (x: seq<Step>, before: seq<Step>, after: seq<Step>, i: nat)
    requires Timely !in hyp && cfg.limit >= 1 && Millis(cfg.staleSecs) < cfg.limit * cfg.perRowMs
    ensures TwoHolders(cfg, hyp, 0, x) && Overwrites(cfg, hyp, 0, before, after, i)
  {
    var s: System, t: System, u: System;
    i := cfg.limit - 1;
    x, s := LongBatch(cfg, hyp);
    NthIsFine(i, i);
    x, t := Requeues(cfg, hyp, x, s, i);
    x, u := HandlerClaims(cfg, hyp, x, t, i, Nth(i));
    assert ReadyOn(u, i, i) && ReadyOn(u, i + 1, i);
    assert Live(u.holders[i]) && Live(u.holders[i + 1]);
    before, after := WrittenOver(cfg, hyp, x, u, i, i + 1, i);
  }

  // ---------- Exactly the configurations that fit ----------

  lemma UnfitRun(cfg: Config, hyp: set<Hypothesis>) returns (x: seq<Step>, before: seq<Step>, after: seq<Step>, i: nat)
    requires Timely !in hyp && !Fits(cfg)
    ensures TwoHolders(cfg, hyp, 0, x) && Overwrites(cfg, hyp, 0, before, after, i)
  {
    if cfg.limit == 0 {
      i := 0;
      x, before, after := SlowRow(cfg, hyp);
    } else {
      x, before, after, i := TakenOver(cfg, hyp);
    }
  }

  /**
  When every row is worked off within `perRowMs`, and whatever else is assumed of the runs: posted
  and failed rows are final in all of them if and only if the configuration fits.
  */
  lemma FinalIffFits(cfg: Config, hyp: set<Hypothesis>)
    requires Paced in hyp && Timely !in hyp
    ensures (forall t0, before, after, i :: !Overwrites(cfg, hyp, t0, before, after, i)) <==> Fits(cfg)
  {
    if Fits(cfg) {
      forall t0, before, after, i ensures !Overwrites(cfg, hyp, t0, before, after, i) {
        if Overwrites(cfg, hyp, t0, before, after, i) {
          PacedIsTimely(cfg, hyp, Init(t0), before);
          PacedIsTimely(cfg, hyp, Run(cfg, hyp, Init(t0), before), after);
          Lease.TerminalRowsAreFinal(cfg, hyp + {Timely}, t0, before, after, i);
        }
      }
    } else {
      var x, before, after, i := UnfitRun(cfg, hyp);
    }
  }

  /** And a row has at most one live holder in all of them if and only if it does. */
  lemma ExclusiveIffFits(cfg: Config, hyp: set<Hypothesis>)
    requires Paced in hyp && Timely !in hyp
    ensures (forall t0, steps :: !TwoHolders(cfg, hyp, t0, steps)) <==> Fits(cfg)
  {
    if Fits(cfg) {
      forall t0, steps ensures !TwoHolders(cfg, hyp, t0, steps) {
        if TwoHolders(cfg, hyp, t0, steps) {
          PacedIsTimely(cfg, hyp, Init(t0), steps);
          Lease.LeaseExclusivity(cfg, hyp + {Timely}, t0, steps);
        }
      }
    } else {
      var x, before, after, i := UnfitRun(cfg, hyp);
    }
  }

  /** The shipped settings, 200 rows a batch and 600 seconds of lease, leave 3 seconds a row. */
  lemma ShippedSettings(cfg: Config)
    requires cfg.limit == 200 && cfg.staleSecs == 600
    ensures Fits(cfg) <==> cfg.perRowMs <= 3_000
  {
  }

  /** At the shipped timeout of 60 seconds a call, there is a run that overwrites a posted or failed row. */
  lemma ShippedTimeoutOverwrites(cfg: Config) returns (before: seq<Step>, after: seq<Step>, i: nat)
    requires cfg.limit == 200 && cfg.staleSecs == 600 && cfg.perRowMs == 60_000
    ensures Overwrites(cfg, {Honest, Paced, Prudent, Prompt, Reliable}, 0, before, after, i)
  {
    var x: seq<Step>;
    x, before, after, i := UnfitRun(cfg, {Honest, Paced, Prudent, Prompt, Reliable});
  }

}
