/**
What the lease guarantees when working off a row takes bounded time and a batch fits into the
lease: one live holder per row, terminal rows for ever, and a bounded number of attempts.
*/
module Lease {
  import opened Options
  import opened Outbox
  import opened Protocol

  /** A holder's batch is consecutive, was claimed at one instant, and fits into the lease. */
  predicate BatchShape(cfg: Config, s: System, h: nat)
    requires h < |s.holders|
  {
    var x := s.holders[h];
    && x.base <= h
    && (h - x.base + 1) * cfg.perRowMs <= Millis(cfg.staleSecs)
    && (x.base < h ==>
         && s.holders[h - 1].base == x.base && s.holders[h - 1].claimedAt == x.claimedAt
         && (Live(x) ==> Live(s.holders[h - 1]) || s.holders[h - 1].phase == Finished))
    && (x.phase == Finished ==> x.doneAt <= x.claimedAt + (h - x.base + 1) * cfg.perRowMs)
    && (Live(x) && Turn(s, h) ==> s.now <= StartOf(s, h) + cfg.perRowMs)
  }

  /** A live holder's row is in posting and carries the instant and the count of its claim. */
  predicate Holds(s: System, h: nat)
    requires h < |s.holders|
  {
    var x := s.holders[h];
    Live(x) ==>
      && x.row < |s.rows| && s.rows[x.row].status == Posting
      && s.rows[x.row].updatedAt == x.claimedAt && s.rows[x.row].retryCount == x.attempt
  }

  predicate Exclusive(s: System) {
    forall g, h :: 0 <= g < h < |s.holders| && Live(s.holders[g]) && Live(s.holders[h]) ==>
      s.holders[g].row != s.holders[h].row
  }

  predicate LeaseInv(cfg: Config, s: System) {
    && (forall h :: 0 <= h < |s.holders| ==> BatchShape(cfg, s, h))
    && (forall h :: 0 <= h < |s.holders| ==> Holds(s, h))
    && Exclusive(s)
  }

  /** A live holder is within its share of the lease. */
  lemma {:induction false} WithinLease(cfg: Config, s: System, h: nat)
    requires h < |s.holders| && Live(s.holders[h])
    requires forall g :: 0 <= g < |s.holders| ==> BatchShape(cfg, s, g)
    ensures s.now <= s.holders[h].claimedAt + (h - s.holders[h].base + 1) * cfg.perRowMs
    ensures s.now <= s.holders[h].claimedAt + Millis(cfg.staleSecs)
    decreases h
  {
    var x := s.holders[h];
    assert BatchShape(cfg, s, h);
    var n, t := h - x.base, cfg.perRowMs;
    assert (n + 1) * t == n * t + t;
    if !Turn(s, h) {
      WithinLease(cfg, s, h - 1);
    } else if x.base < h {
      assert BatchShape(cfg, s, h - 1);
    }
  }

  /** Sweeps and reclaims pass by the rows of live holders. */
  lemma LiveRowNotStale(cfg: Config, s: System, h: nat)
    requires LeaseInv(cfg, s) && h < |s.holders| && Live(s.holders[h])
    ensures s.holders[h].row < |s.rows| && !Stale(s.rows[s.holders[h].row], s.now, cfg.staleSecs)
  {
    WithinLease(cfg, s, h);
    assert Holds(s, h);
  }

  // ---------- The invariant, step by step ----------

  /** A step that keeps the holders and every row a live holder is on. */
  lemma SweepKeepsLease(cfg: Config, s: System, t: System)
    requires LeaseInv(cfg, s) && t.holders == s.holders && t.now == s.now && |s.rows| <= |t.rows|
    requires forall h :: 0 <= h < |s.holders| && Live(s.holders[h]) && s.holders[h].row < |s.rows| ==>
      t.rows[s.holders[h].row] == s.rows[s.holders[h].row]
    ensures LeaseInv(cfg, t)
  {
    forall h | 0 <= h < |t.holders| ensures BatchShape(cfg, t, h) && Holds(t, h) {
      assert BatchShape(cfg, s, h) && Holds(s, h);
    }
  }

  lemma StaleSteps(cfg: Config, s: System, step: Step)
    requires LeaseInv(cfg, s) && Enabled(cfg, s, step)
    requires step.WorkerReclaim? || step.ReconcileRequeue? || step.ReconcileFail? || step.Create? || step.ReadBalance? || step.Land?
    ensures LeaseInv(cfg, Apply(cfg, s, step))
  {
    forall h | 0 <= h < |s.holders| && Live(s.holders[h])
      ensures s.holders[h].row < |s.rows| && !Stale(s.rows[s.holders[h].row], s.now, cfg.staleSecs)
      ensures s.rows[s.holders[h].row].status == Posting
    {
      LiveRowNotStale(cfg, s, h);
      assert Holds(s, h);
    }
    SweepKeepsLease(cfg, s, Apply(cfg, s, step));
  }

  lemma TickStep(cfg: Config, s: System, d: nat)
    requires LeaseInv(cfg, s) && TimelyStep(cfg, s, Tick(d))
    ensures LeaseInv(cfg, s.(now := s.now + d))
  {
    var t := s.(now := s.now + d);
    forall h | 0 <= h < |t.holders| ensures BatchShape(cfg, t, h) && Holds(t, h) {
      assert BatchShape(cfg, s, h) && Holds(s, h);
    }
  }

  /** A live holder moves from one live phase to another. */
  lemma PhaseKeepsLease(cfg: Config, s: System, h: nat, phase: Phase, t: System)
    requires LeaseInv(cfg, s) && h < |s.holders| && Live(s.holders[h]) && Live(s.holders[h].(phase := phase))
    requires t.holders == SetPhase(s, h, phase).holders && t.rows == s.rows && t.now == s.now
    ensures LeaseInv(cfg, t)
  {
    forall g | 0 <= g < |t.holders| ensures BatchShape(cfg, t, g) && Holds(t, g) {
      assert BatchShape(cfg, s, g) && Holds(s, g);
    }
  }

  lemma CrashStep(cfg: Config, s: System, base: nat)
    requires LeaseInv(cfg, s)
    ensures LeaseInv(cfg, s.(holders := Kill(s.holders, base)))
  {
    var t := s.(holders := Kill(s.holders, base));
    forall h | 0 <= h < |t.holders| ensures BatchShape(cfg, t, h) && Holds(t, h) {
      assert BatchShape(cfg, s, h) && Holds(s, h);
    }
  }

  lemma WriteBackKeepsLease(cfg: Config, s: System, h: nat, lost: bool, reason: string)
    requires LeaseInv(cfg, s) && Enabled(cfg, s, WriteBack(h, lost, reason))
    ensures LeaseInv(cfg, Apply(cfg, s, WriteBack(h, lost, reason)))
  {
    var t := Apply(cfg, s, WriteBack(h, lost, reason));
    var x := s.holders[h];
    assert x.phase == Answered(x.phase.ok);
    WithinLease(cfg, s, h);
    forall g | 0 <= g < |t.holders| ensures BatchShape(cfg, t, g) {
      assert BatchShape(cfg, s, g);
    }
    forall g | 0 <= g < |t.holders| ensures Holds(t, g) {
      assert Holds(s, g);
      if Live(t.holders[g]) {
        assert t.rows[t.holders[g].row] == s.rows[t.holders[g].row];
      }
    }
  }

  /** New claims on rows that were pending, one batch at the end of the holders. */
  lemma ClaimKeepsLease(cfg: Config, s: System, t: System)
    requires LeaseInv(cfg, s) && t.now == s.now && |t.rows| == |s.rows| && s.holders <= t.holders
    requires (|t.holders| - |s.holders|) * cfg.perRowMs <= Millis(cfg.staleSecs)
    requires forall i :: 0 <= i < |s.rows| && s.rows[i].status == Posting ==> t.rows[i] == s.rows[i]
    requires forall g :: |s.holders| <= g < |t.holders| ==>
      && t.holders[g].base == |s.holders| && t.holders[g].claimedAt == s.now && t.holders[g].phase == Claimed
      && Holds(t, g) && t.holders[g].row < |s.rows| && s.rows[t.holders[g].row].status == Pending
    requires forall g, h :: |s.holders| <= g < h < |t.holders| ==> t.holders[g].row != t.holders[h].row
    ensures LeaseInv(cfg, t)
  {
    var n := |s.holders|;
    assert forall g :: 0 <= g < n ==> t.holders[g] == s.holders[g];
    forall g | 0 <= g < |t.holders| ensures BatchShape(cfg, t, g) && Holds(t, g) {
      if g < n {
        assert BatchShape(cfg, s, g) && Holds(s, g);
      } else {
        SmallerProduct(g - n + 1, |t.holders| - n, cfg.perRowMs);
      }
    }
    forall g, h | 0 <= g < h < |t.holders| && Live(t.holders[g]) && Live(t.holders[h])
      ensures t.holders[g].row != t.holders[h].row
    {
      if g < n <= h { assert Holds(s, g); }
    }
  }

  lemma SmallerProduct(a: nat, b: nat, t: nat)
    requires a <= b
    ensures a * t <= b * t
  {
    assert (b - a) * t >= 0;
  }

  lemma HandlerClaimStep(cfg: Config, s: System, id: nat, p: Params)
    requires LeaseInv(cfg, s) && Allowed(cfg, {Timely}, s, HandlerClaim(id, p))
    ensures LeaseInv(cfg, Apply(cfg, s, HandlerClaim(id, p)))
  {
    var t := Apply(cfg, s, HandlerClaim(id, p));
    assert s.holders <= t.holders;
    ClaimKeepsLease(cfg, s, t);
  }

  lemma WorkerClaimStep(cfg: Config, s: System, ids: seq<nat>, env: Option<string>)
    requires LeaseInv(cfg, s) && Allowed(cfg, {Timely}, s, WorkerClaim(ids, env))
    ensures LeaseInv(cfg, Apply(cfg, s, WorkerClaim(ids, env)))
  {
    var t := Apply(cfg, s, WorkerClaim(ids, env));
    var n := |s.holders|;
    assert s.holders <= t.holders;
    forall g | n <= g < |t.holders|
      ensures t.holders[g].base == n && t.holders[g].claimedAt == s.now && t.holders[g].phase == Claimed
      ensures t.holders[g].row == ids[g - n] < |s.rows| && Holds(t, g)
      ensures s.rows[t.holders[g].row].status == Pending
    {
      assert t.holders[g] == NewHolders(t.rows, ids, s.now, n)[g - n];
      assert ids[g - n] in ids;
    }
    forall i | 0 <= i < |s.rows| && s.rows[i].status == Posting ensures t.rows[i] == s.rows[i] { }
    ClaimKeepsLease(cfg, s, t);
  }

  lemma LivePhaseStep(cfg: Config, s: System, step: Step)
    requires LeaseInv(cfg, s) && Enabled(cfg, s, step) && (step.Send? || step.Answer?)
    ensures LeaseInv(cfg, Apply(cfg, s, step))
  {
    PhaseKeepsLease(cfg, s, step.h, if step.Send? then Calling else Answered(step.ok), Apply(cfg, s, step));
  }

  lemma CrashKeepsLease(cfg: Config, s: System, h: nat)
    requires LeaseInv(cfg, s) && Enabled(cfg, s, Crash(h))
    ensures LeaseInv(cfg, Apply(cfg, s, Crash(h)))
  {
    CrashStep(cfg, s, s.holders[h].base);
  }

  lemma StepKeepsLease(cfg: Config, s: System, step: Step)
    requires LeaseInv(cfg, s) && Allowed(cfg, {Timely}, s, step)
    ensures LeaseInv(cfg, Apply(cfg, s, step))
  {
    if step.HandlerClaim? {
      HandlerClaimStep(cfg, s, step.id, step.p);
    } else if step.WorkerClaim? {
      WorkerClaimStep(cfg, s, step.ids, step.env);
    } else if step.Send? || step.Answer? {
      LivePhaseStep(cfg, s, step);
    } else if step.WriteBack? {
      WriteBackKeepsLease(cfg, s, step.h, step.lost, step.reason);
    } else if step.Crash? {
      CrashKeepsLease(cfg, s, step.h);
    } else if step.Tick? {
      TickStep(cfg, s, step.d);
    } else {
      StaleSteps(cfg, s, step);
    }
  }

  lemma {:induction false} LeaseHolds(cfg: Config, hyp: set<Hypothesis>, s: System, steps: seq<Step>)
    requires Timely in hyp && LeaseInv(cfg, s) && Legal(cfg, hyp, s, steps)
    ensures LeaseInv(cfg, Run(cfg, hyp, s, steps))
    decreases |steps|
  {
    if steps != [] {
      StepKeepsLease(cfg, s, steps[0]);
      LeaseHolds(cfg, hyp, Apply(cfg, s, steps[0]), steps[1..]);
    }
  }

  /** In every reachable state a row has at most one live holder, and a held row is in posting. */
  lemma LeaseExclusivity(cfg: Config, hyp: set<Hypothesis>, t0: int, steps: seq<Step>)
    requires Timely in hyp && Legal(cfg, hyp, Init(t0), steps)
    ensures var s := Run(cfg, hyp, Init(t0), steps);
      && Exclusive(s)
      && forall h :: 0 <= h < |s.holders| && Live(s.holders[h]) ==>
           && s.holders[h].row < |s.rows| && s.rows[s.holders[h].row].status == Posting
           && s.now <= s.holders[h].claimedAt + Millis(cfg.staleSecs)
  {
    LeaseHolds(cfg, hyp, Init(t0), steps);
    var s := Run(cfg, hyp, Init(t0), steps);
    forall h | 0 <= h < |s.holders| && Live(s.holders[h])
      ensures s.holders[h].row < |s.rows| && s.rows[s.holders[h].row].status == Posting
      ensures s.now <= s.holders[h].claimedAt + Millis(cfg.staleSecs)
    {
      WithinLease(cfg, s, h);
      assert Holds(s, h);
    }
  }

  // ---------- Terminal rows ----------

  predicate Terminal(r: Row) {
    r.status == Posted || r.status == Failed
  }

  lemma TerminalStep(cfg: Config, s: System, step: Step, i: nat)
    requires LeaseInv(cfg, s) && Enabled(cfg, s, step) && i < |s.rows| && Terminal(s.rows[i])
    ensures var rows := Apply(cfg, s, step).rows; i < |rows| && rows[i] == s.rows[i]
  {
    if step.WriteBack? {
      assert Holds(s, step.h);
      assert s.holders[step.h].phase == Answered(s.holders[step.h].phase.ok);
    }
  }

  /** A row that is posted or failed never changes again. */
  lemma {:induction false} TerminalForever(cfg: Config, hyp: set<Hypothesis>, s: System, steps: seq<Step>, i: nat)
    requires Timely in hyp && LeaseInv(cfg, s) && Legal(cfg, hyp, s, steps)
    requires i < |s.rows| && Terminal(s.rows[i])
    ensures var rows := Run(cfg, hyp, s, steps).rows; i < |rows| && rows[i] == s.rows[i]
    decreases |steps|
  {
    if steps != [] {
      StepKeepsLease(cfg, s, steps[0]);
      TerminalStep(cfg, s, steps[0], i);
      TerminalForever(cfg, hyp, Apply(cfg, s, steps[0]), steps[1..], i);
    }
  }

  /** Whatever follows a reachable state, its posted and failed rows stay as they are. */
  lemma TerminalRowsAreFinal(
    cfg: Config, hyp: set<Hypothesis>, t0: int, before: seq<Step>, after: seq<Step>, i: nat)
    requires Timely in hyp && Legal(cfg, hyp, Init(t0), before)
    requires Legal(cfg, hyp, Run(cfg, hyp, Init(t0), before), after)
    requires i < |Run(cfg, hyp, Init(t0), before).rows| && Terminal(Run(cfg, hyp, Init(t0), before).rows[i])
    ensures var s := Run(cfg, hyp, Init(t0), before); var rows := Run(cfg, hyp, s, after).rows;
      i < |rows| && rows[i] == s.rows[i]
  {
    LeaseHolds(cfg, hyp, Init(t0), before);
    TerminalForever(cfg, hyp, Run(cfg, hyp, Init(t0), before), after, i);
  }

  // ---------- The retry budget ----------

  /** How often the worker has claimed row `i`. */
  function WorkerClaims(holders: seq<Holder>, i: nat): nat {
    if holders == [] then 0
    else
      var n := |holders| - 1;
      WorkerClaims(holders[..n], i) + if holders[n].worker && holders[n].row == i then 1 else 0
  }

  lemma {:induction false} ClaimsSnoc(holders: seq<Holder>, more: seq<Holder>, i: nat)
    ensures WorkerClaims(holders + more, i) == WorkerClaims(holders, i) + WorkerClaims(more, i)
  {
    if more == [] {
      assert holders + more == holders;
    } else {
      var n := |more| - 1;
      assert holders + more == (holders + more[..n]) + [more[n]];
      assert ((holders + more[..n]) + [more[n]])[..|holders| + n] == holders + more[..n];
      ClaimsSnoc(holders, more[..n], i);
    }
  }

  lemma {:induction false} ClaimsSamePhase(a: seq<Holder>, b: seq<Holder>, i: nat)
    requires |a| == |b| && forall g :: 0 <= g < |a| ==> a[g].worker == b[g].worker && a[g].row == b[g].row
    ensures WorkerClaims(a, i) == WorkerClaims(b, i)
  {
    if a != [] {
      ClaimsSamePhase(a[..|a| - 1], b[..|b| - 1], i);
    }
  }

  /** A batch of distinct rows claims each of them once. */
  lemma {:induction false} ClaimsOfBatch(more: seq<Holder>, ids: seq<nat>, i: nat)
    requires |more| == |ids| && forall g :: 0 <= g < |ids| ==> more[g].worker && more[g].row == ids[g]
    requires forall g, h :: 0 <= g < h < |ids| ==> ids[g] != ids[h]
    ensures WorkerClaims(more, i) == if i in ids then 1 else 0
  {
    if ids != [] {
      var n := |ids| - 1;
      ClaimsOfBatch(more[..n], ids[..n], i);
      assert ids == ids[..n] + [ids[n]];
    }
  }

  lemma {:induction false} ClaimsOfFresh(holders: seq<Holder>, i: nat)
    requires forall g :: 0 <= g < |holders| ==> holders[g].row < i
    ensures WorkerClaims(holders, i) == 0
  {
    if holders != [] {
      ClaimsOfFresh(holders[..|holders| - 1], i);
    }
  }

  /** The retry count of every row is the number of times the worker has claimed it. */
  predicate CountsClaims(s: System) {
    && (forall h :: 0 <= h < |s.holders| ==> s.holders[h].row < |s.rows|)
    && (forall i :: 0 <= i < |s.rows| ==> s.rows[i].retryCount == WorkerClaims(s.holders, i))
  }

  /** A batch raises the count of each of its rows, and the claims of it, by one. */
  lemma BatchCounts(rows: seq<Row>, after: seq<Row>, holders: seq<Holder>, more: seq<Holder>, ids: seq<nat>, i: nat)
    requires i < |rows| == |after| && rows[i].retryCount == WorkerClaims(holders, i)
    requires after[i].retryCount == rows[i].retryCount + if i in ids then 1 else 0
    requires |more| == |ids| && forall g :: 0 <= g < |ids| ==> more[g].worker && more[g].row == ids[g]
    requires forall g, h :: 0 <= g < h < |ids| ==> ids[g] != ids[h]
    ensures after[i].retryCount == WorkerClaims(holders + more, i)
  {
    ClaimsSnoc(holders, more, i);
    ClaimsOfBatch(more, ids, i);
  }

  lemma WorkerClaimCounts(cfg: Config, s: System, ids: seq<nat>, env: Option<string>)
    requires CountsClaims(s) && Enabled(cfg, s, WorkerClaim(ids, env))
    ensures CountsClaims(Apply(cfg, s, WorkerClaim(ids, env)))
  {
    var t := Apply(cfg, s, WorkerClaim(ids, env));
    var more := NewHolders(t.rows, ids, s.now, |s.holders|);
    forall i | 0 <= i < |t.rows| ensures t.rows[i].retryCount == WorkerClaims(t.holders, i) {
      BatchCounts(s.rows, t.rows, s.holders, more, ids, i);
    }
  }

  lemma OtherStepCounts(s: System, t: System)
    requires CountsClaims(s) && |s.rows| <= |t.rows| && |t.holders| == |s.holders|
    requires forall g :: 0 <= g < |s.holders| ==>
      t.holders[g].worker == s.holders[g].worker && t.holders[g].row == s.holders[g].row
    requires forall i :: 0 <= i < |s.rows| ==> t.rows[i].retryCount == s.rows[i].retryCount
    requires forall i :: |s.rows| <= i < |t.rows| ==> t.rows[i].retryCount == 0
    ensures CountsClaims(t)
  {
    forall i | 0 <= i < |t.rows| ensures t.rows[i].retryCount == WorkerClaims(t.holders, i) {
      ClaimsSamePhase(s.holders, t.holders, i);
      if i >= |s.rows| { ClaimsOfFresh(s.holders, i); }
    }
  }

  lemma HandlerClaimCounts(cfg: Config, s: System, id: nat, p: Params)
    requires CountsClaims(s) && Enabled(cfg, s, HandlerClaim(id, p))
    ensures CountsClaims(Apply(cfg, s, HandlerClaim(id, p)))
  {
    var t := Apply(cfg, s, HandlerClaim(id, p));
    var x := t.holders[|s.holders|];
    assert t.holders == s.holders + [x];
    forall i | 0 <= i < |t.rows| ensures t.rows[i].retryCount == WorkerClaims(t.holders, i) {
      ClaimsSnoc(s.holders, [x], i);
      assert [x][..0] == [] && WorkerClaims([x], i) == 0;
    }
  }

  lemma WriteBackCounts(cfg: Config, s: System, h: nat, lost: bool, reason: string)
    requires CountsClaims(s) && Enabled(cfg, s, WriteBack(h, lost, reason))
    ensures CountsClaims(Apply(cfg, s, WriteBack(h, lost, reason)))
  {
    OtherStepCounts(s, Apply(cfg, s, WriteBack(h, lost, reason)));
  }

  lemma StepCountsClaims(cfg: Config, s: System, step: Step)
    requires CountsClaims(s) && Enabled(cfg, s, step)
    ensures CountsClaims(Apply(cfg, s, step))
  {
    if step.WorkerClaim? {
      WorkerClaimCounts(cfg, s, step.ids, step.env);
    } else if step.HandlerClaim? {
      HandlerClaimCounts(cfg, s, step.id, step.p);
    } else if step.WriteBack? {
      WriteBackCounts(cfg, s, step.h, step.lost, step.reason);
    } else {
      OtherStepCounts(s, Apply(cfg, s, step));
    }
  }

  lemma {:induction false} RetryCountIsClaims(cfg: Config, hyp: set<Hypothesis>, s: System, steps: seq<Step>)
    requires CountsClaims(s) && Legal(cfg, hyp, s, steps)
    ensures CountsClaims(Run(cfg, hyp, s, steps))
    decreases |steps|
  {
    if steps != [] {
      StepCountsClaims(cfg, s, steps[0]);
      RetryCountIsClaims(cfg, hyp, Apply(cfg, s, steps[0]), steps[1..]);
    }
  }

  /** A pending row, or one a handler holds, has an attempt left beyond its expiries; no row exceeds them all. */
  predicate WithinBudget(cfg: Config, s: System) {
    && |s.expiries| == |s.rows|
    && (forall i :: 0 <= i < |s.rows| ==>
         && s.rows[i].retryCount <= cfg.maxAttempts + s.expiries[i]
         && (s.rows[i].status == Pending ==> s.rows[i].retryCount < cfg.maxAttempts + s.expiries[i]))
    && (forall h :: 0 <= h < |s.holders| && Live(s.holders[h]) && !s.holders[h].worker && s.holders[h].row < |s.rows| ==>
         s.rows[s.holders[h].row].retryCount < cfg.maxAttempts + s.expiries[s.holders[h].row])
  }

  lemma BudgetWriteBack(cfg: Config, s: System, h: nat, lost: bool, reason: string)
    requires LeaseInv(cfg, s) && WithinBudget(cfg, s) && Enabled(cfg, s, WriteBack(h, lost, reason))
    ensures WithinBudget(cfg, Apply(cfg, s, WriteBack(h, lost, reason)))
  {
    var x := s.holders[h];
    assert x.phase == Answered(x.phase.ok);
    assert Holds(s, h);
    var t := Apply(cfg, s, WriteBack(h, lost, reason));
    forall i | 0 <= i < |t.rows|
      ensures t.rows[i].retryCount == s.rows[i].retryCount
      ensures i != x.row || lost ==> t.rows[i] == s.rows[i]
    {
    }
  }

  lemma BudgetSweep(cfg: Config, s: System, step: Step)
    requires cfg.maxAttempts > 0 && LeaseInv(cfg, s) && WithinBudget(cfg, s) && Enabled(cfg, s, step)
    requires step.WorkerReclaim? || step.ReconcileRequeue? || step.ReconcileFail? || step.Create?
    ensures WithinBudget(cfg, Apply(cfg, s, step))
  {
    var t := Apply(cfg, s, step);
    forall h | 0 <= h < |s.holders| && Live(s.holders[h])
      ensures s.holders[h].row < |s.rows| && t.rows[s.holders[h].row].retryCount == s.rows[s.holders[h].row].retryCount
      ensures t.expiries[s.holders[h].row] == s.expiries[s.holders[h].row]
    {
      LiveRowNotStale(cfg, s, h);
      assert Holds(s, h);
    }
    forall i | 0 <= i < |t.rows|
      ensures t.rows[i].retryCount <= cfg.maxAttempts + t.expiries[i]
      ensures t.rows[i].status == Pending ==> t.rows[i].retryCount < cfg.maxAttempts + t.expiries[i]
    {
    }
  }

  lemma BudgetClaimStep(cfg: Config, s: System, step: Step)
    requires LeaseInv(cfg, s) && WithinBudget(cfg, s) && Enabled(cfg, s, step)
    requires step.WorkerClaim? || step.HandlerClaim?
    ensures WithinBudget(cfg, Apply(cfg, s, step))
  {
    BudgetClaim(cfg, s, Apply(cfg, s, step));
  }

  /** Holders may change their phase, but none becomes live; rows and expiries stay. */
  lemma BudgetOther(cfg: Config, s: System, step: Step)
    requires WithinBudget(cfg, s) && Enabled(cfg, s, step)
    requires step.Crash? || step.Send? || step.Answer? || step.Land? || step.Tick? || step.ReadBalance?
    ensures WithinBudget(cfg, Apply(cfg, s, step))
  {
    var t := Apply(cfg, s, step);
    forall h | 0 <= h < |t.holders| && Live(t.holders[h])
      ensures Live(s.holders[h]) && t.holders[h].row == s.holders[h].row && t.holders[h].worker == s.holders[h].worker
    {
    }
  }

  lemma StepKeepsBudget(cfg: Config, s: System, step: Step)
    requires cfg.maxAttempts > 0 && LeaseInv(cfg, s) && WithinBudget(cfg, s) && Enabled(cfg, s, step)
    ensures WithinBudget(cfg, Apply(cfg, s, step))
  {
    if step.WriteBack? {
      BudgetWriteBack(cfg, s, step.h, step.lost, step.reason);
    } else if step.WorkerClaim? || step.HandlerClaim? {
      BudgetClaimStep(cfg, s, step);
    } else if step.WorkerReclaim? || step.ReconcileRequeue? || step.ReconcileFail? || step.Create? {
      BudgetSweep(cfg, s, step);
    } else {
      BudgetOther(cfg, s, step);
    }
  }

  lemma BudgetClaim(cfg: Config, s: System, t: System)
    requires LeaseInv(cfg, s) && WithinBudget(cfg, s) && s.holders <= t.holders
    requires |t.rows| == |s.rows| && t.expiries == s.expiries
    requires forall i :: 0 <= i < |s.rows| ==>
      t.rows[i] == s.rows[i] ||
      (s.rows[i].status == Pending && t.rows[i].status == Posting && t.rows[i].retryCount <= s.rows[i].retryCount + 1)
    requires forall g :: |s.holders| <= g < |t.holders| && !t.holders[g].worker && t.holders[g].row < |s.rows| ==>
      s.rows[t.holders[g].row].status == Pending
      && t.rows[t.holders[g].row].retryCount == s.rows[t.holders[g].row].retryCount
    ensures WithinBudget(cfg, t)
  {
    forall h | 0 <= h < |t.holders| && Live(t.holders[h]) && !t.holders[h].worker && t.holders[h].row < |t.rows|
      ensures t.rows[t.holders[h].row].retryCount < cfg.maxAttempts + t.expiries[t.holders[h].row]
    {
      if h < |s.holders| {
        assert t.holders[h] == s.holders[h];
        assert Holds(s, h);
      }
    }
  }

  lemma {:induction false} BudgetHolds(cfg: Config, hyp: set<Hypothesis>, s: System, steps: seq<Step>)
    requires cfg.maxAttempts > 0 && Timely in hyp && LeaseInv(cfg, s) && WithinBudget(cfg, s)
    requires Legal(cfg, hyp, s, steps)
    ensures WithinBudget(cfg, Run(cfg, hyp, s, steps))
    decreases |steps|
  {
    if steps != [] {
      StepKeepsLease(cfg, s, steps[0]);
      StepKeepsBudget(cfg, s, steps[0]);
      BudgetHolds(cfg, hyp, Apply(cfg, s, steps[0]), steps[1..]);
    }
  }

  /**
  In every reachable state the worker has claimed a row at most as often as the attempts allow
  plus the row's lease expiries, and a row still pending has an attempt left.
  */
  lemma RetryBudget(cfg: Config, hyp: set<Hypothesis>, t0: int, steps: seq<Step>, i: nat)
    requires cfg.maxAttempts > 0 && Timely in hyp && Legal(cfg, hyp, Init(t0), steps)
    requires i < |Run(cfg, hyp, Init(t0), steps).rows|
    ensures var s := Run(cfg, hyp, Init(t0), steps);
      && |s.expiries| == |s.rows|
      && s.rows[i].retryCount == WorkerClaims(s.holders, i) <= cfg.maxAttempts + s.expiries[i]
      && (s.rows[i].status == Pending ==> WorkerClaims(s.holders, i) < cfg.maxAttempts + s.expiries[i])
  {
    RetryCountIsClaims(cfg, hyp, Init(t0), steps);
    BudgetHolds(cfg, hyp, Init(t0), steps);
  }

}
