/** When no holder dies and no write-back is lost, no lease ever expires. */
module Reliable {
  import opened Outbox
  import opened Protocol
  import opened Lease

  /** Every row in posting has a live holder. */
  ghost predicate Attended(s: System) {
    forall i :: 0 <= i < |s.rows| && s.rows[i].status == Posting ==> AttendedRow(s, i)
  }

  ghost predicate AttendedRow(s: System, i: nat) {
    exists h :: 0 <= h < |s.holders| && Live(s.holders[h]) && s.holders[h].row == i
  }

  predicate NoExpiry(s: System) {
    |s.expiries| == |s.rows| && forall i :: 0 <= i < |s.expiries| ==> s.expiries[i] == 0
  }

  lemma NothingStale(cfg: Config, s: System, i: nat)
    requires LeaseInv(cfg, s) && Attended(s) && i < |s.rows|
    ensures !Stale(s.rows[i], s.now, cfg.staleSecs)
  {
    if s.rows[i].status == Posting {
      assert AttendedRow(s, i);
      var h :| 0 <= h < |s.holders| && Live(s.holders[h]) && s.holders[h].row == i;
      LiveRowNotStale(cfg, s, h);
    }
  }

  /** A step that takes no row into posting, and no holder off a row that stays there. */
  lemma StaysAttended(s: System, t: System)
    requires Attended(s) && |s.rows| <= |t.rows| && |t.holders| == |s.holders|
    requires forall i :: 0 <= i < |t.rows| && t.rows[i].status == Posting ==> i < |s.rows| && s.rows[i].status == Posting
    requires forall h :: 0 <= h < |s.holders| && Live(s.holders[h]) && s.holders[h].row < |t.rows|
                         && t.rows[s.holders[h].row].status == Posting ==>
      Live(t.holders[h]) && t.holders[h].row == s.holders[h].row
    ensures Attended(t)
  {
    forall i | 0 <= i < |t.rows| && t.rows[i].status == Posting ensures AttendedRow(t, i) {
      assert AttendedRow(s, i);
      var h :| 0 <= h < |s.holders| && Live(s.holders[h]) && s.holders[h].row == i;
      assert Live(t.holders[h]) && t.holders[h].row == i;
    }
  }

  lemma ClaimAttended(cfg: Config, s: System, step: Step)
    requires Attended(s) && Enabled(cfg, s, step) && (step.HandlerClaim? || step.WorkerClaim?)
    ensures Attended(Apply(cfg, s, step))
  {
    var t := Apply(cfg, s, step);
    var n := |s.holders|;
    forall i | 0 <= i < |t.rows| && t.rows[i].status == Posting ensures AttendedRow(t, i) {
      if s.rows[i].status == Posting {
        assert AttendedRow(s, i);
        var h :| 0 <= h < n && Live(s.holders[h]) && s.holders[h].row == i;
        assert t.holders[h] == s.holders[h];
      } else {
        ClaimedIsAttended(cfg, s, step, i);
      }
    }
  }

  lemma ClaimedIsAttended(cfg: Config, s: System, step: Step, i: nat)
    requires Enabled(cfg, s, step) && (step.HandlerClaim? || step.WorkerClaim?) && i < |s.rows|
    requires s.rows[i].status != Posting && Apply(cfg, s, step).rows[i].status == Posting
    ensures AttendedRow(Apply(cfg, s, step), i)
  {
    var t := Apply(cfg, s, step);
    if step.HandlerClaim? {
      assert Live(t.holders[|s.holders|]);
    } else {
      var g :| 0 <= g < |step.ids| && step.ids[g] == i;
      assert t.holders[|s.holders| + g] == NewHolders(t.rows, step.ids, s.now, |s.holders|)[g];
    }
  }

  lemma SweepAttended(cfg: Config, s: System, step: Step)
    requires LeaseInv(cfg, s) && Attended(s) && NoExpiry(s) && Enabled(cfg, s, step)
    requires step.WorkerReclaim? || step.ReconcileRequeue? || step.ReconcileFail? || step.Create?
    ensures Attended(Apply(cfg, s, step)) && NoExpiry(Apply(cfg, s, step))
  {
    forall i | 0 <= i < |s.rows| ensures !Stale(s.rows[i], s.now, cfg.staleSecs) {
      NothingStale(cfg, s, i);
    }
    StaysAttended(s, Apply(cfg, s, step));
  }

  lemma WriteBackAttended(cfg: Config, s: System, h: nat, reason: string)
    requires LeaseInv(cfg, s) && Attended(s) && Enabled(cfg, s, WriteBack(h, false, reason))
    ensures Attended(Apply(cfg, s, WriteBack(h, false, reason)))
  {
    var x := s.holders[h];
    assert x.phase == Answered(x.phase.ok) && Holds(s, h);
    var t := Apply(cfg, s, WriteBack(h, false, reason));
    assert t.rows[x.row].status != Posting;
    StaysAttended(s, t);
  }

  lemma StepAttended(cfg: Config, s: System, step: Step)
    requires LeaseInv(cfg, s) && Attended(s) && NoExpiry(s) && Enabled(cfg, s, step) && ReliableStep(step)
    ensures Attended(Apply(cfg, s, step)) && NoExpiry(Apply(cfg, s, step))
  {
    if step.HandlerClaim? || step.WorkerClaim? {
      ClaimAttended(cfg, s, step);
    } else if step.WriteBack? {
      WriteBackAttended(cfg, s, step.h, step.reason);
    } else if step.WorkerReclaim? || step.ReconcileRequeue? || step.ReconcileFail? || step.Create? {
      SweepAttended(cfg, s, step);
    } else {
      StaysAttended(s, Apply(cfg, s, step));
    }
  }

  lemma {:induction false} NeverExpires(cfg: Config, hyp: set<Hypothesis>, s: System, steps: seq<Step>)
    requires {Timely, Reliable} <= hyp && Legal(cfg, hyp, s, steps)
    requires LeaseInv(cfg, s) && Attended(s) && NoExpiry(s)
    ensures NoExpiry(Run(cfg, hyp, s, steps)) && Attended(Run(cfg, hyp, s, steps))
    decreases |steps|
  {
    if steps != [] {
      StepKeepsLease(cfg, s, steps[0]);
      StepAttended(cfg, s, steps[0]);
      NeverExpires(cfg, hyp, Apply(cfg, s, steps[0]), steps[1..]);
    }
  }

  /**
  With handlers, worker and reconciler interleaved at will, but no crash and no lost write-back: no
  lease expires, the worker claims a row at most as often as the attempts allow, and less while the
  row is pending.
  */
  lemma ReliableBudget(cfg: Config, hyp: set<Hypothesis>, t0: int, steps: seq<Step>, i: nat)
    requires cfg.maxAttempts > 0 && {Timely, Reliable} <= hyp && Legal(cfg, hyp, Init(t0), steps)
    requires i < |Run(cfg, hyp, Init(t0), steps).rows|
    ensures var s := Run(cfg, hyp, Init(t0), steps);
      && |s.expiries| == |s.rows| && s.expiries[i] == 0
      && WorkerClaims(s.holders, i) <= cfg.maxAttempts
      && (s.rows[i].status == Pending ==> WorkerClaims(s.holders, i) < cfg.maxAttempts)
  {
    NeverExpires(cfg, hyp, Init(t0), steps);
    RetryBudget(cfg, hyp, t0, steps, i);
  }

  // ---------- Giving up ----------

  /** No call of the run is answered with `posted`. */
  predicate NoneConfirmed(steps: seq<Step>) {
    forall i :: 0 <= i < |steps| ==> !(steps[i].Answer? && steps[i].ok)
  }

  predicate NothingPosted(s: System) {
    && (forall i :: 0 <= i < |s.rows| ==> s.rows[i].status != Posted)
    && (forall h :: 0 <= h < |s.holders| ==> s.holders[h].phase != Answered(true))
  }

  lemma StepPostsNothing(cfg: Config, s: System, step: Step)
    requires NothingPosted(s) && Enabled(cfg, s, step) && !(step.Answer? && step.ok)
    ensures NothingPosted(Apply(cfg, s, step))
  {
    if step.WriteBack? { assert s.holders[step.h].phase == Answered(s.holders[step.h].phase.ok); }
  }

  lemma {:induction false} RunPostsNothing(cfg: Config, hyp: set<Hypothesis>, s: System, steps: seq<Step>)
    requires Legal(cfg, hyp, s, steps) && NothingPosted(s) && NoneConfirmed(steps)
    ensures NothingPosted(Run(cfg, hyp, s, steps))
    decreases |steps|
  {
    if steps != [] {
      StepPostsNothing(cfg, s, steps[0]);
      assert forall i :: 0 <= i < |steps[1..]| ==> steps[1..][i] == steps[i + 1];
      RunPostsNothing(cfg, hyp, Apply(cfg, s, steps[0]), steps[1..]);
    }
  }

  /**
  Giving up, with handlers, worker and reconciler interleaved at will: if no call is confirmed, no
  holder dies and no write-back is lost, a row that no holder is working on has failed, or is pending
  with an attempt left. So once the worker has claimed it as often as allowed, it has failed.
  */
  lemma GivesUpInRun(cfg: Config, hyp: set<Hypothesis>, t0: int, steps: seq<Step>, i: nat)
    requires cfg.maxAttempts > 0 && {Timely, Reliable} <= hyp && Legal(cfg, hyp, Init(t0), steps) && NoneConfirmed(steps)
    requires i < |Run(cfg, hyp, Init(t0), steps).rows| && !AttendedRow(Run(cfg, hyp, Init(t0), steps), i)
    ensures var s := Run(cfg, hyp, Init(t0), steps);
      && (s.rows[i].status == Failed || (s.rows[i].status == Pending && WorkerClaims(s.holders, i) < cfg.maxAttempts))
      && (WorkerClaims(s.holders, i) == cfg.maxAttempts ==> s.rows[i].status == Failed)
  {
    NeverExpires(cfg, hyp, Init(t0), steps);
    RunPostsNothing(cfg, hyp, Init(t0), steps);
    ReliableBudget(cfg, hyp, t0, steps, i);
  }

}
