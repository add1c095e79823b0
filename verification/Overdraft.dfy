/** No customer balance goes negative, although the check is made once and skipped on retries. */
module Overdraft {
  import opened Outbox
  import opened Protocol
  import opened ExactlyOnce
  import opened CrossService
  import Lease
  import L = Ledger

  const ALL: set<Hypothesis> := {Honest, Timely, Prudent, Prompt}

  function DebitAccount(p: Params): L.AccountKey {
    AccountOf(p, p.from)
  }

  predicate OutstandingDebit(r: Row) {
    Debit(r.p) && Outstanding(r)
  }

  /** Balances are not negative, and each covers the one outstanding debit it may have. */
  ghost predicate Covered(rows: seq<Row>, l: L.Ledger) {
    && (forall a: L.AccountKey :: !L.IsSystem(a.ext) ==> CustomerView(l, a) >= 0)
    && (forall i :: 0 <= i < |rows| && OutstandingDebit(rows[i]) && !Landed(l, rows[i].p) ==>
         CustomerView(l, DebitAccount(rows[i].p)) >= rows[i].p.amount)
    && (forall i, j :: 0 <= i < j < |rows| && OutstandingDebit(rows[i]) && OutstandingDebit(rows[j]) ==>
         DebitAccount(rows[i].p) != DebitAccount(rows[j].p))
  }

  /** The landing of a row that is still outstanding. */
  lemma LandingStaysCovered(rows: seq<Row>, l: L.Ledger, r: L.Ledger, id: nat)
    requires Covered(rows, l) && DistinctKeys(rows) && id < |rows| && Outstanding(rows[id])
    requires forall i :: 0 <= i < |rows| ==> WellFormed(rows[i].p)
    requires Lands(l, r, id, rows[id].p)
    ensures Covered(rows, r)
  {
    var p := rows[id].p;
    forall a: L.AccountKey | !L.IsSystem(a.ext)
      ensures CustomerView(r, a) == CustomerView(l, a) + Share(p, a)
      ensures Share(p, a) >= 0 || (Debit(p) && a == DebitAccount(p) && Share(p, a) == -p.amount)
    {
      PairIsShare(l, r, id, p, a);
    }
    forall i | 0 <= i < |rows| && OutstandingDebit(rows[i]) && !Landed(r, rows[i].p)
      ensures CustomerView(r, DebitAccount(rows[i].p)) >= rows[i].p.amount
    {
      assert !Landed(l, rows[i].p) && i != id;
      assert WellFormed(rows[i].p);
    }
  }

  /** A check that is still clear: no debit of its account is outstanding, and the balance has not dropped. */
  ghost predicate Backed(checks: seq<Check>, rows: seq<Row>, l: L.Ledger) {
    forall c :: 0 <= c < |checks| ==>
      && WellFormed(checks[c].p)
      && (checks[c].clear ==>
           && NoDebitOutstanding(rows, DebitAccount(checks[c].p))
           && CustomerView(l, DebitAccount(checks[c].p)) >= checks[c].balance)
  }

  lemma LandingStaysBacked(checks: seq<Check>, rows: seq<Row>, l: L.Ledger, r: L.Ledger, id: nat)
    requires Backed(checks, rows, l) && id < |rows| && Outstanding(rows[id]) && WellFormed(rows[id].p)
    requires Lands(l, r, id, rows[id].p)
    ensures Backed(checks, rows, r)
  {
    forall c | 0 <= c < |checks| && checks[c].clear
      ensures CustomerView(r, DebitAccount(checks[c].p)) >= checks[c].balance
    {
      PairIsShare(l, r, id, rows[id].p, DebitAccount(checks[c].p));
    }
  }

  lemma RpcStaysCovered(s: System, id: nat)
    requires Inv(s) && Covered(s.rows, s.ledger) && Backed(s.checks, s.rows, s.ledger)
    requires id < |s.rows| && Outstanding(s.rows[id])
    ensures var l := L.Rpc(s.ledger, RequestOf(id, s.rows[id].p)).0; Covered(s.rows, l) && Backed(s.checks, s.rows, l)
  {
    RpcOnRow(s.ledger, id, s.rows[id].p);
    var r := L.Rpc(s.ledger, RequestOf(id, s.rows[id].p)).0;
    if r != s.ledger {
      LandingStaysCovered(s.rows, s.ledger, r, id);
      LandingStaysBacked(s.checks, s.rows, s.ledger, r, id);
    }
  }

  /** A step on the table alone, in which no row becomes outstanding again. */
  lemma TableStaysCovered(checks: seq<Check>, rows: seq<Row>, after: seq<Row>, l: L.Ledger)
    requires Covered(rows, l) && |after| == |rows| && SameRequests(rows, after)
    requires forall i :: 0 <= i < |rows| && Outstanding(after[i]) ==> Outstanding(rows[i])
    requires Backed(checks, rows, l)
    ensures Covered(after, l) && Backed(checks, after, l)
  {
  }

  /** Being told of a step on the table keeps the checks backed. */
  lemma WatchStaysBacked(checks: seq<Check>, rows: seq<Row>, after: seq<Row>, l: L.Ledger)
    requires Backed(checks, rows, l)
    ensures Backed(Watch(checks, after), after, l)
  {
  }

  lemma CreateStaysCovered(cfg: Config, s: System, p: Params, c: nat)
    requires Inv(s) && Covered(s.rows, s.ledger) && Backed(s.checks, s.rows, s.ledger)
    requires Enabled(cfg, s, Create(p, c)) && PrudentStep(s, Create(p, c))
    ensures Covered(CreateOrGet(s.rows, p, s.now), s.ledger)
  {
    var after := CreateOrGet(s.rows, p, s.now);
    if |after| > |s.rows| {
      AddedStaysCovered(s.rows, after, s.ledger, p, s.now);
    }
  }

  lemma AddedStaysCovered(rows: seq<Row>, after: seq<Row>, l: L.Ledger, p: Params, now: int)
    requires Covered(rows, l) && after == rows + [FreshRow(p, now)]
    requires Debit(p) ==> CustomerView(l, DebitAccount(p)) >= p.amount && NoDebitOutstanding(rows, DebitAccount(p))
    ensures Covered(after, l)
  {
    assert forall i :: 0 <= i < |rows| ==> after[i] == rows[i];
  }

  /** A balance read is right: 0 for an account the ledger has no balance for. */
  lemma ReadStaysBacked(s: System, p: Params)
    requires Inv(s) && Backed(s.checks, s.rows, s.ledger) && WellFormed(p)
    ensures var a := DebitAccount(p);
      Backed(s.checks + [Check(p, -L.BalanceRead(s.ledger, a), NoDebitOutstanding(s.rows, a))], s.rows, s.ledger)
  {
  }

  lemma NoneReopens(cfg: Config, s: System, step: Step)
    requires Lease.LeaseInv(cfg, s) && Enabled(cfg, s, step)
    ensures var t := Apply(cfg, s, step);
      |s.rows| <= |t.rows| && forall i :: 0 <= i < |s.rows| && Outstanding(t.rows[i]) ==> Outstanding(s.rows[i])
  {
    StepKeepsRequests(cfg, s, step);
    forall i | 0 <= i < |s.rows| && !Outstanding(s.rows[i]) ensures !Outstanding(Apply(cfg, s, step).rows[i]) {
      Lease.TerminalStep(cfg, s, step, i);
    }
  }

  ghost predicate Admitted(s: System) {
    Covered(s.rows, s.ledger) && Backed(s.checks, s.rows, s.ledger)
  }

  /** The row of a holder whose call is out is outstanding. */
  lemma HeldIsOutstanding(cfg: Config, s: System, h: nat)
    requires Inv(s) && Lease.LeaseInv(cfg, s) && h < |s.holders| && s.holders[h].phase == Calling
    ensures var x := s.holders[h];
      x.row < |s.rows| && Outstanding(s.rows[x.row]) && x.req == RequestOf(x.row, s.rows[x.row].p)
  {
    assert Lease.Holds(s, h) && HolderSound(s, s.holders[h]);
  }

  lemma CallStaysCovered(cfg: Config, s: System, step: Step)
    requires Inv(s) && Lease.LeaseInv(cfg, s) && Admitted(s) && Allowed(cfg, ALL, s, step)
    requires step.Land? || step.Answer?
    ensures Admitted(Apply(cfg, s, step))
  {
    var h: nat;
    if step.Land? {
      h :| 0 <= h < |s.holders| && s.holders[h].phase == Calling && s.holders[h].req == step.req;
    } else {
      h := step.h;
    }
    HeldIsOutstanding(cfg, s, h);
    RpcStaysCovered(s, s.holders[h].row);
  }

  lemma AdmissionStaysCovered(cfg: Config, s: System, step: Step)
    requires Inv(s) && Admitted(s) && Allowed(cfg, {Prudent}, s, step) && (step.ReadBalance? || step.Create?)
    ensures Admitted(Apply(cfg, s, step))
  {
    if step.ReadBalance? {
      ReadStaysBacked(s, step.p);
    } else {
      CreateStaysCovered(cfg, s, step.p, step.check);
      WatchStaysBacked(s.checks, s.rows, Apply(cfg, s, step).rows, s.ledger);
    }
  }

  lemma StepStaysCovered(cfg: Config, s: System, step: Step)
    requires Inv(s) && Lease.LeaseInv(cfg, s) && Admitted(s) && Allowed(cfg, ALL, s, step)
    ensures Admitted(Apply(cfg, s, step))
  {
    if step.ReadBalance? || step.Create? {
      AdmissionStaysCovered(cfg, s, step);
    } else if step.Land? || step.Answer? {
      CallStaysCovered(cfg, s, step);
    } else {
      OtherStaysCovered(cfg, s, step);
    }
  }

  lemma OtherStaysCovered(cfg: Config, s: System, step: Step)
    requires Lease.LeaseInv(cfg, s) && Admitted(s) && Enabled(cfg, s, step)
    requires !step.ReadBalance? && !step.Create? && !step.Land? && !step.Answer?
    ensures Admitted(Apply(cfg, s, step))
  {
    var t := Apply(cfg, s, step);
    StepKeepsRequests(cfg, s, step);
    NoneReopens(cfg, s, step);
    TableStaysCovered(s.checks, s.rows, t.rows, s.ledger);
    WatchStaysBacked(s.checks, s.rows, t.rows, s.ledger);
  }

  lemma {:induction false} CoveredHolds(cfg: Config, hyp: set<Hypothesis>, s: System, steps: seq<Step>)
    requires ALL <= hyp && Inv(s) && Lease.LeaseInv(cfg, s) && Admitted(s) && Legal(cfg, hyp, s, steps)
    ensures Admitted(Run(cfg, hyp, s, steps))
    decreases |steps|
  {
    if steps != [] {
      StepKeepsInv(cfg, s, steps[0]);
      Lease.StepKeepsLease(cfg, s, steps[0]);
      StepStaysCovered(cfg, s, steps[0]);
      CoveredHolds(cfg, hyp, Apply(cfg, s, steps[0]), steps[1..]);
    }
  }

  /**
  No overdraft, when no debit of the account was outstanding at any instant from the balance read to
  the insert: in every reachable state every customer balance is non-negative, and a debit that is
  still to be posted is covered by it. The check need not be repeated on a retry.
  */
  lemma NoOverdraft(cfg: Config, hyp: set<Hypothesis>, t0: int, steps: seq<Step>, a: L.AccountKey)
    requires ALL <= hyp && Legal(cfg, hyp, Init(t0), steps) && !L.IsSystem(a.ext)
    ensures var s := Run(cfg, hyp, Init(t0), steps);
      && CustomerView(s.ledger, a) >= 0
      && forall i :: 0 <= i < |s.rows| && OutstandingDebit(s.rows[i]) && DebitAccount(s.rows[i].p) == a ==>
           Landed(s.ledger, s.rows[i].p) || CustomerView(s.ledger, a) >= s.rows[i].p.amount
  {
    CoveredHolds(cfg, hyp, Init(t0), steps);
  }

}
