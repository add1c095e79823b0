/**
The ledger of a protocol run is decided by the requests that reached it, in order. No hypothesis
is made on the run.
*/
module Deliveries {
  import opened Options
  import opened Outbox
  import opened Protocol
  import ExactlyOnce
  import L = Ledger
  import LedgerRuns
  import TrialBalance

  /** The well-formed request a step brings to the ledger, if it brings one. */
  function Brought(s: System, step: Step): seq<L.Request>
    requires step.Answer? ==> step.h < |s.holders|
  {
    match step
    case Land(req) => if L.WellFormed(req) then [req] else []
    case Answer(h, ok) => if ok && L.WellFormed(s.holders[h].req) then [s.holders[h].req] else []
    case _ => []
  }

  /** All requests a run brings to the ledger. */
  function Delivered(cfg: Config, hyp: set<Hypothesis>, s: System, steps: seq<Step>): seq<L.Request>
    requires Legal(cfg, hyp, s, steps)
    decreases |steps|
  {
    if steps == [] then []
    else Brought(s, steps[0]) + Delivered(cfg, hyp, Apply(cfg, s, steps[0]), steps[1..])
  }

  lemma StepDelivers(cfg: Config, s: System, step: Step)
    requires Enabled(cfg, s, step)
    ensures Apply(cfg, s, step).ledger == LedgerRuns.RunOk(s.ledger, Brought(s, step))
  {
    var reqs := Brought(s, step);
    if reqs != [] { assert reqs[1..] == []; }
  }

  lemma {:induction false} RunOkConcat(l: L.Ledger, a: seq<L.Request>, b: seq<L.Request>)
    ensures LedgerRuns.RunOk(l, a + b) == LedgerRuns.RunOk(LedgerRuns.RunOk(l, a), b)
    decreases |a|
  {
    if a == [] {
      assert a + b == b;
    } else {
      assert (a + b)[1..] == a[1..] + b;
      RunOkConcat(L.PostOk(l, a[0]).0, a[1..], b);
    }
  }

  /** The ledger after a run is what the poster makes of the delivered requests, one after another. */
  lemma {:induction false} LedgerIsDelivered(cfg: Config, hyp: set<Hypothesis>, s: System, steps: seq<Step>)
    requires Legal(cfg, hyp, s, steps)
    ensures Run(cfg, hyp, s, steps).ledger == LedgerRuns.RunOk(s.ledger, Delivered(cfg, hyp, s, steps))
    decreases |steps|
  {
    if steps != [] {
      var t := Apply(cfg, s, steps[0]);
      StepDelivers(cfg, s, steps[0]);
      LedgerIsDelivered(cfg, hyp, t, steps[1..]);
      RunOkConcat(s.ledger, Brought(s, steps[0]), Delivered(cfg, hyp, t, steps[1..]));
    }
  }

  // ---------- What anyone may send ----------

  /** A request for some row: the row's id and key, in one of the three shapes. */
  predicate ForRow(rows: seq<Row>, req: L.Request) {
    && req.extId < |rows| && L.KeyOf(req) == TxKeyOf(rows[req.extId].p)
    && TrialBalance.CustomerShape(req)
  }

  predicate AllForRows(s: System) {
    && DistinctKeys(s.rows)
    && (forall i :: 0 <= i < |s.rows| ==> WellFormed(s.rows[i].p))
    && (forall h :: 0 <= h < |s.holders| ==> ForRow(s.rows, s.holders[h].req) && s.holders[h].req.extId == s.holders[h].row)
    && (forall req :: req in s.wire ==> ForRow(s.rows, req))
  }

  lemma ForMoreRows(rows: seq<Row>, after: seq<Row>, req: L.Request)
    requires ForRow(rows, req) && SameRequests(rows, after)
    ensures ForRow(after, req)
  {
  }

  lemma OwnRequest(rows: seq<Row>, id: nat, p: Params)
    requires id < |rows| && WellFormed(p) && SameKey(rows[id].p, p)
    ensures ForRow(rows, RequestOf(id, p))
  {
    ExactlyOnce.RowRequestShape(id, p);
  }

  lemma CreateKeepsRows(cfg: Config, s: System, p: Params, c: nat)
    requires AllForRows(s) && Enabled(cfg, s, Create(p, c))
    ensures AllForRows(Apply(cfg, s, Create(p, c)))
  {
    var t := Apply(cfg, s, Create(p, c));
    StepKeepsRequests(cfg, s, Create(p, c));
    var i := Find(s.rows, p);
    assert forall j :: 0 <= j < i ==> !SameKey(s.rows[j].p, p);
  }

  lemma ClaimKeepsRows(cfg: Config, s: System, step: Step)
    requires AllForRows(s) && Enabled(cfg, s, step) && (step.HandlerClaim? || step.WorkerClaim?)
    ensures AllForRows(Apply(cfg, s, step))
  {
    var t := Apply(cfg, s, step);
    StepKeepsRequests(cfg, s, step);
    forall h | 0 <= h < |t.holders| ensures ForRow(t.rows, t.holders[h].req) && t.holders[h].req.extId == t.holders[h].row {
      if h < |s.holders| {
        assert t.holders[h] == s.holders[h];
        ForMoreRows(s.rows, t.rows, s.holders[h].req);
      } else {
        var id := t.holders[h].row;
        OwnRequest(t.rows, id, if step.HandlerClaim? then step.p else s.rows[id].p);
      }
    }
  }

  lemma OtherKeepsRows(s: System, t: System)
    requires AllForRows(s) && SameRequests(s.rows, t.rows) && |t.rows| == |s.rows| && |t.holders| == |s.holders|
    requires forall h :: 0 <= h < |s.holders| ==>
      t.holders[h].req == s.holders[h].req && t.holders[h].row == s.holders[h].row
    requires forall req :: req in t.wire ==> req in s.wire || exists h :: 0 <= h < |s.holders| && req == s.holders[h].req
    ensures AllForRows(t)
  {
  }

  lemma StepKeepsRows(cfg: Config, s: System, step: Step)
    requires AllForRows(s) && Enabled(cfg, s, step)
    ensures AllForRows(Apply(cfg, s, step))
  {
    StepKeepsRequests(cfg, s, step);
    if step.Create? {
      CreateKeepsRows(cfg, s, step.p, step.check);
    } else if step.HandlerClaim? || step.WorkerClaim? {
      ClaimKeepsRows(cfg, s, step);
    } else {
      OtherKeepsRows(s, Apply(cfg, s, step));
    }
  }

  /** Every delivered request is for a row, as the table stands in the end. */
  lemma {:induction false} DeliveredForRows(cfg: Config, hyp: set<Hypothesis>, s: System, steps: seq<Step>)
    requires Legal(cfg, hyp, s, steps) && AllForRows(s)
    ensures AllForRows(Run(cfg, hyp, s, steps)) && SameRequests(s.rows, Run(cfg, hyp, s, steps).rows)
    ensures forall req :: req in Delivered(cfg, hyp, s, steps) ==> ForRow(Run(cfg, hyp, s, steps).rows, req)
    decreases |steps|
  {
    if steps != [] {
      var t := Apply(cfg, s, steps[0]);
      StepKeepsRequests(cfg, s, steps[0]);
      StepKeepsRows(cfg, s, steps[0]);
      DeliveredForRows(cfg, hyp, t, steps[1..]);
      forall req | req in Brought(s, steps[0]) ensures ForRow(Run(cfg, hyp, t, steps[1..]).rows, req) {
        assert ForRow(s.rows, req);
        ForMoreRows(s.rows, t.rows, req);
        ForMoreRows(t.rows, Run(cfg, hyp, t, steps[1..]).rows, req);
      }
    }
  }

  // ---------- The first request for a key decides ----------

  /** The position of the first acceptable request for key `k`, or the length of the list. */
  function FirstFor(reqs: seq<L.Request>, k: L.TxKey): (n: nat)
    ensures n <= |reqs|
    ensures n < |reqs| ==> LedgerRuns.Acceptable(reqs[n]) && L.KeyOf(reqs[n]) == k
    ensures forall j :: 0 <= j < n ==> !(LedgerRuns.Acceptable(reqs[j]) && L.KeyOf(reqs[j]) == k)
  {
    if reqs == [] || (LedgerRuns.Acceptable(reqs[0]) && L.KeyOf(reqs[0]) == k) then 0
    else
      var n := 1 + FirstFor(reqs[1..], k);
      assert forall j :: 1 <= j < n ==> reqs[j] == reqs[1..][j - 1];
      n
  }

  /** Debit the source, credit the destination. */
  function PairOf(req: L.Request): seq<L.Entry> {
    [L.Entry(L.KeyOf(req), L.SourceKey(req), L.Debit, req.amount),
     L.Entry(L.KeyOf(req), L.DestKey(req), L.Credit, req.amount)]
  }

  /** What a clean ledger of the three shapes holds for key `k`, if `reqs` are posted on it. */
  predicate DecidedBy(l: L.Ledger, reqs: seq<L.Request>, k: L.TxKey) {
    var n := FirstFor(reqs, k);
    if n == |reqs| then k !in l.txs && L.EntriesOf(l.entries, k) == []
    else
      && k in l.txs && l.txs[k] == L.LedgerTx(reqs[n].extId, L.Posted, None)
      && L.EntriesOf(l.entries, k) == PairOf(reqs[n])
  }

  predicate Clean(l: L.Ledger) {
    LedgerRuns.NoOrphans(l) && TrialBalance.CustomerTypes(l)
  }

  /** One request of the three shapes: nothing, or its pair under its key. */
  lemma CleanPost(l: L.Ledger, req: L.Request, k: L.TxKey)
    requires Clean(l) && TrialBalance.CustomerShape(req)
    ensures var r := L.PostOk(l, req).0;
      && Clean(r)
      && if LedgerRuns.Acceptable(req) && L.KeyOf(req) == k && k !in l.txs then
           && k in r.txs && r.txs[k] == L.LedgerTx(req.extId, L.Posted, None)
           && L.EntriesOf(r.entries, k) == L.EntriesOf(l.entries, k) + PairOf(req)
         else
           && (k in r.txs <==> k in l.txs) && (k in l.txs ==> r.txs[k] == l.txs[k])
           && L.EntriesOf(r.entries, k) == L.EntriesOf(l.entries, k)
  {
    LedgerRuns.CleanCall(l, req, L.FRESH_WRITES);
    TrialBalance.ShapeKeepsTypes(l, req);
    if L.PostOk(l, req).0 != l {
      PlanIsPair(l, req);
      PairAppended(l.entries, req, k);
    }
  }

  lemma PlanIsPair(l: L.Ledger, req: L.Request)
    requires Clean(l) && TrialBalance.CustomerShape(req)
    ensures L.Plan(l, req) == PairOf(req)
  {
    TrialBalance.ShapeEntries(l, req);
  }

  lemma PairAppended(entries: seq<L.Entry>, req: L.Request, k: L.TxKey)
    ensures L.EntriesOf(entries + PairOf(req), k)
         == if k == L.KeyOf(req) then L.EntriesOf(entries, k) + PairOf(req) else L.EntriesOf(entries, k)
  {
    LedgerRuns.EntriesOfConcat(entries, PairOf(req), k);
    LedgerRuns.EntriesOfUniform(PairOf(req), L.KeyOf(req), k);
  }

  /** Once a key is in the ledger, no request of the three shapes changes what it holds for the key. */
  lemma {:induction false} KeyIsSettled(l: L.Ledger, reqs: seq<L.Request>, k: L.TxKey)
    requires Clean(l) && k in l.txs && forall req :: req in reqs ==> TrialBalance.CustomerShape(req)
    ensures var r := LedgerRuns.RunOk(l, reqs);
      k in r.txs && r.txs[k] == l.txs[k] && L.EntriesOf(r.entries, k) == L.EntriesOf(l.entries, k)
    decreases |reqs|
  {
    if reqs != [] {
      CleanPost(l, reqs[0], k);
      KeyIsSettled(L.PostOk(l, reqs[0]).0, reqs[1..], k);
    }
  }

  lemma {:induction false} FirstDecides(l: L.Ledger, reqs: seq<L.Request>, k: L.TxKey)
    requires Clean(l) && k !in l.txs && L.EntriesOf(l.entries, k) == []
    requires forall req :: req in reqs ==> TrialBalance.CustomerShape(req)
    ensures DecidedBy(LedgerRuns.RunOk(l, reqs), reqs, k)
    decreases |reqs|
  {
    if reqs != [] {
      var l1 := L.PostOk(l, reqs[0]).0;
      CleanPost(l, reqs[0], k);
      if LedgerRuns.Acceptable(reqs[0]) && L.KeyOf(reqs[0]) == k {
        KeyIsSettled(l1, reqs[1..], k);
      } else {
        FirstDecides(l1, reqs[1..], k);
      }
    }
  }

  // ---------- Every run ----------

  lemma RunDecided(cfg: Config, hyp: set<Hypothesis>, t0: int, steps: seq<Step>, k: L.TxKey)
    requires Legal(cfg, hyp, Init(t0), steps)
    ensures DecidedBy(Run(cfg, hyp, Init(t0), steps).ledger, Delivered(cfg, hyp, Init(t0), steps), k)
  {
    LedgerIsDelivered(cfg, hyp, Init(t0), steps);
    DeliveredForRows(cfg, hyp, Init(t0), steps);
    FirstDecides(L.EMPTY, Delivered(cfg, hyp, Init(t0), steps), k);
  }

  /** An acceptable request for row `i` has reached the ledger. */
  predicate Arrived(reqs: seq<L.Request>, p: Params) {
    exists n :: 0 <= n < |reqs| && LedgerRuns.Acceptable(reqs[n]) && L.KeyOf(reqs[n]) == TxKeyOf(p)
  }

  lemma ArrivedIsFirst(reqs: seq<L.Request>, p: Params)
    ensures Arrived(reqs, p) <==> FirstFor(reqs, TxKeyOf(p)) < |reqs|
  {
  }

  /**
  A row has its ledger effect if and only if an acceptable request for its key was delivered,
  whatever its status says; so a failed row does exactly then.
  */
  lemma EffectIffDelivered(cfg: Config, hyp: set<Hypothesis>, t0: int, steps: seq<Step>, i: nat)
    requires Legal(cfg, hyp, Init(t0), steps) && i < |Run(cfg, hyp, Init(t0), steps).rows|
    ensures var s := Run(cfg, hyp, Init(t0), steps);
      L.EntriesOf(s.ledger.entries, TxKeyOf(s.rows[i].p)) != [] <==>
        Arrived(Delivered(cfg, hyp, Init(t0), steps), s.rows[i].p)
  {
    var p := Run(cfg, hyp, Init(t0), steps).rows[i].p;
    RunDecided(cfg, hyp, t0, steps, TxKeyOf(p));
    ArrivedIsFirst(Delivered(cfg, hyp, Init(t0), steps), p);
  }

  /** Of the requests for one row, only its own books the row's pair. */
  lemma PairTellsRequest(rows: seq<Row>, i: nat, req: L.Request)
    requires i < |rows| && DistinctKeys(rows) && WellFormed(rows[i].p)
    requires ForRow(rows, req) && L.KeyOf(req) == TxKeyOf(rows[i].p)
    ensures req.extId == i
    ensures PairOf(req) == ExactlyOnce.ExpectedEntries(rows[i].p) <==> req == RequestOf(i, rows[i].p)
  {
    assert SameKey(rows[req.extId].p, rows[i].p);
    ExactlyOnce.RowRequestShape(i, rows[i].p);
    var own := RequestOf(i, rows[i].p);
    assert PairOf(own) == ExactlyOnce.ExpectedEntries(rows[i].p);
    if PairOf(req) == PairOf(own) {
      assert PairOf(req)[0] == PairOf(own)[0] && PairOf(req)[1] == PairOf(own)[1];
      assert L.SourceKey(req) == L.SourceKey(own) && L.DestKey(req) == L.DestKey(own);
    }
  }

  /**
  The entries of a row that has landed are its own pair if and only if the first acceptable request
  delivered for its key is the row's own.
  */
  lemma OwnPairIffFirst(cfg: Config, hyp: set<Hypothesis>, t0: int, steps: seq<Step>, i: nat)
    requires Legal(cfg, hyp, Init(t0), steps) && i < |Run(cfg, hyp, Init(t0), steps).rows|
    requires TxKeyOf(Run(cfg, hyp, Init(t0), steps).rows[i].p) in Run(cfg, hyp, Init(t0), steps).ledger.txs
    ensures var s, reqs := Run(cfg, hyp, Init(t0), steps), Delivered(cfg, hyp, Init(t0), steps);
      var p := s.rows[i].p;
      var n := FirstFor(reqs, TxKeyOf(p));
      && n < |reqs|
      && (L.EntriesOf(s.ledger.entries, TxKeyOf(p)) == ExactlyOnce.ExpectedEntries(p) <==> reqs[n] == RequestOf(i, p))
  {
    var s, reqs := Run(cfg, hyp, Init(t0), steps), Delivered(cfg, hyp, Init(t0), steps);
    var k := TxKeyOf(s.rows[i].p);
    RunDecided(cfg, hyp, t0, steps, k);
    DeliveredForRows(cfg, hyp, Init(t0), steps);
    PairTellsRequest(s.rows, i, reqs[FirstFor(reqs, k)]);
  }

  /** Row `i` has at most one transaction, posted in its name, with one pair; or nothing at all. */
  predicate OnePair(rows: seq<Row>, l: L.Ledger, i: nat)
    requires i < |rows|
  {
    var k := TxKeyOf(rows[i].p);
    var es := L.EntriesOf(l.entries, k);
    if k in l.txs then
      && l.txs[k] == L.LedgerTx(i, L.Posted, None)
      && |es| == 2 && es[0].kind == L.Debit && es[1].kind == L.Credit && es[0].amount == es[1].amount > 0
    else es == []
  }

  /** Once only: under no hypothesis, every row has one transaction with one pair, or nothing. */
  lemma OncePerKey(cfg: Config, hyp: set<Hypothesis>, t0: int, steps: seq<Step>, i: nat)
    requires Legal(cfg, hyp, Init(t0), steps) && i < |Run(cfg, hyp, Init(t0), steps).rows|
    ensures var s := Run(cfg, hyp, Init(t0), steps); DistinctKeys(s.rows) && OnePair(s.rows, s.ledger, i)
  {
    var s, reqs := Run(cfg, hyp, Init(t0), steps), Delivered(cfg, hyp, Init(t0), steps);
    var k := TxKeyOf(s.rows[i].p);
    RunDecided(cfg, hyp, t0, steps, k);
    DeliveredForRows(cfg, hyp, Init(t0), steps);
    if k in s.ledger.txs { PairTellsRequest(s.rows, i, reqs[FirstFor(reqs, k)]); }
  }

  // ---------- Posted rows ----------

  /** A row marked posted, or about to be, has its key in the ledger. */
  predicate Confirmed(s: System) {
    && (forall i :: 0 <= i < |s.rows| && s.rows[i].status == Posted ==> TxKeyOf(s.rows[i].p) in s.ledger.txs)
    && (forall h :: 0 <= h < |s.holders| && s.holders[h].phase == Answered(true) ==>
         L.KeyOf(s.holders[h].req) in s.ledger.txs)
  }

  lemma KeysStay(l: L.Ledger, req: L.Request)
    ensures l.txs.Keys <= L.Rpc(l, req).0.txs.Keys
    ensures L.Rpc(l, req).1 == L.PostedOk ==> L.KeyOf(req) in L.Rpc(l, req).0.txs
  {
    LedgerRuns.CallRows(l, req, L.FRESH_WRITES);
  }

  lemma WriteBackConfirms(cfg: Config, s: System, h: nat, lost: bool, reason: string)
    requires AllForRows(s) && Confirmed(s) && Enabled(cfg, s, WriteBack(h, lost, reason))
    ensures Confirmed(Apply(cfg, s, WriteBack(h, lost, reason)))
  {
    var x := s.holders[h];
    assert x.phase == Answered(x.phase.ok);
    assert ForRow(s.rows, x.req) && x.req.extId == x.row;
  }

  lemma CallConfirms(cfg: Config, s: System, step: Step)
    requires Confirmed(s) && Enabled(cfg, s, step) && (step.Land? || step.Answer?)
    ensures Confirmed(Apply(cfg, s, step))
  {
    KeysStay(s.ledger, if step.Land? then step.req else s.holders[step.h].req);
  }

  lemma OtherConfirms(cfg: Config, s: System, step: Step)
    requires Confirmed(s) && Enabled(cfg, s, step) && !step.WriteBack? && !step.Land? && !step.Answer?
    ensures Confirmed(Apply(cfg, s, step))
  {
    StepKeepsRequests(cfg, s, step);
  }

  lemma StepConfirms(cfg: Config, s: System, step: Step)
    requires AllForRows(s) && Confirmed(s) && Enabled(cfg, s, step)
    ensures Confirmed(Apply(cfg, s, step))
  {
    if step.WriteBack? {
      WriteBackConfirms(cfg, s, step.h, step.lost, step.reason);
    } else if step.Land? || step.Answer? {
      CallConfirms(cfg, s, step);
    } else {
      OtherConfirms(cfg, s, step);
    }
  }

  lemma {:induction false} RunConfirms(cfg: Config, hyp: set<Hypothesis>, s: System, steps: seq<Step>)
    requires Legal(cfg, hyp, s, steps) && AllForRows(s) && Confirmed(s)
    ensures Confirmed(Run(cfg, hyp, s, steps))
    decreases |steps|
  {
    if steps != [] {
      StepKeepsRows(cfg, s, steps[0]);
      StepConfirms(cfg, s, steps[0]);
      RunConfirms(cfg, hyp, Apply(cfg, s, steps[0]), steps[1..]);
    }
  }

  /** Under no hypothesis, a posted row has its transaction and a pair of entries. */
  lemma PostedHasPair(cfg: Config, hyp: set<Hypothesis>, t0: int, steps: seq<Step>, i: nat)
    requires Legal(cfg, hyp, Init(t0), steps) && i < |Run(cfg, hyp, Init(t0), steps).rows|
    requires Run(cfg, hyp, Init(t0), steps).rows[i].status == Posted
    ensures var s := Run(cfg, hyp, Init(t0), steps);
      TxKeyOf(s.rows[i].p) in s.ledger.txs && OnePair(s.rows, s.ledger, i)
  {
    RunConfirms(cfg, hyp, Init(t0), steps);
    OncePerKey(cfg, hyp, t0, steps, i);
  }

  /** And nothing is booked under a key that has no row. */
  lemma NoRowNothingBooked(cfg: Config, hyp: set<Hypothesis>, t0: int, steps: seq<Step>, k: L.TxKey)
    requires Legal(cfg, hyp, Init(t0), steps)
    ensures var s := Run(cfg, hyp, Init(t0), steps);
      (forall i :: 0 <= i < |s.rows| ==> TxKeyOf(s.rows[i].p) != k) ==>
        k !in s.ledger.txs && L.EntriesOf(s.ledger.entries, k) == []
  {
    RunDecided(cfg, hyp, t0, steps, k);
    DeliveredForRows(cfg, hyp, Init(t0), steps);
    var reqs := Delivered(cfg, hyp, Init(t0), steps);
    var n := FirstFor(reqs, k);
    if n < |reqs| { assert ForRow(Run(cfg, hyp, Init(t0), steps).rows, reqs[n]); }
  }

}
