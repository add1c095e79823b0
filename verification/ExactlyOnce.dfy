/**
Exactly-once effect and cross-service agreement, over every run with honest replays: any
interleaving, crash, late landing, lost answer or expired lease.
*/
module ExactlyOnce {
  import opened Options
  import opened Outbox
  import opened Protocol
  import L = Ledger
  import LedgerRuns
  import TrialBalance

  /** The entry pair a row stands for, said without reference to the poster. */
  function ExpectedEntries(p: Params): seq<L.Entry> {
    var k := TxKeyOf(p);
    var cash := AccountOf(p, L.CASH);
    match p.kind
    case Deposit => [L.Entry(k, cash, L.Debit, p.amount), L.Entry(k, AccountOf(p, p.to), L.Credit, p.amount)]
    case Withdraw => [L.Entry(k, AccountOf(p, p.from), L.Debit, p.amount), L.Entry(k, cash, L.Credit, p.amount)]
    case Transfer =>
      [L.Entry(k, AccountOf(p, p.from), L.Debit, p.amount), L.Entry(k, AccountOf(p, p.to), L.Credit, p.amount)]
  }

  predicate Landed(l: L.Ledger, p: Params) {
    TxKeyOf(p) in l.txs
  }

  predicate DistinctEnds(p: Params) {
    p.kind == Transfer ==> p.from != p.to
  }

  /** Each ledger transaction is posted and belongs to one row, whose entry pair is all it has. */
  ghost predicate LedgerMatches(rows: seq<Row>, l: L.Ledger) {
    && LedgerRuns.NoOrphans(l)
    && TrialBalance.CustomerTypes(l)
    && (forall k :: MatchesAt(rows, l, k))
  }

  predicate FromRow(rows: seq<Row>, req: L.Request) {
    req.extId < |rows| && req == RequestOf(req.extId, rows[req.extId].p)
  }

  predicate HolderSound(s: System, h: Holder) {
    && h.row < |s.rows|
    && h.req == RequestOf(h.row, s.rows[h.row].p)
    && (h.phase == Answered(true) ==> Landed(s.ledger, s.rows[h.row].p))
  }

  ghost predicate Inv(s: System) {
    && |s.expiries| == |s.rows|
    && DistinctKeys(s.rows)
    && (forall i :: 0 <= i < |s.rows| ==> WellFormed(s.rows[i].p))
    && (forall i :: 0 <= i < |s.rows| && s.rows[i].status == Posted ==> Landed(s.ledger, s.rows[i].p))
    && (forall h :: 0 <= h < |s.holders| ==> HolderSound(s, s.holders[h]))
    && (forall req :: req in s.wire ==> FromRow(s.rows, req))
    && LedgerMatches(s.rows, s.ledger)
  }

  // ---------- The ledger side of one step ----------

  lemma RowRequestShape(id: nat, p: Params)
    requires WellFormed(p)
    ensures var req := RequestOf(id, p);
      && TrialBalance.CustomerShape(req) && L.KeyOf(req) == TxKeyOf(p) && L.WellFormed(req) == (p.currency != "")
  {
    assert L.IsSystem(L.CASH);
  }

  /** What the poster books for a row is the row's entry pair. */
  lemma PlanIsExpected(l: L.Ledger, id: nat, p: Params)
    requires TrialBalance.CustomerTypes(l) && WellFormed(p)
    ensures L.Plan(l, RequestOf(id, p)) == ExpectedEntries(p)
  {
    RowRequestShape(id, p);
    TrialBalance.ShapeEntries(l, RequestOf(id, p));
  }

  /** The request of a row lands, for the first time, as a whole: its transaction, its pair, its balances. */
  predicate Lands(l: L.Ledger, r: L.Ledger, id: nat, p: Params) {
    && !Landed(l, p)
    && r.txs == l.txs[TxKeyOf(p) := L.LedgerTx(id, L.Posted, None)]
    && r.entries == l.entries + ExpectedEntries(p)
    && r.balances == L.BumpAll(l.balances, ExpectedEntries(p))
    && DistinctEnds(p)
  }

  lemma PostOnRow(l: L.Ledger, id: nat, p: Params)
    requires LedgerRuns.NoOrphans(l) && TrialBalance.CustomerTypes(l) && WellFormed(p)
    ensures var r := L.PostOk(l, RequestOf(id, p)).0; r == l || Lands(l, r, id, p)
  {
    var req := RequestOf(id, p);
    RowRequestShape(id, p);
    LedgerRuns.CleanCall(l, req, L.FRESH_WRITES);
    PlanIsExpected(l, id, p);
  }

  /** A call for a row leaves the ledger alone or lands; a positive verdict means it has landed. */
  lemma RpcOnRow(l: L.Ledger, id: nat, p: Params)
    requires LedgerRuns.NoOrphans(l) && TrialBalance.CustomerTypes(l) && WellFormed(p)
    ensures var r := L.Rpc(l, RequestOf(id, p));
      && (r.0 == l || Lands(l, r.0, id, p))
      && TrialBalance.CustomerTypes(r.0)
      && (r.1 == L.PostedOk ==> Landed(r.0, p))
  {
    RowRequestShape(id, p);
    PostOnRow(l, id, p);
    TrialBalance.ShapeKeepsTypes(l, RequestOf(id, p));
  }

  /** What a matching ledger holds for one key. */
  predicate MatchesAt(rows: seq<Row>, l: L.Ledger, k: L.TxKey) {
    if k in l.txs then
      && l.txs[k].extId < |rows| && l.txs[k].failureReason.None?
      && TxKeyOf(rows[l.txs[k].extId].p) == k && DistinctEnds(rows[l.txs[k].extId].p)
      && L.EntriesOf(l.entries, k) == ExpectedEntries(rows[l.txs[k].extId].p)
    else L.EntriesOf(l.entries, k) == []
  }

  lemma LandingKeepsMatch(rows: seq<Row>, l: L.Ledger, r: L.Ledger, id: nat)
    requires LedgerMatches(rows, l) && id < |rows| && Lands(l, r, id, rows[id].p)
    requires TrialBalance.CustomerTypes(r)
    ensures LedgerMatches(rows, r) && forall k :: k in l.txs ==> k in r.txs
  {
    forall k ensures MatchesAt(rows, r, k) {
      assert MatchesAt(rows, l, k) && MatchesAt(rows, l, TxKeyOf(rows[id].p));
      LandedEntries(l, r, id, rows[id].p, k);
    }
  }

  lemma LandedEntries(l: L.Ledger, r: L.Ledger, id: nat, p: Params, k: L.TxKey)
    requires Lands(l, r, id, p) && L.EntriesOf(l.entries, TxKeyOf(p)) == []
    ensures L.EntriesOf(r.entries, k) == if k == TxKeyOf(p) then ExpectedEntries(p) else L.EntriesOf(l.entries, k)
  {
    LedgerRuns.EntriesOfConcat(l.entries, ExpectedEntries(p), k);
    LedgerRuns.EntriesOfUniform(ExpectedEntries(p), TxKeyOf(p), k);
  }

  lemma RpcKeepsMatch(rows: seq<Row>, l: L.Ledger, id: nat)
    requires LedgerMatches(rows, l) && id < |rows| && WellFormed(rows[id].p)
    ensures var r := L.Rpc(l, RequestOf(id, rows[id].p));
      && LedgerMatches(rows, r.0) && (forall k :: k in l.txs ==> k in r.0.txs)
      && (r.1 == L.PostedOk ==> Landed(r.0, rows[id].p))
  {
    RpcOnRow(l, id, rows[id].p);
    var r := L.Rpc(l, RequestOf(id, rows[id].p)).0;
    if r != l { LandingKeepsMatch(rows, l, r, id); }
  }

  // ---------- The invariant ----------

  /** A step that leaves ledger and wire alone, marks no row posted without a landing, and keeps holders sound. */
  lemma TableStep(s: System, t: System)
    requires Inv(s) && t.ledger == s.ledger && t.wire == s.wire && |t.expiries| == |t.rows|
    requires SameRequests(s.rows, t.rows) && DistinctKeys(t.rows)
    requires forall i :: 0 <= i < |t.rows| ==> WellFormed(t.rows[i].p)
    requires forall i :: 0 <= i < |t.rows| && t.rows[i].status == Posted ==> Landed(s.ledger, t.rows[i].p)
    requires forall h :: 0 <= h < |t.holders| ==> HolderSound(t, t.holders[h])
    ensures Inv(t)
  {
    forall k ensures MatchesAt(t.rows, t.ledger, k) {
      assert MatchesAt(s.rows, s.ledger, k);
    }
  }

  lemma CreateStep(s: System, p: Params)
    requires Inv(s) && WellFormed(p)
    ensures var rows := CreateOrGet(s.rows, p, s.now);
      DistinctKeys(rows) && forall i :: |s.rows| <= i < |rows| ==> rows[i].p == p && rows[i].status == Pending
  {
    var i := Find(s.rows, p);
    assert forall j :: 0 <= j < i ==> TxKeyOf(s.rows[j].p) != TxKeyOf(p);
  }

  /** A landing: only the ledger changes, and it keeps what it has. */
  lemma LedgerStep(s: System, t: System)
    requires Inv(s) && t == s.(ledger := t.ledger)
    requires LedgerMatches(s.rows, t.ledger) && forall k :: k in s.ledger.txs ==> k in t.ledger.txs
    ensures Inv(t)
  {
  }

  lemma PhaseStep(s: System, h: nat, phase: Phase)
    requires Inv(s) && h < |s.holders|
    requires phase == Answered(true) ==> Landed(s.ledger, s.rows[s.holders[h].row].p)
    ensures Inv(SetPhase(s, h, phase))
  {
  }

  lemma AnswerStep(cfg: Config, s: System, h: nat, ok: bool)
    requires Inv(s) && Enabled(cfg, s, Answer(h, ok))
    ensures Inv(Apply(cfg, s, Answer(h, ok)))
  {
    if ok {
      var x := s.holders[h];
      var l := L.Rpc(s.ledger, x.req).0;
      RpcKeepsMatch(s.rows, s.ledger, x.row);
      LedgerStep(s, s.(ledger := l));
      PhaseStep(s.(ledger := l), h, Answered(true));
      assert Apply(cfg, s, Answer(h, ok)) == SetPhase(s.(ledger := l), h, Answered(true));
    } else {
      PhaseStep(s, h, Answered(false));
    }
  }

  lemma ClaimSteps(cfg: Config, s: System, step: Step)
    requires Inv(s) && Allowed(cfg, {Honest}, s, step) && (step.HandlerClaim? || step.WorkerClaim?)
    ensures Inv(Apply(cfg, s, step))
  {
    StepKeepsRequests(cfg, s, step);
    TableStep(s, Apply(cfg, s, step));
  }

  lemma SweepSteps(cfg: Config, s: System, step: Step)
    requires Inv(s) && Enabled(cfg, s, step)
    requires step.WorkerReclaim? || step.ReconcileRequeue? || step.ReconcileFail?
    ensures Inv(Apply(cfg, s, step))
  {
    StepKeepsRequests(cfg, s, step);
    TableStep(s, Apply(cfg, s, step));
  }

  /** Steps that leave table, ledger and wire alone; a crash stops holders. */
  lemma QuietSteps(cfg: Config, s: System, step: Step)
    requires Inv(s) && Enabled(cfg, s, step) && (step.Tick? || step.Crash? || step.ReadBalance?)
    ensures Inv(Apply(cfg, s, step))
  {
    TableStep(s, Apply(cfg, s, step));
  }

  lemma WriteBackStep(cfg: Config, s: System, h: nat, lost: bool, reason: string)
    requires Inv(s) && Enabled(cfg, s, WriteBack(h, lost, reason))
    ensures Inv(Apply(cfg, s, WriteBack(h, lost, reason)))
  {
    StepKeepsRequests(cfg, s, WriteBack(h, lost, reason));
    TableStep(s, Apply(cfg, s, WriteBack(h, lost, reason)));
  }

  lemma LandStep(cfg: Config, s: System, req: L.Request)
    requires Inv(s) && Enabled(cfg, s, Land(req))
    ensures Inv(Apply(cfg, s, Land(req)))
  {
    assert FromRow(s.rows, req);
    RpcKeepsMatch(s.rows, s.ledger, req.extId);
    LedgerStep(s, Apply(cfg, s, Land(req)));
  }

  lemma CreateKeepsInv(cfg: Config, s: System, p: Params, c: nat)
    requires Inv(s) && Enabled(cfg, s, Create(p, c))
    ensures Inv(Apply(cfg, s, Create(p, c)))
  {
    CreateStep(s, p);
    StepKeepsRequests(cfg, s, Create(p, c));
    TableStep(s, Apply(cfg, s, Create(p, c)));
  }

  lemma SendStep(cfg: Config, s: System, h: nat)
    requires Inv(s) && Enabled(cfg, s, Send(h))
    ensures Inv(Apply(cfg, s, Send(h)))
  {
    PhaseStep(s, h, Calling);
  }

  /** Every step keeps the invariant. */
  lemma StepKeepsInv(cfg: Config, s: System, step: Step)
    requires Inv(s) && Allowed(cfg, {Honest}, s, step)
    ensures Inv(Apply(cfg, s, step))
  {
    if step.Land? {
      LandStep(cfg, s, step.req);
    } else if step.Answer? {
      AnswerStep(cfg, s, step.h, step.ok);
    } else if step.Send? {
      SendStep(cfg, s, step.h);
    } else if step.Create? {
      CreateKeepsInv(cfg, s, step.p, step.check);
    } else if step.WriteBack? {
      WriteBackStep(cfg, s, step.h, step.lost, step.reason);
    } else if step.HandlerClaim? || step.WorkerClaim? {
      ClaimSteps(cfg, s, step);
    } else if step.Tick? || step.Crash? || step.ReadBalance? {
      QuietSteps(cfg, s, step);
    } else {
      SweepSteps(cfg, s, step);
    }
  }

  lemma {:induction false} InvHolds(cfg: Config, hyp: set<Hypothesis>, s: System, steps: seq<Step>)
    requires Honest in hyp && Legal(cfg, hyp, s, steps) && Inv(s)
    ensures Inv(Run(cfg, hyp, s, steps))
    decreases |steps|
  {
    if steps != [] {
      StepKeepsInv(cfg, s, steps[0]);
      InvHolds(cfg, hyp, Apply(cfg, s, steps[0]), steps[1..]);
    }
  }

  /** What row `i` has in a ledger that matches the rows. */
  predicate HasEffectOnce(rows: seq<Row>, l: L.Ledger, i: nat)
    requires i < |rows|
  {
    var k := TxKeyOf(rows[i].p);
    if k in l.txs then
      && l.txs[k] == L.LedgerTx(i, L.Posted, None)
      && L.EntriesOf(l.entries, k) == ExpectedEntries(rows[i].p) && DistinctEnds(rows[i].p)
    else L.EntriesOf(l.entries, k) == [] && rows[i].status != Posted
  }

  lemma MatchedOnce(s: System, i: nat)
    requires Inv(s) && i < |s.rows|
    ensures HasEffectOnce(s.rows, s.ledger, i)
  {
    var k := TxKeyOf(s.rows[i].p);
    assert MatchesAt(s.rows, s.ledger, k);
    if k in s.ledger.txs {
      assert SameKey(s.rows[s.ledger.txs[k].extId].p, s.rows[i].p);
    }
  }

  /**
  Exactly-once effect, with honest replays. In every reachable state a posted row has one ledger
  transaction, posted, and exactly the row's own entry pair; every other row has its pair or nothing.
  */
  lemma ExactlyOnceEffect(cfg: Config, hyp: set<Hypothesis>, t0: int, steps: seq<Step>, i: nat)
    requires Honest in hyp && Legal(cfg, hyp, Init(t0), steps) && i < |Run(cfg, hyp, Init(t0), steps).rows|
    ensures var s := Run(cfg, hyp, Init(t0), steps); DistinctKeys(s.rows) && HasEffectOnce(s.rows, s.ledger, i)
  {
    InvHolds(cfg, hyp, Init(t0), steps);
    MatchedOnce(Run(cfg, hyp, Init(t0), steps), i);
  }

}
