/** The ledger's customer balances against the rows of accounts-service. */
module CrossService {
  import opened Outbox
  import opened Protocol
  import opened ExactlyOnce
  import L = Ledger
  import LedgerRuns

  /** What a transaction does to the balance of one of its accounts, whatever its status. */
  function RawDelta(p: Params, ext: string): int {
    match p.kind
    case Deposit => p.amount
    case Withdraw => -p.amount
    case Transfer => if p.from == ext then -p.amount else p.amount
  }

  predicate Touches(p: Params, a: L.AccountKey) {
    a == AccountOf(p, p.from) || a == AccountOf(p, p.to)
  }

  function Share(p: Params, a: L.AccountKey): int {
    if Touches(p, a) then RawDelta(p, a.ext) else 0
  }

  /** The sum of the deltas of all rows whose ledger transaction exists. */
  function SumLanded(rows: seq<Row>, l: L.Ledger, a: L.AccountKey): int {
    if rows == [] then 0
    else
      var n := |rows| - 1;
      SumLanded(rows[..n], l, a) + if Landed(l, rows[n].p) then Share(rows[n].p, a) else 0
  }

  ghost predicate AgreesWithRows(rows: seq<Row>, l: L.Ledger) {
    forall a: L.AccountKey :: !L.IsSystem(a.ext) ==> CustomerView(l, a) == SumLanded(rows, l, a)
  }

  /** Only what the rows ask for matters, and only whether they have landed. */
  lemma {:induction false} SumLandedSame(rows: seq<Row>, after: seq<Row>, l: L.Ledger, a: L.AccountKey)
    requires SameRequests(rows, after)
    requires forall i :: |rows| <= i < |after| ==> !Landed(l, after[i].p)
    ensures SumLanded(after, l, a) == SumLanded(rows, l, a)
    decreases |after|
  {
    if after != [] {
      var n := |after| - 1;
      if |rows| == |after| {
        SumLandedSame(rows[..n], after[..n], l, a);
      } else {
        SumLandedSame(rows, after[..n], l, a);
      }
    }
  }

  /** The landing of one row adds that row's share. */
  lemma {:induction false} SumLandedFlip(rows: seq<Row>, l: L.Ledger, r: L.Ledger, id: nat, a: L.AccountKey)
    requires id < |rows| && DistinctKeys(rows) && Lands(l, r, id, rows[id].p)
    ensures SumLanded(rows, r, a) == SumLanded(rows, l, a) + Share(rows[id].p, a)
  {
    var n := |rows| - 1;
    if id == n {
      SumLandedOthers(rows[..n], l, r, rows[id].p, a);
    } else {
      SumLandedFlip(rows[..n], l, r, id, a);
    }
  }

  lemma {:induction false} SumLandedOthers(rows: seq<Row>, l: L.Ledger, r: L.Ledger, p: Params, a: L.AccountKey)
    requires r.txs.Keys == l.txs.Keys + {TxKeyOf(p)}
    requires forall i :: 0 <= i < |rows| ==> TxKeyOf(rows[i].p) != TxKeyOf(p)
    ensures SumLanded(rows, r, a) == SumLanded(rows, l, a)
  {
    if rows != [] {
      var n := |rows| - 1;
      SumLandedOthers(rows[..n], l, r, p, a);
    }
  }

  /** The entry pair of a row moves a customer's balance by the row's share. */
  lemma PairIsShare(l: L.Ledger, r: L.Ledger, id: nat, p: Params, a: L.AccountKey)
    requires Lands(l, r, id, p) && WellFormed(p) && !L.IsSystem(a.ext)
    ensures CustomerView(r, a) == CustomerView(l, a) + Share(p, a)
  {
    var es := ExpectedEntries(p);
    LedgerRuns.BumpAllIsNet(l.balances, es, a);
    assert es == [] + [es[0]] + [es[1]];
    LedgerRuns.NetSnoc([], es[0], a);
    LedgerRuns.NetSnoc([] + [es[0]], es[1], a);
    assert L.IsSystem(L.CASH);
    assert a == AccountOf(p, a.ext) <==> (a.org == p.org && a.env == p.env && a.currency == p.currency);
  }

  lemma LandingKeepsAgreement(rows: seq<Row>, l: L.Ledger, id: nat)
    requires LedgerMatches(rows, l) && DistinctKeys(rows) && id < |rows| && WellFormed(rows[id].p)
    requires AgreesWithRows(rows, l)
    ensures AgreesWithRows(rows, L.Rpc(l, RequestOf(id, rows[id].p)).0)
  {
    RpcOnRow(l, id, rows[id].p);
    var r := L.Rpc(l, RequestOf(id, rows[id].p)).0;
    if r != l {
      forall a: L.AccountKey | !L.IsSystem(a.ext) ensures CustomerView(r, a) == SumLanded(rows, r, a) {
        PairIsShare(l, r, id, rows[id].p, a);
        SumLandedFlip(rows, l, r, id, a);
      }
    }
  }

  lemma TableKeepsAgreement(rows: seq<Row>, after: seq<Row>, l: L.Ledger)
    requires AgreesWithRows(rows, l) && SameRequests(rows, after)
    requires forall i :: |rows| <= i < |after| ==> !Landed(l, after[i].p)
    ensures AgreesWithRows(after, l)
  {
    forall a: L.AccountKey | !L.IsSystem(a.ext) ensures CustomerView(l, a) == SumLanded(after, l, a) {
      SumLandedSame(rows, after, l, a);
    }
  }

  lemma NewRowNotLanded(rows: seq<Row>, l: L.Ledger, p: Params)
    requires LedgerMatches(rows, l) && Find(rows, p) == |rows|
    ensures !Landed(l, p)
  {
    assert MatchesAt(rows, l, TxKeyOf(p));
    if Landed(l, p) {
      var i := l.txs[TxKeyOf(p)].extId;
      assert SameKey(rows[i].p, p);
    }
  }

  lemma CallKeepsAgreement(cfg: Config, s: System, step: Step)
    requires Inv(s) && Enabled(cfg, s, step) && AgreesWithRows(s.rows, s.ledger) && (step.Land? || step.Answer?)
    ensures var t := Apply(cfg, s, step); AgreesWithRows(t.rows, t.ledger)
  {
    LandingKeepsAgreement(s.rows, s.ledger, if step.Land? then step.req.extId else s.holders[step.h].row);
  }

  lemma CreateKeepsAgreement(cfg: Config, s: System, p: Params, c: nat)
    requires Inv(s) && Enabled(cfg, s, Create(p, c)) && AgreesWithRows(s.rows, s.ledger)
    ensures var t := Apply(cfg, s, Create(p, c)); AgreesWithRows(t.rows, t.ledger)
  {
    StepKeepsRequests(cfg, s, Create(p, c));
    if Find(s.rows, p) == |s.rows| { NewRowNotLanded(s.rows, s.ledger, p); }
    TableKeepsAgreement(s.rows, Apply(cfg, s, Create(p, c)).rows, s.ledger);
  }

  lemma StepKeepsAgreement(cfg: Config, s: System, step: Step)
    requires Inv(s) && Allowed(cfg, {Honest}, s, step) && AgreesWithRows(s.rows, s.ledger)
    ensures var t := Apply(cfg, s, step); AgreesWithRows(t.rows, t.ledger)
  {
    if step.Land? || step.Answer? {
      CallKeepsAgreement(cfg, s, step);
    } else if step.Create? {
      CreateKeepsAgreement(cfg, s, step.p, step.check);
    } else {
      StepKeepsRequests(cfg, s, step);
      TableKeepsAgreement(s.rows, Apply(cfg, s, step).rows, s.ledger);
    }
  }

  lemma {:induction false} AgreementHolds(cfg: Config, hyp: set<Hypothesis>, s: System, steps: seq<Step>)
    requires Honest in hyp && Legal(cfg, hyp, s, steps) && Inv(s) && AgreesWithRows(s.rows, s.ledger)
    ensures var t := Run(cfg, hyp, s, steps); AgreesWithRows(t.rows, t.ledger)
    decreases |steps|
  {
    if steps != [] {
      StepKeepsInv(cfg, s, steps[0]);
      StepKeepsAgreement(cfg, s, steps[0]);
      AgreementHolds(cfg, hyp, Apply(cfg, s, steps[0]), steps[1..]);
    }
  }

  /**
  In every reachable state the negated ledger balance of a customer account is the sum of the
  deltas of the rows whose ledger transaction is posted.
  */
  lemma CrossServiceAgreement(cfg: Config, hyp: set<Hypothesis>, t0: int, steps: seq<Step>, a: L.AccountKey)
    requires Honest in hyp && Legal(cfg, hyp, Init(t0), steps) && !L.IsSystem(a.ext)
    ensures var s := Run(cfg, hyp, Init(t0), steps);
      CustomerView(s.ledger, a) == SumLanded(s.rows, s.ledger, a)
  {
    AgreementHolds(cfg, hyp, Init(t0), steps);
  }

}
