/** What the caller of the poster is told, against what the ledger then holds. */
module Verdicts {
  import opened Options
  import opened Ledger
  import opened LedgerRuns

  /**
  For every ledger, orphans included, and every crash point: the caller is told `posted` exactly when
  the inputs are valid and the transaction of the key is posted afterwards. Invalid inputs are refused
  and change nothing.
  */
  lemma PostedIsTold(l: Ledger, req: Request, survives: nat)
    ensures var (r, v) := Post(l, req, survives);
      && (v == PostedOk <==> ValidInputs(req) && KeyOf(req) in r.txs && r.txs[KeyOf(req)].status == Posted)
      && (!ValidInputs(req) ==> (r, v) == (l, Refused))
  {
  }

  /** A call that survives is answered: the caller of a process that lives is never left without a verdict. */
  lemma SurvivorAnswers(l: Ledger, req: Request, survives: nat)
    requires survives >= FRESH_WRITES
    ensures Post(l, req, survives).1 != Died
  {
  }

  /**
  A surviving call completes an orphan, a transaction row without entries that was never posted: both
  entries, both balances and `posted`, under the row's own id; and the caller is told so.
  */
  lemma OrphanCompletes(l: Ledger, req: Request, survives: nat)
    requires ValidInputs(req) && req.source != req.dest && survives >= COMPLETION_WRITES
    requires KeyOf(req) in l.txs && l.txs[KeyOf(req)].status != Posted && EntriesOf(l.entries, KeyOf(req)) == []
    ensures var (r, v) := Post(l, req, survives);
      && v == PostedOk && r.txs == l.txs[KeyOf(req) := LedgerTx(l.txs[KeyOf(req)].extId, Posted, None)]
      && EntriesOf(r.entries, KeyOf(req)) == Plan(l, req) && FromRequest(Plan(l, req), req)
      && r.entries == l.entries + Plan(l, req)
      && forall a :: BalanceOf(r, a) == BalanceOf(l, a) + Net(Plan(l, req), a)
  {
    var r := Post(l, req, survives).0;
    OrphanWrites(l, req, survives);
    OrphanPlan(l, req);
    EntriesOfConcat(l.entries, Plan(l, req), KeyOf(req));
    OrphanBalances(l, r, Plan(l, req));
  }

  lemma OrphanWrites(l: Ledger, req: Request, survives: nat)
    requires ValidInputs(req) && req.source != req.dest && survives >= COMPLETION_WRITES
    requires KeyOf(req) in l.txs && l.txs[KeyOf(req)].status != Posted && EntriesOf(l.entries, KeyOf(req)) == []
    ensures var (r, v) := Post(l, req, survives);
      && v == PostedOk && r.txs == l.txs[KeyOf(req) := LedgerTx(l.txs[KeyOf(req)].extId, Posted, None)]
      && r.entries == l.entries + Plan(l, req) && r.balances == BumpAll(l.balances, Plan(l, req))
  {
    assert Plan(l, req)[..2] == Plan(l, req);
  }

  lemma OrphanPlan(l: Ledger, req: Request)
    ensures FromRequest(Plan(l, req), req) && EntriesOf(Plan(l, req), KeyOf(req)) == Plan(l, req)
  {
    EntriesOfUniform(Plan(l, req), KeyOf(req), KeyOf(req));
  }

  lemma OrphanBalances(l: Ledger, r: Ledger, plan: seq<Entry>)
    requires r.balances == BumpAll(l.balances, plan)
    ensures forall a :: BalanceOf(r, a) == BalanceOf(l, a) + Net(plan, a)
  {
    forall a ensures BalanceOf(r, a) == BalanceOf(l, a) + Net(plan, a) {
      BumpAllIsNet(l.balances, plan, a);
    }
  }

  /** A self-transfer on an orphan is refused, with nothing booked. */
  lemma OrphanSelfTransfer(l: Ledger, req: Request, survives: nat)
    requires ValidInputs(req) && req.source == req.dest && !req.isDeposit && survives >= COMPLETION_WRITES
    requires KeyOf(req) in l.txs && l.txs[KeyOf(req)].status != Posted && EntriesOf(l.entries, KeyOf(req)) == []
    ensures var (r, v) := Post(l, req, survives);
      v == Refused && r.txs == l.txs && r.entries == l.entries && r.balances == l.balances
  {
    assert l.entries + [] == l.entries;
  }

  predicate Letters(c: string) {
    |c| == 3 && (forall i :: 0 <= i < |c| ==> 'A' <= c[i] && c[i] <= 'Z')
  }

  /** What a request must look like to be posted under a new key, spelt out. */
  predicate Postworthy(req: Request) {
    && req.amount > 0 && (req.env == "sandbox" || req.env == "production") && Letters(req.currency)
    && |req.org| > 0 && |req.idem| > 0 && |req.source| > 0 && |req.dest| > 0
  }

  /** For every ledger, orphans included: an RPC says `posted` exactly if the request is worth it and its key is posted then. */
  lemma RpcIsTold(l: Ledger, req: Request)
    ensures var (r, v) := Rpc(l, req);
      v == PostedOk <==> Postworthy(req) && KeyOf(req) in r.txs && r.txs[KeyOf(req)].status == Posted
  {
    assert IsCurrency(req.currency) <==> Letters(req.currency);
    PostedIsTold(l, req, FRESH_WRITES);
  }

  /**
  Which requests an RPC answers with `posted`, in a ledger without orphans: those with all fields, a
  positive amount, one of the two environments and a currency of three capital letters, whose key is
  known, or is new and whose ends differ. All others are refused and change nothing.
  */
  lemma AcceptedIff(l: Ledger, req: Request)
    requires NoOrphans(l)
    ensures Rpc(l, req).1 == PostedOk <==>
      Postworthy(req) && (KeyOf(req) in l.txs || req.source != req.dest || req.isDeposit)
    ensures Rpc(l, req).1 != PostedOk ==> Rpc(l, req) == (l, Refused)
  {
    assert IsCurrency(req.currency) <==> Letters(req.currency);
  }

}
