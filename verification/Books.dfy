/** What the posting protocol, under no hypothesis at all, does to the ledger's books. */
module Books {
  import opened Protocol
  import opened Deliveries
  import L = Ledger
  import LedgerRuns
  import TrialBalance

  /** Calls by processes that do not die. */
  function Calls(reqs: seq<L.Request>): (r: seq<LedgerRuns.Call>)
    ensures |r| == |reqs| && forall i :: 0 <= i < |r| ==> r[i] == LedgerRuns.Call(reqs[i], L.FRESH_WRITES)
  {
    seq(|reqs|, i requires 0 <= i < |reqs| => LedgerRuns.Call(reqs[i], L.FRESH_WRITES))
  }

  lemma {:induction false} CallsAreRequests(l: L.Ledger, reqs: seq<L.Request>)
    ensures LedgerRuns.RunCalls(l, Calls(reqs)) == LedgerRuns.RunOk(l, reqs)
    decreases |reqs|
  {
    if reqs != [] {
      assert Calls(reqs)[1..] == Calls(reqs[1..]);
      CallsAreRequests(L.PostOk(l, reqs[0]).0, reqs[1..]);
    }
  }

  /**
  In every reachable state, whatever handlers, worker, reconciler and network do: cash control holds
  exactly what all customers see, the balances of a group sum to zero, and every balance is the sum
  of its account's journal.
  */
  lemma BooksBalance(cfg: Config, hyp: set<Hypothesis>, t0: int, steps: seq<Step>, g: TrialBalance.Group)
    requires Legal(cfg, hyp, Init(t0), steps)
    ensures var l := Run(cfg, hyp, Init(t0), steps).ledger;
      && L.DisplayBalance(l, TrialBalance.CashOf(g)) == TrialBalance.CustomerTotal(l, g)
      && TrialBalance.Sum(TrialBalance.Members(l, g), l.balances) == 0
      && forall a :: L.BalanceOf(l, a) == L.Net(l.entries, a)
  {
    var reqs := Delivered(cfg, hyp, Init(t0), steps);
    LedgerIsDelivered(cfg, hyp, Init(t0), steps);
    DeliveredForRows(cfg, hyp, Init(t0), steps);
    assert forall i :: 0 <= i < |reqs| ==> reqs[i] in reqs;
    CallsAreRequests(L.EMPTY, reqs);
    TrialBalance.CashCoversCustomers(Calls(reqs), g);
    LedgerRuns.BalancesAreJournal(L.EMPTY, Calls(reqs));
  }

}
