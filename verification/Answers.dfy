/** What the client of a money request is told, and what is stored of it. */
module Answers {
  import opened Options
  import opened Outbox
  import opened Protocol
  import opened LedgerClient
  import opened AccountService
  import L = Ledger

  // ---------- Which error ----------

  predicate InputsFine(r: MoneyRequest) {
    r.amount > 0 && |r.idem| > 0
  }

  predicate Known(accounts: Accounts, r: MoneyRequest, id: string) {
    (id, r.env) in accounts
  }

  predicate ActiveAccount(accounts: Accounts, r: MoneyRequest, id: string) {
    Known(accounts, r, id) && accounts[(id, r.env)].active
  }

  /** The first check that fails names the error: inputs, then the account, then a transfer's other account. */
  lemma ErrorIs(accounts: Accounts, r: MoneyRequest)
    ensures var out := Prepare(accounts, r);
      && (out == Err(NotFound) <==>
           InputsFine(r) && (!Known(accounts, r, r.from)
             || (ActiveAccount(accounts, r, r.from) && r.kind == Transfer && !Known(accounts, r, r.to))))
      && (out == Err(AccountNotActive) <==>
           && InputsFine(r) && Known(accounts, r, r.from)
           && (!ActiveAccount(accounts, r, r.from)
               || (r.kind == Transfer && Known(accounts, r, r.to) && !ActiveAccount(accounts, r, r.to))))
      && (out.Err? && out.error != NotFound && out.error != AccountNotActive ==> out.error == Validation)
  {
  }

  // ---------- Accepted or not ----------

  predicate NewKey(rows: seq<Row>, p: Params) {
    forall i :: 0 <= i < |rows| ==> !(rows[i].p.org == p.org && rows[i].p.env == p.env && rows[i].p.idem == p.idem)
  }

  /** What the ledger has for the account the money comes from, as its owner sees it. */
  function SpendableOf(l: L.Ledger, p: Params): int {
    var a := L.AccountKey(p.org, p.env, p.from, p.currency);
    if a in l.types && a in l.balances then -l.balances[a] else 0
  }

  predicate NewDebit(rows: seq<Row>, p: Params) {
    p.kind != Deposit && NewKey(rows, p)
  }

  /**
  A request that passes the checks is accepted if and only if it is not a new debit, or the ledger
  can be asked and the balance is at least the amount. It fails for funds exactly if the balance is
  below, and for the ledger exactly if that cannot be asked; and then nothing changes.
  */
  lemma AnswerIs(
    accounts: Accounts, rows: seq<Row>, l: L.Ledger, r: MoneyRequest, ledgerUp: bool, d: Delivery, now: int, later: int)
    requires Prepare(accounts, r).Ok?
    ensures var p, out := Prepare(accounts, r).value, Submit(accounts, rows, l, r, ledgerUp, d, now, later);
      && (out.2.Ok? <==> !NewDebit(rows, p) || (ledgerUp && SpendableOf(l, p) >= p.amount))
      && (out.2 == Err(InsufficientFunds) <==> NewDebit(rows, p) && ledgerUp && SpendableOf(l, p) < p.amount)
      && (out.2 == Err(LedgerUnavailable) <==> NewDebit(rows, p) && !ledgerUp)
      && (out.2.Err? ==> out.0 == rows && out.1 == l)
  {
    var p := Prepare(accounts, r).value;
    assert NewKey(rows, p) <==> Find(rows, p) == |rows|;
  }

  /** A request that fails the checks is answered with that error and changes nothing. */
  lemma RejectedIs(
    accounts: Accounts, rows: seq<Row>, l: L.Ledger, r: MoneyRequest, ledgerUp: bool, d: Delivery, now: int, later: int)
    requires Prepare(accounts, r).Err?
    ensures Submit(accounts, rows, l, r, ledgerUp, d, now, later) == (rows, l, Err(Prepare(accounts, r).error))
  {
  }

  // ---------- The row that is returned ----------

  /** The row of the key is pending or not there yet, so it is posted. */
  predicate ToBePosted(rows: seq<Row>, p: Params) {
    NewKey(rows, p) || exists i :: 0 <= i < |rows| && SameKey(rows[i].p, p) && rows[i].status == Pending
  }

  /**
  A post that succeeds: the returned row is the stored one, posted, without a reason, stamped with
  the time of the answer; it keeps everything else, and no other row changes.
  */
  lemma SucceededPost(rows: seq<Row>, l: L.Ledger, p: Params, d: Delivery, now: int, later: int)
    requires var i := Find(rows, p); CreateOrGet(rows, p, now)[i].status == Pending && PostVia(l, RequestOf(i, p), d).1
    ensures var i, created, out := Find(rows, p), CreateOrGet(rows, p, now), PostRow(rows, l, p, d, now, later);
      var before := created[i];
      && |out.0| == |created| && i < |out.0| && out.2 == out.0[i]
      && out.2.status == Posted && out.2.reason.None? && out.2.updatedAt == later
      && out.2.p == before.p && out.2.retryCount == before.retryCount && out.2.createdAt == before.createdAt
      && out.2.nextRetryAt == before.nextRetryAt && out.2.lastAttemptedAt == before.lastAttemptedAt
      && out.2.terminalFailureAt == before.terminalFailureAt
      && out.1 == PostVia(l, RequestOf(i, p), d).0
      && forall k :: 0 <= k < |rows| && k != i ==> out.0[k] == rows[k]
  {
  }

  /** With distinct keys the row found is the row there is. */
  lemma FoundRow(rows: seq<Row>, p: Params)
    requires DistinctKeys(rows)
    ensures ToBePosted(rows, p) <==> Find(rows, p) == |rows| || rows[Find(rows, p)].status == Pending
  {
    var i := Find(rows, p);
    if ToBePosted(rows, p) && i < |rows| {
      var j :| 0 <= j < |rows| && SameKey(rows[j].p, p) && rows[j].status == Pending;
      assert SameKey(rows[i].p, rows[j].p);
    }
  }

  /**
  An accepted request on a new or pending key says `posted` exactly when the ledger answered so, and
  `pending` otherwise; the row it returns is the one stored.
  */
  lemma PostedIffAnswered(
    accounts: Accounts, rows: seq<Row>, l: L.Ledger, r: MoneyRequest, ledgerUp: bool, d: Delivery, now: int, later: int)
    requires Prepare(accounts, r).Ok? && DistinctKeys(rows) && ToBePosted(rows, Prepare(accounts, r).value)
    requires Submit(accounts, rows, l, r, ledgerUp, d, now, later).2.Ok?
    ensures var p, out := Prepare(accounts, r).value, Submit(accounts, rows, l, r, ledgerUp, d, now, later);
      var row := out.2.value;
      && (row.status == Posted <==> PostVia(l, RequestOf(Find(rows, p), p), d).1)
      && (row.status != Posted ==> row.status == Pending)
      && Find(rows, p) < |out.0| && out.0[Find(rows, p)] == row
      && out.1 == PostVia(l, RequestOf(Find(rows, p), p), d).0
  {
    FoundRow(rows, Prepare(accounts, r).value);
  }

  /** A key whose row is posting, posted or failed is answered with that row, and nothing happens. */
  lemma SettledIsReturned(
    accounts: Accounts, rows: seq<Row>, l: L.Ledger, r: MoneyRequest, ledgerUp: bool, d: Delivery, now: int, later: int)
    requires Prepare(accounts, r).Ok? && DistinctKeys(rows) && !ToBePosted(rows, Prepare(accounts, r).value)
    ensures var i := Find(rows, Prepare(accounts, r).value);
      i < |rows| && Submit(accounts, rows, l, r, ledgerUp, d, now, later) == (rows, l, Ok(rows[i]))
  {
    FoundRow(rows, Prepare(accounts, r).value);
  }

}
