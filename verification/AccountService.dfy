/** The handler side: one money request, from its checks to the row it returns. */
module AccountService {
  import opened Options
  import opened Outbox
  import opened Protocol
  import opened LedgerClient
  import opened Runs
  import L = Ledger

  datatype Account = Account(active: bool, org: Option<string>, currency: Option<string>)

  datatype Error = Validation | NotFound | AccountNotActive | InsufficientFunds | LedgerUnavailable

  datatype Result<+T> = Ok(value: T) | Err(error: Error)

  /** Accounts by id and environment. */
  type Accounts = map<(string, string), Account>

  /** `idem` is already trimmed; for a deposit or a withdrawal `to` equals `from`. */
  datatype MoneyRequest = MoneyRequest(
    kind: Kind, env: string, from: string, to: string, amount: int, idem: string)

  function CurrencyOf(a: Account): string {
    if a.currency.Some? then a.currency.value else "USD"
  }

  // ---------- The checks before anything is stored ----------

  function CheckAccount(accounts: Accounts, id: string, env: string): Result<Account> {
    if (id, env) !in accounts then Err(NotFound)
    else if !accounts[(id, env)].active then Err(AccountNotActive)
    else Ok(accounts[(id, env)])
  }

  function Prepare(accounts: Accounts, r: MoneyRequest): Result<Params> {
    if r.amount <= 0 || r.idem == "" then Err(Validation)
    else
      var from := CheckAccount(accounts, r.from, r.env);
      if from.Err? then Err(from.error)
      else
        var to := if r.kind == Transfer then CheckAccount(accounts, r.to, r.env) else from;
        if to.Err? then Err(to.error)
        else if from.value.org.None? || to.value.org.None? then Err(Validation)
        else if from.value.org != to.value.org || CurrencyOf(from.value) != CurrencyOf(to.value) then Err(Validation)
        else
          Ok(Params(from.value.org.value, r.env, r.from, if r.kind == Transfer then r.to else r.from,
                    r.amount, CurrencyOf(from.value), r.kind, r.idem))
  }

  /** A debit whose key is new is blocked when the ledger cannot be asked or does not cover it. */
  function Admission(l: L.Ledger, p: Params, ledgerUp: bool): Result<()> {
    if !ledgerUp then Err(LedgerUnavailable)
    else if -L.BalanceRead(l, AccountOf(p, p.from)) < p.amount then Err(InsufficientFunds)
    else Ok(())
  }

  // ---------- The whole request ----------

  /** From the row onwards: create or get, claim if pending, post, write back. */
  function PostRow(rows: seq<Row>, l: L.Ledger, p: Params, d: Delivery, now: int, later: int)
    : (seq<Row>, L.Ledger, Row)
  {
    var i := Find(rows, p);
    var created := CreateOrGet(rows, p, now);
    if created[i].status != Pending then (created, l, created[i])
    else
      var claimed := TryClaim(created, i, now);
      var (l1, ok) := PostVia(l, RequestOf(i, p), d);
      var done := UpdateStatus(
        claimed, i, if ok then Posted else Pending, if ok then None else Some(Reason(d)), later);
      (done, l1, done[i])
  }

  function Submit(
    accounts: Accounts, rows: seq<Row>, l: L.Ledger, r: MoneyRequest,
    ledgerUp: bool, d: Delivery, now: int, later: int)
    : (seq<Row>, L.Ledger, Result<Row>)
  {
    match Prepare(accounts, r)
    case Err(e) => (rows, l, Err(e))
    case Ok(p) =>
      var i := Find(rows, p);
      if Debit(p) && i < |rows| && (rows[i].status == Posted || rows[i].status == Posting) then
        (rows, l, Ok(rows[i]))
      else if Debit(p) && i == |rows| && Admission(l, p, ledgerUp).Err? then
        (rows, l, Err(Admission(l, p, ledgerUp).error))
      else
        var (rows1, l1, row) := PostRow(rows, l, p, d, now, later);
        (rows1, l1, Ok(row))
  }

  datatype ImmediateOutcome = ReturnWithoutPost(row: Row) | Post(row: Row)

  /**
  Row `id` as it was `seen` when it was created or found; the table may have moved on since. Only
  the caller that takes the row from pending to posting may post it.
  */
  method ResolveImmediateLedgerPost(table: TransactionTable, id: nat, seen: Row, now: int)
    returns (outcome: ImmediateOutcome)
    requires id < |table.rows|
    modifies table
    ensures seen.status != Pending ==> table.rows == old(table.rows) && outcome == ReturnWithoutPost(seen)
    ensures seen.status == Pending ==>
      && table.rows == TryClaim(old(table.rows), id, now)
      && outcome == if old(table.rows)[id].status == Pending then Post(table.rows[id])
                    else ReturnWithoutPost(old(table.rows)[id])
  {
    match seen.status {
      case Posted => outcome := ReturnWithoutPost(seen);
      case Posting => outcome := ReturnWithoutPost(seen);
      case Failed => outcome := ReturnWithoutPost(seen);
      case Pending =>
        var claimed := table.TryClaimPendingForPost(id, now);
        if claimed.Some? {
          outcome := Post(claimed.value);
        } else {
          outcome := ReturnWithoutPost(table.rows[id]);
        }
    }
  }

  method ResolveAndPost(
    table: TransactionTable, ledger: L.LedgerStore, p: Params, d: Delivery, now: int, later: int)
    returns (row: Row)
    modifies table, ledger
    ensures (table.rows, ledger.State(), row)
         == PostRow(old(table.rows), old(ledger.State()), p, d, now, later)
  {
    var id := table.CreateOrGetByIdempotency(p, now);
    var outcome := ResolveImmediateLedgerPost(table, id, table.rows[id], now);
    match outcome {
      case ReturnWithoutPost(found) => row := found;
      case Post(_) =>
        var ok := PostTransaction(ledger, RequestOf(id, p), d);
        if ok {
          var _ := table.SetStatus(id, Posted, None, later);
        } else {
          var _ := table.SetStatus(id, Pending, Some(Reason(d)), later);
        }
        row := table.rows[id];
    }
  }

  method MoneyWithIdempotency(
    accounts: Accounts, table: TransactionTable, ledger: L.LedgerStore, r: MoneyRequest,
    ledgerUp: bool, d: Delivery, now: int, later: int)
    returns (result: Result<Row>)
    modifies table, ledger
    ensures (table.rows, ledger.State(), result)
         == Submit(accounts, old(table.rows), old(ledger.State()), r, ledgerUp, d, now, later)
  {
    var prepared := Prepare(accounts, r);
    if prepared.Err? { return Err(prepared.error); }
    var p := prepared.value;
    if Debit(p) {
      var i := Find(table.rows, p);
      if i < |table.rows| {
        if table.rows[i].status == Posted || table.rows[i].status == Posting { return Ok(table.rows[i]); }
      } else {
        if !ledgerUp { return Err(LedgerUnavailable); }
        var balance := ledger.GetAccountBalance(AccountOf(p, p.from));
        if -balance < p.amount { return Err(InsufficientFunds); }
      }
    }
    var row := ResolveAndPost(table, ledger, p, d, now, later);
    result := Ok(row);
  }

  // ---------- What a request promises ----------

  predicate Usable(accounts: Accounts, id: string, env: string) {
    (id, env) in accounts && accounts[(id, env)].active && accounts[(id, env)].org.Some?
  }

  /** Which requests pass the checks, and what they then ask for. */
  lemma PreparedIff(accounts: Accounts, r: MoneyRequest)
    ensures Prepare(accounts, r).Ok? <==>
      && r.amount > 0 && r.idem != "" && Usable(accounts, r.from, r.env)
      && (r.kind == Transfer ==>
           && Usable(accounts, r.to, r.env)
           && accounts[(r.from, r.env)].org == accounts[(r.to, r.env)].org
           && CurrencyOf(accounts[(r.from, r.env)]) == CurrencyOf(accounts[(r.to, r.env)]))
    ensures Prepare(accounts, r).Ok? ==>
      var p := Prepare(accounts, r).value;
      && Some(p.org) == accounts[(p.from, p.env)].org == accounts[(p.to, p.env)].org
      && p.currency == CurrencyOf(accounts[(p.from, p.env)]) && p.amount == r.amount && p.kind == r.kind
      && p.from == r.from && p.idem == r.idem && p.env == r.env
      && (if r.kind == Transfer then p.to == r.to else p.to == r.from)
  {
  }

  // ---------- After a failed immediate post ----------

  /** A new row, posted at once without success. */
  predicate FailsAtOnce(rows: seq<Row>, l: L.Ledger, p: Params, d: Delivery, now: int) {
    && CreateOrGet(rows, p, now)[Find(rows, p)].status == Pending
    && !PostVia(l, RequestOf(Find(rows, p), p), d).1
  }

  predicate Scheduled(r: Row, now: int) {
    r.nextRetryAt.Some? && r.nextRetryAt.value > now
  }

  /**
  A handler's failed post sets no retry time. The row keeps the one the worker gave it, if any, and
  is due from then on as soon as it is old enough.
  */
  lemma FailedPostKeepsSchedule(
    rows: seq<Row>, l: L.Ledger, p: Params, d: Delivery, now: int, later: int, t: int, olderSecs: int,
    env: Option<string>)
    requires FailsAtOnce(rows, l, p, d, now)
    ensures var before := CreateOrGet(rows, p, now)[Find(rows, p)];
      var r := PostRow(rows, l, p, d, now, later).2;
      && r.status == Pending && r.retryCount == before.retryCount && r.reason == Some(Reason(d))
      && (Eligible(r, t, olderSecs, env) <==>
           && (before.nextRetryAt.None? || before.nextRetryAt.value <= t)
           && before.createdAt < t - Millis(olderSecs) && InEnv(before, env))
      && (Scheduled(r, later) <==> Find(rows, p) < |rows| && Scheduled(rows[Find(rows, p)], later))
  {
  }

  /** So a first post that fails leaves a row with no schedule, due once it is old enough and not before. */
  lemma FirstFailureIsUnscheduled(
    rows: seq<Row>, l: L.Ledger, p: Params, d: Delivery, now: int, later: int, t: int, olderSecs: int)
    requires FailsAtOnce(rows, l, p, d, now) && Find(rows, p) == |rows|
    ensures var r := PostRow(rows, l, p, d, now, later).2;
      && r.nextRetryAt.None? && (Eligible(r, t, olderSecs, None) <==> now + Millis(olderSecs) < t)
  {
    FailedPostKeepsSchedule(rows, l, p, d, now, later, t, olderSecs, None);
  }

  // ---------- Replays and runs ----------

  /** A key that is posted answers every replay with the same row and no second effect. */
  lemma PostedReplay(
    accounts: Accounts, rows: seq<Row>, l: L.Ledger, r: MoneyRequest,
    up1: bool, d1: Delivery, t1: int, t2: int, up2: bool, d2: Delivery, t3: int, t4: int)
    requires var out := Submit(accounts, rows, l, r, up1, d1, t1, t2);
      out.2.Ok? && out.2.value.status == Posted
    ensures var out := Submit(accounts, rows, l, r, up1, d1, t1, t2);
      Submit(accounts, out.0, out.1, r, up2, d2, t3, t4) == out
  {
    var out := Submit(accounts, rows, l, r, up1, d1, t1, t2);
    var p := Prepare(accounts, r).value;
    var i := Find(rows, p);
    FoundAgain(rows, out.0, p);
  }

  /** A table that keeps what its rows ask for finds the key where it was, or where it was inserted. */
  lemma FoundAgain(rows: seq<Row>, after: seq<Row>, p: Params)
    requires |after| > Find(rows, p) && SameKey(after[Find(rows, p)].p, p)
    requires forall j :: 0 <= j < Find(rows, p) ==> after[j].p == rows[j].p
    ensures Find(after, p) == Find(rows, p)
  {
  }

  /** UUIDs name the accounts and organisations: not empty, and not a control account. */
  predicate ProperIds(accounts: Accounts) {
    forall k :: k in accounts ==> k.0 != "" && !L.IsSystem(k.0) && accounts[k].org != Some("")
  }

  lemma PreparedIsWellFormed(accounts: Accounts, r: MoneyRequest)
    requires ProperIds(accounts) && Prepare(accounts, r).Ok?
    ensures WellFormed(Prepare(accounts, r).value)
  {
  }

  /**
  What each hypothesis asks of a request for `p`: the parameters of its row, a new debit alone on its
  account, and a post that is done before its time and before anyone else is overdue.
  */
  predicate Meets(cfg: Config, hyp: set<Hypothesis>, s: System, p: Params, later: int) {
   
    && (Honest in hyp && Find(s.rows, p) < |s.rows| ==> s.rows[Find(s.rows, p)].p == p)
    && (Prudent in hyp && Debit(p) && Find(s.rows, p) == |s.rows| ==>
         NoDebitOutstanding(s.rows, AccountOf(p, p.from)))
    && (OnTime(hyp) ==> later <= s.now + cfg.perRowMs && OthersWait(cfg, s, |s.holders|, later))
    && (Timely in hyp ==> cfg.perRowMs <= Millis(cfg.staleSecs))
  }

  /**
  Every request, from any state, is a run of the protocol, legal under whatever hypotheses it meets.
  Under none it may replay a key with other parameters and withdraw beside another debit.
  */
  lemma RequestIsRun(
    cfg: Config, hyp: set<Hypothesis>, s: System, accounts: Accounts, r: MoneyRequest,
    ledgerUp: bool, d: Delivery, later: int)
    returns (steps: seq<Step>)
    requires ProperIds(accounts) && |s.expiries| == |s.rows| && s.now <= later
    requires Prepare(accounts, r).Ok? ==> Meets(cfg, hyp, s, Prepare(accounts, r).value, later)
    ensures Legal(cfg, hyp, s, steps)
    ensures var t := Run(cfg, hyp, s, steps);
      var out := Submit(accounts, s.rows, s.ledger, r, ledgerUp, d, s.now, later);
      t.rows == out.0 && t.ledger == out.1
  {
    var out := Submit(accounts, s.rows, s.ledger, r, ledgerUp, d, s.now, later);
    if out.0 == s.rows && out.1 == s.ledger {
      steps := [];
    } else {
      var p := Prepare(accounts, r).value;
      PreparedIsWellFormed(accounts, r);
      AdmittedIsCovered(s, accounts, r, ledgerUp, d, later);
      SubmitPosts(accounts, s.rows, s.ledger, r, ledgerUp, d, s.now, later);
      steps := PostRowIsRun(cfg, hyp, s, p, d, later);
    }
  }

  /** A request that changes anything goes through its row. */
  lemma SubmitPosts(
    accounts: Accounts, rows: seq<Row>, l: L.Ledger, r: MoneyRequest,
    ledgerUp: bool, d: Delivery, now: int, later: int)
    ensures var out := Submit(accounts, rows, l, r, ledgerUp, d, now, later);
      (out.0 != rows || out.1 != l) ==>
        && out.2.Ok? && Prepare(accounts, r).Ok?
        && var posted := PostRow(rows, l, Prepare(accounts, r).value, d, now, later);
           out.0 == posted.0 && out.1 == posted.1
  {
  }

  lemma PostRowIsRun(cfg: Config, hyp: set<Hypothesis>, s: System, p: Params, d: Delivery, later: int)
    returns (steps: seq<Step>)
    requires |s.expiries| == |s.rows| && WellFormed(p) && s.now <= later && Meets(cfg, hyp, s, p, later)
    requires Debit(p) && Find(s.rows, p) == |s.rows| ==> -L.BalanceRead(s.ledger, AccountOf(p, p.from)) >= p.amount
    ensures Legal(cfg, hyp, s, steps)
    ensures var t := Run(cfg, hyp, s, steps);
      var out := PostRow(s.rows, s.ledger, p, d, s.now, later);
      t.rows == out.0 && t.ledger == out.1
  {
    var i := Find(s.rows, p);
    var t: System;
    steps, t := CreateIsRun(cfg, hyp, s, p, later);
    if t.rows[i].status == Pending {
      steps := HandlerIsRun(cfg, hyp, s, steps, t, i, p, d, later);
    }
  }

  /** The balance is read for a new debit, and the row is there. */
  lemma CreateIsRun(cfg: Config, hyp: set<Hypothesis>, s: System, p: Params, later: int)
    returns (steps: seq<Step>, t: System)
    requires |s.expiries| == |s.rows| && WellFormed(p) && Meets(cfg, hyp, s, p, later)
    requires Debit(p) && Find(s.rows, p) == |s.rows| ==> -L.BalanceRead(s.ledger, AccountOf(p, p.from)) >= p.amount
    ensures Legal(cfg, hyp, s, steps) && Run(cfg, hyp, s, steps) == t
    ensures t.rows == CreateOrGet(s.rows, p, s.now) && t.ledger == s.ledger && t.now == s.now
    ensures |t.expiries| == |t.rows| && t.holders == s.holders
    ensures Find(s.rows, p) < |t.rows| && SameKey(t.rows[Find(s.rows, p)].p, p)
    ensures Honest in hyp ==> t.rows[Find(s.rows, p)].p == p
  {
    steps, t := [], s;
    if Debit(p) && Find(s.rows, p) == |s.rows| {
      steps, t := Next(cfg, hyp, s, steps, t, ReadBalance(p));
    }
    steps, t := Next(cfg, hyp, s, steps, t, Create(p, |s.checks|));
  }

  /** From a pending row to the outcome written back. */
  lemma HandlerIsRun(
    cfg: Config, hyp: set<Hypothesis>, s0: System, before: seq<Step>, s: System, i: nat, p: Params, d: Delivery,
    later: int)
    returns (steps: seq<Step>)
    requires Legal(cfg, hyp, s0, before) && Run(cfg, hyp, s0, before) == s
    requires |s.expiries| == |s.rows| && i < |s.rows| && SameKey(s.rows[i].p, p) && s.rows[i].status == Pending
    requires WellFormed(p) && s.now <= later && (Honest in hyp ==> s.rows[i].p == p)
    requires OnTime(hyp) ==> later <= s.now + cfg.perRowMs && OthersWait(cfg, s, |s.holders|, later)
    requires Timely in hyp ==> cfg.perRowMs <= Millis(cfg.staleSecs)
    ensures Legal(cfg, hyp, s0, steps)
    ensures var t := Run(cfg, hyp, s0, steps);
      var (l, ok) := PostVia(s.ledger, RequestOf(i, p), d);
      && t.ledger == l
      && t.rows == UpdateStatus(TryClaim(s.rows, i, s.now), i,
           if ok then Posted else Pending, if ok then None else Some(Reason(d)), later)
  {
    var h := |s.holders|;
    var t1: System, t2: System, t3: System;
    steps, t1 := Claims(cfg, hyp, s0, before, s, i, p);
    steps, t2 := Waited(cfg, hyp, s0, steps, s, t1, later);
    steps, t3 := FinishHolder(cfg, hyp, s0, steps, t2, h, d, false, Reason(d));
  }

  lemma Claims(cfg: Config, hyp: set<Hypothesis>, s0: System, before: seq<Step>, s: System, i: nat, p: Params)
    returns (steps: seq<Step>, t: System)
    requires Legal(cfg, hyp, s0, before) && Run(cfg, hyp, s0, before) == s
    requires |s.expiries| == |s.rows| && i < |s.rows| && SameKey(s.rows[i].p, p) && s.rows[i].status == Pending
    requires WellFormed(p) && (Honest in hyp ==> s.rows[i].p == p)
    requires Timely in hyp ==> cfg.perRowMs <= Millis(cfg.staleSecs)
    ensures Legal(cfg, hyp, s0, steps) && Run(cfg, hyp, s0, steps) == t
    ensures var x := Holder(i, RequestOf(i, p), false, s.rows[i].retryCount, s.now, |s.holders|, Claimed, s.now);
      t == s.(rows := TryClaim(s.rows, i, s.now), holders := s.holders + [x])
  {
    steps, t := Next(cfg, hyp, s0, before, s, HandlerClaim(i, p));
  }

  /** The new claim, the last of the holders, and all others may still be waiting at `later`. */
  lemma Waited(cfg: Config, hyp: set<Hypothesis>, s0: System, before: seq<Step>, s: System, t: System, later: int)
    returns (steps: seq<Step>, u: System)
    requires Legal(cfg, hyp, s0, before) && Run(cfg, hyp, s0, before) == t && |t.expiries| == |t.rows|
    requires s.now == t.now <= later && |t.holders| == |s.holders| + 1 && t.holders[..|s.holders|] == s.holders
    requires var x := t.holders[|s.holders|]; x.base == |s.holders| && x.claimedAt == s.now
    requires OnTime(hyp) ==> later <= s.now + cfg.perRowMs && OthersWait(cfg, s, |s.holders|, later)
    ensures Legal(cfg, hyp, s0, steps) && Run(cfg, hyp, s0, steps) == u && u == t.(now := later)
  {
    if OnTime(hyp) {
      forall h | 0 <= h < |t.holders| && Live(t.holders[h]) && Turn(t, h) ensures later <= StartOf(t, h) + cfg.perRowMs {
        if h < |s.holders| { SameTurn(s, t, h); }
      }
    }
    steps, u := Next(cfg, hyp, s0, before, t, Tick(later - s.now));
  }

  lemma SameTurn(s: System, t: System, h: nat)
    requires h < |s.holders| <= |t.holders| && t.holders[..|s.holders|] == s.holders
    ensures t.holders[h] == s.holders[h] && Turn(t, h) == Turn(s, h) && StartOf(t, h) == StartOf(s, h)
  {
    assert t.holders[h] == t.holders[..|s.holders|][h];
    if h > 0 { assert t.holders[h - 1] == t.holders[..|s.holders|][h - 1]; }
  }

  lemma AdmittedIsCovered(
    s: System, accounts: Accounts, r: MoneyRequest, ledgerUp: bool, d: Delivery, later: int)
    requires Prepare(accounts, r).Ok?
    ensures var p := Prepare(accounts, r).value;
      var out := Submit(accounts, s.rows, s.ledger, r, ledgerUp, d, s.now, later);
      out.2.Ok? && Debit(p) && Find(s.rows, p) == |s.rows| ==>
        -L.BalanceRead(s.ledger, AccountOf(p, p.from)) >= p.amount
  {
  }

}
