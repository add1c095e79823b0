/**
The ledger service: idempotent double-entry posting of one request.

The pure part of the module says what one call does to the ledger, including a process that
dies part-way. The class `LedgerStore` performs the same call write by write.
*/
module Ledger {
  import opened Options

  datatype AccountType = Asset | Liability | Equity | Income | Expense

  datatype EntryType = Debit | Credit

  datatype TxStatus = Pending | Posted | Failed

  datatype Operation = Deposit | Withdraw | Transfer

  datatype Side = Source | Destination

  datatype Change = Increase | Decrease

  /** The unique index over ledger accounts; it stands for the account's id. */
  datatype AccountKey = AccountKey(org: string, env: string, ext: string, currency: string)

  /** The unique index over ledger transactions; it stands for the transaction's id. */
  datatype TxKey = TxKey(org: string, env: string, idem: string)

  datatype LedgerTx = LedgerTx(extId: nat, status: TxStatus, failureReason: Option<string>)

  datatype Entry = Entry(tx: TxKey, account: AccountKey, kind: EntryType, amount: int)

  datatype Ledger = Ledger(
    types: map<AccountKey, AccountType>,
    txs: map<TxKey, LedgerTx>,
    entries: seq<Entry>,
    balances: map<AccountKey, int>)

  /** A posting request; `currency` is already stripped and upper-cased. */
  datatype Request = Request(
    org: string, env: string, source: string, dest: string,
    amount: int, currency: string, extId: nat, idem: string, isDeposit: bool)

  /** What the caller of the poster sees. `Died` is a process that never answers. */
  datatype Verdict = PostedOk | Refused | Died

  const EMPTY := Ledger(map[], map[], [], map[])

  const CASH := "SYSTEM_CASH_CONTROL"
  const CLEARING := "SYSTEM_BANK_CLEARING"
  const FEES := "SYSTEM_FEE_INCOME"
  const POOL := "SYSTEM_CUSTOM_POOL"

  /** Writes on the path that has no enclosing database transaction. */
  const COMPLETION_WRITES: nat := 7

  /** Writes on the fresh path: the transaction row, the seven above and the commit. */
  const FRESH_WRITES: nat := 9

  // ---------- Case expressions of the poster ----------

  predicate IsSystem(ext: string) {
    "SYSTEM_" <= ext
  }

  predicate IsCurrency(c: string) {
    |c| == 3 && forall i :: 0 <= i < 3 ==> 'A' <= c[i] <= 'Z'
  }

  predicate ValidInputs(req: Request) {
    && req.amount > 0
    && req.env in ["sandbox", "production"]
    && IsCurrency(req.currency)
  }

  function KeyOf(req: Request): TxKey {
    TxKey(req.org, req.env, req.idem)
  }

  function SourceKey(req: Request): AccountKey {
    AccountKey(req.org, req.env, req.source, req.currency)
  }

  function DestKey(req: Request): AccountKey {
    AccountKey(req.org, req.env, req.dest, req.currency)
  }

  function SourceType(req: Request): AccountType {
    if req.isDeposit || IsSystem(req.source) then Asset else Liability
  }

  function DestType(req: Request): AccountType {
    if IsSystem(req.dest) then
      if req.dest == CASH || req.dest == CLEARING then Asset
      else if req.dest == FEES then Income
      else Asset
    else Liability
  }

  predicate SelfTransfer(req: Request) {
    SourceKey(req) == DestKey(req) && !req.isDeposit
  }

  function DetectOperation(source: string, dest: string): Operation {
    if source == CASH && dest != CASH then Deposit
    else if dest == CASH && source != CASH then Withdraw
    else Transfer
  }

  function AccountChangeFor(op: Operation, side: Side): Change {
    match op
    case Transfer => if side == Source then Decrease else Increase
    case Deposit => Increase
    case Withdraw => Decrease
  }

  predicate DebitNormal(ty: AccountType) {
    ty == Asset || ty == Expense
  }

  function EntryTypeFor(ty: AccountType, change: Change): EntryType {
    if change == Increase then
      if DebitNormal(ty) then Debit else Credit
    else
      if DebitNormal(ty) then Credit else Debit
  }

  // ---------- Reading the ledger ----------

  function Amount(balances: map<AccountKey, int>, a: AccountKey): int {
    if a in balances then balances[a] else 0
  }

  function BalanceOf(l: Ledger, a: AccountKey): int {
    Amount(l.balances, a)
  }

  /** The balance a customer sees: liabilities are stored negated. */
  function DisplayBalance(l: Ledger, a: AccountKey): int {
    if a in l.types && DebitNormal(l.types[a]) then BalanceOf(l, a) else -BalanceOf(l, a)
  }

  /** The balance read over RPC: 0 for an unknown account or one without a balance row. */
  function BalanceRead(l: Ledger, a: AccountKey): int {
    if a in l.types then BalanceOf(l, a) else 0
  }

  function Signed(e: Entry): int {
    if e.kind == Debit then e.amount else -e.amount
  }

  /** Debits less credits that a journal books on account `a`. */
  function Net(entries: seq<Entry>, a: AccountKey): int {
    if entries == [] then 0
    else
      var last := entries[|entries| - 1];
      Net(entries[..|entries| - 1], a) + if last.account == a then Signed(last) else 0
  }

  /** The entries a journal holds for one transaction, in order. */
  function EntriesOf(entries: seq<Entry>, k: TxKey): seq<Entry> {
    if entries == [] then []
    else
      var last := entries[|entries| - 1];
      EntriesOf(entries[..|entries| - 1], k) + if last.tx == k then [last] else []
  }

  // ---------- One call ----------

  function ResolveIn(l: Ledger, a: AccountKey, ty: AccountType): Ledger {
    if a in l.types then l else l.(types := l.types[a := ty])
  }

  predicate Resolved(l: Ledger, req: Request) {
    SourceKey(req) in l.types && DestKey(req) in l.types
  }

  function SourceEntry(l: Ledger, req: Request): Entry
    requires Resolved(l, req)
  {
    var change := AccountChangeFor(DetectOperation(req.source, req.dest), Source);
    Entry(KeyOf(req), SourceKey(req), EntryTypeFor(l.types[SourceKey(req)], change), req.amount)
  }

  function DestEntry(l: Ledger, req: Request): Entry
    requires Resolved(l, req)
  {
    var change := AccountChangeFor(DetectOperation(req.source, req.dest), Destination);
    Entry(KeyOf(req), DestKey(req), EntryTypeFor(l.types[DestKey(req)], change), req.amount)
  }

  /** Both accounts found or created. */
  function ResolveBoth(l: Ledger, req: Request): (r: Ledger)
    ensures Resolved(r, req)
  {
    ResolveIn(ResolveIn(l, SourceKey(req), SourceType(req)), DestKey(req), DestType(req))
  }

  /** The two entries a posting books, in the order they are written. */
  function Plan(l: Ledger, req: Request): (plan: seq<Entry>)
    ensures |plan| == 2
  {
    var r := ResolveBoth(l, req);
    [SourceEntry(r, req), DestEntry(r, req)]
  }

  function Bump(balances: map<AccountKey, int>, e: Entry): map<AccountKey, int> {
    balances[e.account := Amount(balances, e.account) + Signed(e)]
  }

  function BumpAll(balances: map<AccountKey, int>, es: seq<Entry>): map<AccountKey, int> {
    if es == [] then balances else Bump(BumpAll(balances, es[..|es| - 1]), es[|es| - 1])
  }

  /** How many of the two entries, and of the two balance updates, the first `n` writes include. */
  function EntriesWritten(n: nat): nat {
    if n <= 2 then 0 else if n == 3 then 1 else 2
  }

  function BalancesWritten(n: nat): nat {
    if n <= 4 then 0 else if n == 5 then 1 else 2
  }

  /** The ledger after the first `n` of the seven writes that complete a posting. */
  function AfterWrites(l: Ledger, req: Request, n: nat): Ledger
    requires KeyOf(req) in l.txs && n <= COMPLETION_WRITES
  {
    if n == 0 then l
    else if n == 1 then ResolveIn(l, SourceKey(req), SourceType(req))
    else
      var k := KeyOf(req);
      Ledger(
        ResolveBoth(l, req).types,
        if n < COMPLETION_WRITES then l.txs else l.txs[k := l.txs[k].(status := Posted, failureReason := None)],
        l.entries + Plan(l, req)[..EntriesWritten(n)],
        BumpAll(l.balances, Plan(l, req)[..BalancesWritten(n)]))
  }

  /** Completing a transaction row that exists but was never posted: no rollback. */
  function Complete(l: Ledger, req: Request, survives: nat): (Ledger, Verdict)
    requires KeyOf(req) in l.txs
  {
    if SelfTransfer(req) then
      if survives < 2 then (AfterWrites(l, req, survives), Died)
      else (AfterWrites(l, req, 2), Refused)
    else if survives < COMPLETION_WRITES then (AfterWrites(l, req, survives), Died)
    else (AfterWrites(l, req, COMPLETION_WRITES), PostedOk)
  }

  function CreateTx(l: Ledger, req: Request): Ledger {
    l.(txs := l.txs[KeyOf(req) := LedgerTx(req.extId, Pending, None)])
  }

  /** A first posting, inside one database transaction: everything or nothing. */
  function PostFresh(l: Ledger, req: Request, survives: nat): (Ledger, Verdict) {
    if SelfTransfer(req) then (l, if survives < 3 then Died else Refused)
    else if survives < FRESH_WRITES then (l, Died)
    else (AfterWrites(CreateTx(l, req), req, COMPLETION_WRITES), PostedOk)
  }

  /** One call of the poster by a process that survives `survives` writes. */
  function Post(l: Ledger, req: Request, survives: nat): (Ledger, Verdict) {
    var k := KeyOf(req);
    if !ValidInputs(req) then (l, Refused)
    else if k !in l.txs then PostFresh(l, req, survives)
    else if l.txs[k].status == Posted then (l, PostedOk)
    else if EntriesOf(l.entries, k) != [] then (l, Refused)
    else Complete(l, req, survives)
  }

  /** One call of the poster by a process that does not die. */
  function PostOk(l: Ledger, req: Request): (Ledger, Verdict) {
    Post(l, req, FRESH_WRITES)
  }

  /** What the RPC layer demands before it calls the poster. */
  predicate WellFormed(req: Request) {
    req.org != "" && req.currency != "" && req.idem != "" && req.source != "" && req.dest != ""
  }

  /** One RPC: the poster's result for a well-formed request, a refusal for any other. */
  function Rpc(l: Ledger, req: Request): (Ledger, Verdict) {
    if WellFormed(req) then PostOk(l, req) else (l, Refused)
  }

  // ---------- The store, updated in place ----------

  class LedgerStore {
    var types: map<AccountKey, AccountType>
    var txs: map<TxKey, LedgerTx>
    var entries: seq<Entry>
    var balances: map<AccountKey, int>

    function State(): Ledger
      reads this
    {
      Ledger(types, txs, entries, balances)
    }

    constructor ()
      ensures State() == EMPTY
    {
      types, txs, entries, balances := map[], map[], [], map[];
    }

    /** Find or create; the type of an account that exists is left alone. */
    method Resolve(a: AccountKey, ty: AccountType)
      modifies this`types
      ensures State() == ResolveIn(old(State()), a, ty)
    {
      if a !in types {
        types := types[a := ty];
      }
    }

    method UpdateBalance(a: AccountKey, amount: int, kind: EntryType)
      modifies this`balances
      ensures forall tx :: balances == Bump(old(balances), Entry(tx, a, kind, amount))
    {
      var current := Amount(balances, a);
      match kind {
        case Debit => balances := balances[a := current + amount];
        case Credit => balances := balances[a := current - amount];
      }
    }

    method CreateEntry(e: Entry)
      modifies this`entries
      ensures entries == old(entries) + [e]
    {
      entries := entries + [e];
    }

    method MarkAsPosted(k: TxKey)
      requires k in txs
      modifies this`txs
      ensures txs == old(txs)[k := old(txs)[k].(status := Posted, failureReason := None)]
    {
      txs := txs[k := txs[k].(status := Posted, failureReason := None)];
    }

    /** The rest of a posting; the process dies after `survives` writes. */
    method CompletePosting(req: Request, survives: nat) returns (v: Verdict)
      requires KeyOf(req) in txs
      modifies this
      ensures (State(), v) == Complete(old(State()), req, survives)
    {
      ghost var l := State();
      ghost var plan := Plan(l, req);
      v := Died;
      if survives == 0 { return; }
      Resolve(SourceKey(req), SourceType(req));
      if survives == 1 { return; }
      Resolve(DestKey(req), DestType(req));
      assert State() == AfterWrites(l, req, 2);
      if SelfTransfer(req) { return Refused; }

      var op := DetectOperation(req.source, req.dest);
      var sourceKind := EntryTypeFor(types[SourceKey(req)], AccountChangeFor(op, Source));
      var destKind := EntryTypeFor(types[DestKey(req)], AccountChangeFor(op, Destination));
      if survives == 2 { return; }
      CreateEntry(Entry(KeyOf(req), SourceKey(req), sourceKind, req.amount));
      assert plan[..1] == [plan[0]];
      if survives == 3 { return; }
      CreateEntry(Entry(KeyOf(req), DestKey(req), destKind, req.amount));
      assert plan[..2] == [plan[0], plan[1]];
      assert entries == l.entries + plan[..2];
      if survives == 4 { return; }
      UpdateBalance(SourceKey(req), req.amount, sourceKind);
      assert balances == Bump(l.balances, plan[0]) == BumpAll(l.balances, plan[..1]);
      if survives == 5 { return; }
      UpdateBalance(DestKey(req), req.amount, destKind);
      assert plan[..2][..1] == plan[..1];
      assert balances == Bump(BumpAll(l.balances, plan[..1]), plan[1]) == BumpAll(l.balances, plan[..2]);
      if survives == 6 { return; }
      MarkAsPosted(KeyOf(req));
      v := PostedOk;
    }

    method Call(req: Request, survives: nat) returns (v: Verdict)
      modifies this
      ensures (State(), v) == Post(old(State()), req, survives)
    {
      if !ValidInputs(req) { return Refused; }
      var k := KeyOf(req);
      if k in txs {
        if txs[k].status == Posted { return PostedOk; }
        if EntriesOf(entries, k) != [] { return Refused; }
        v := CompletePosting(req, survives);
        return;
      }

      // One database transaction: on any failure the saved fields come back.
      var saved := (types, txs, entries, balances);
      if survives == 0 { return Died; }
      txs := txs[k := LedgerTx(req.extId, Pending, None)];
      v := CompletePosting(req, survives - 1);
      if v != PostedOk || survives < FRESH_WRITES {
        if v == PostedOk { v := Died; }
        types, txs, entries, balances := saved.0, saved.1, saved.2, saved.3;
      }
    }

    /** The gRPC endpoint; an exception of the poster becomes a refusal. */
    method PostTransaction(req: Request) returns (posted: bool)
      modifies this
      ensures State() == Rpc(old(State()), req).0
      ensures posted <==> Rpc(old(State()), req).1 == PostedOk
    {
      if req.org == "" || req.currency == "" || req.idem == "" || req.source == "" || req.dest == "" {
        return false;
      }
      var v := Call(req, FRESH_WRITES);
      posted := v == PostedOk;
    }

    method GetAccountBalance(a: AccountKey) returns (balance: int)
      ensures balance == BalanceRead(State(), a)
    {
      if a in types && a in balances { balance := balances[a]; } else { balance := 0; }
    }
  }

}
