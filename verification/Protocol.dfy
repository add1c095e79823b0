/**
The posting protocol between accounts-service and the ledger, as a state machine.

HTTP handlers and the retry worker hold claims on outbox rows, call the ledger, and write the
outcome back. A request put on the wire may land at any later moment, once, often or never; an
answer may be lost; a holder may crash; the reconciler and the reclaim run at any time.
*/
module Protocol {
  import opened Options
  import opened Outbox
  import L = Ledger
  import Backoff

  datatype Config = Config(
    staleSecs: int, pendingSecs: int, olderSecs: int, limit: nat,
    maxAttempts: int, baseMs: nat, maxMs: nat, perRowMs: nat)

  datatype Phase = Claimed | Calling | Answered(ok: bool) | Finished | Dead

  /**
  One claim of one row. The claims of a worker's batch are consecutive, start at `base`, and are
  worked off in order; a handler's claim is a batch of one. `attempt` is the retry count the
  claim returned.
  */
  datatype Holder = Holder(
    row: nat, req: L.Request, worker: bool, attempt: nat, claimedAt: int, base: nat,
    phase: Phase, doneAt: int)

  /**
  The balance a handler read for a debit that had no row yet. `clear` while no debit of the account
  has been outstanding at any instant since the read.
  */
  datatype Check = Check(p: Params, balance: int, clear: bool)

  datatype System = System(
    now: int, rows: seq<Row>, ledger: L.Ledger, holders: seq<Holder>, wire: set<L.Request>,
    expiries: seq<nat>, checks: seq<Check>)

  /** `check` names the balance read a new debit relies on. */
  datatype Step =
    | ReadBalance(p: Params)
    | Create(p: Params, check: nat)
    | HandlerClaim(id: nat, p: Params)
    | WorkerReclaim(env: Option<string>)
    | WorkerClaim(ids: seq<nat>, env: Option<string>)
    | ReconcileRequeue
    | ReconcileFail
    | Send(h: nat)
    | Land(req: L.Request)
    | Answer(h: nat, ok: bool)
    | WriteBack(h: nat, lost: bool, reason: string)
    | Crash(h: nat)
    | Tick(d: nat)

  /** What a theorem may assume of a run, beyond that the code can take its steps. */
  datatype Hypothesis = Honest | Paced | Timely | Prudent | Prompt | Reliable

  function Init(now: int): System {
    System(now, [], L.EMPTY, [], {}, [], [])
  }

  // ---------- Requests ----------

  predicate WellFormed(p: Params) {
    && p.amount > 0 && p.idem != "" && p.org != "" && p.from != "" && p.to != ""
    && !L.IsSystem(p.from) && !L.IsSystem(p.to)
    && (p.kind != Transfer ==> p.from == p.to)
  }

  /** The ledger request built from a row by the worker, and from its own parameters by a handler. */
  function RequestOf(id: nat, p: Params): L.Request {
    match p.kind
    case Transfer => L.Request(p.org, p.env, p.from, p.to, p.amount, p.currency, id, p.idem, false)
    case Deposit => L.Request(p.org, p.env, L.CASH, p.to, p.amount, p.currency, id, p.idem, false)
    case Withdraw => L.Request(p.org, p.env, p.from, L.CASH, p.amount, p.currency, id, p.idem, false)
  }

  function TxKeyOf(p: Params): L.TxKey {
    L.TxKey(p.org, p.env, p.idem)
  }

  function AccountOf(p: Params, ext: string): L.AccountKey {
    L.AccountKey(p.org, p.env, ext, p.currency)
  }

  /** The balance accounts-service shows and checks: the ledger's, negated. */
  function CustomerView(l: L.Ledger, a: L.AccountKey): int {
    -L.BalanceOf(l, a)
  }

  // ---------- Holders ----------

  predicate Live(h: Holder) {
    h.phase in {Claimed, Calling, Answered(true), Answered(false)}
  }

  /** A batch is worked off in order. */
  predicate Turn(s: System, h: nat)
    requires h < |s.holders|
  {
    h <= s.holders[h].base || s.holders[h - 1].phase == Finished
  }

  function StartOf(s: System, h: nat): int
    requires h < |s.holders|
  {
    if h <= s.holders[h].base then s.holders[h].claimedAt else s.holders[h - 1].doneAt
  }

  function SetPhase(s: System, h: nat, phase: Phase): System
    requires h < |s.holders|
  {
    s.(holders := s.holders[h := s.holders[h].(phase := phase)])
  }

  /** What a holder with an answer does to the table. */
  function WrittenBack(cfg: Config, rows: seq<Row>, h: Holder, ok: bool, reason: string, now: int): seq<Row> {
    if ok then UpdateStatus(rows, h.row, Posted, None, now)
    else if !h.worker then UpdateStatus(rows, h.row, Pending, Some(reason), now)
    else if h.attempt >= cfg.maxAttempts then MarkTerminalFailure(rows, h.row, reason, now)
    else ScheduleRetry(rows, h.row, reason, now + Backoff.WaitMs(h.attempt, cfg.baseMs, cfg.maxMs), now)
  }

  /** A worker that has to schedule a retry first needs an instant for it, and one the database takes. */
  predicate MayWrite(cfg: Config, h: Holder, ok: bool, lost: bool, now: int) {
    !ok && h.worker && h.attempt < cfg.maxAttempts ==>
      var r := Backoff.RetryTimeAt(h.attempt, cfg.baseMs, cfg.maxMs, now);
      r != Backoff.Stops && (!lost ==> r.At?)
  }

  function Expire(expiries: seq<nat>, before: seq<Row>, after: seq<Row>): (r: seq<nat>)
    requires |expiries| == |before| == |after|
    ensures |r| == |expiries|
  {
    seq(|expiries|, i requires 0 <= i < |expiries| =>
      if before[i].status == Posting && after[i].status == Pending then expiries[i] + 1 else expiries[i])
  }

  /** The claims of a batch just taken, as `rows` stand after the claim. */
  function NewHolders(rows: seq<Row>, ids: seq<nat>, now: int, base: nat): (r: seq<Holder>)
    requires forall i :: 0 <= i < |ids| ==> ids[i] < |rows|
    ensures |r| == |ids|
  {
    seq(|ids|, i requires 0 <= i < |ids| =>
      Holder(ids[i], RequestOf(ids[i], rows[ids[i]].p), true, rows[ids[i]].retryCount, now, base, Claimed, now))
  }

  function Kill(holders: seq<Holder>, base: nat): (r: seq<Holder>)
    ensures |r| == |holders|
  {
    seq(|holders|, i requires 0 <= i < |holders| =>
      if holders[i].base == base && Live(holders[i]) then holders[i].(phase := Dead) else holders[i])
  }

  // ---------- Admission of debits ----------

  predicate Debit(p: Params) {
    p.kind == Withdraw || p.kind == Transfer
  }

  predicate Outstanding(r: Row) {
    r.status == Pending || r.status == Posting
  }

  predicate NoDebitOutstanding(rows: seq<Row>, a: L.AccountKey) {
    forall i :: 0 <= i < |rows| && Debit(rows[i].p) && Outstanding(rows[i]) ==>
      AccountOf(rows[i].p, rows[i].p.from) != a
  }

  /** Only an insert and a write-back can make a debit outstanding; the checks are told of both. */
  function Watch(checks: seq<Check>, rows: seq<Row>): (r: seq<Check>)
    ensures |r| == |checks|
  {
    seq(|checks|, i requires 0 <= i < |checks| =>
      if NoDebitOutstanding(rows, AccountOf(checks[i].p, checks[i].p.from)) then checks[i]
      else checks[i].(clear := false))
  }

  /** The balance that was read covers the debit. */
  predicate Passed(checks: seq<Check>, p: Params, c: nat) {
    c < |checks| && checks[c].p == p && checks[c].balance >= p.amount
  }

  // ---------- Steps ----------

  predicate Enabled(cfg: Config, s: System, step: Step) {
    && |s.expiries| == |s.rows|
    && match step
       case ReadBalance(p) => WellFormed(p) && Debit(p) && Find(s.rows, p) == |s.rows|
       case Create(p, c) =>
         WellFormed(p) && (Debit(p) && Find(s.rows, p) == |s.rows| ==> Passed(s.checks, p, c))
       case HandlerClaim(id, p) =>
         id < |s.rows| && s.rows[id].status == Pending && SameKey(s.rows[id].p, p) && WellFormed(p)
       case WorkerReclaim(_) => true
       case WorkerClaim(ids, env) =>
         && |ids| <= cfg.limit
         && (forall i :: 0 <= i < |ids| ==> ids[i] < |s.rows| && Eligible(s.rows[ids[i]], s.now, cfg.olderSecs, env))
         && (forall i, j :: 0 <= i < j < |ids| ==> ids[i] != ids[j])
       case ReconcileRequeue => true
       case ReconcileFail => true
       case Send(h) => h < |s.holders| && s.holders[h].phase == Claimed && Turn(s, h)
       case Land(req) => req in s.wire
       case Answer(h, ok) =>
         h < |s.holders| && s.holders[h].phase == Calling
         && (ok ==> L.Rpc(s.ledger, s.holders[h].req).1 == L.PostedOk)
       case WriteBack(h, lost, _) =>
         h < |s.holders| && s.holders[h].phase.Answered? && MayWrite(cfg, s.holders[h], s.holders[h].phase.ok, lost, s.now)
       case Crash(h) => h < |s.holders| && Live(s.holders[h])
       case Tick(_) => true
  }

  function Apply(cfg: Config, s: System, step: Step): System
    requires Enabled(cfg, s, step)
  {
    match step
    case ReadBalance(p) =>
      var a := AccountOf(p, p.from);
      s.(checks := s.checks + [Check(p, -L.BalanceRead(s.ledger, a), NoDebitOutstanding(s.rows, a))])
    case Create(p, _) =>
      var rows := CreateOrGet(s.rows, p, s.now);
      s.(rows := rows, expiries := if |rows| == |s.rows| then s.expiries else s.expiries + [0],
         checks := Watch(s.checks, rows))
    case HandlerClaim(id, p) =>
      s.(rows := TryClaim(s.rows, id, s.now),
         holders := s.holders + [Holder(id, RequestOf(id, p), false, s.rows[id].retryCount, s.now,
                                        |s.holders|, Claimed, s.now)])
    case WorkerReclaim(env) =>
      var rows := Reclaim(s.rows, s.now, cfg.staleSecs, env);
      s.(rows := rows, expiries := Expire(s.expiries, s.rows, rows))
    case WorkerClaim(ids, _) =>
      var rows := ClaimAll(s.rows, ids, s.now);
      s.(rows := rows, holders := s.holders + NewHolders(rows, ids, s.now, |s.holders|))
    case ReconcileRequeue =>
      var rows := SweepRequeue(s.rows, s.now, cfg.staleSecs);
      s.(rows := rows, expiries := Expire(s.expiries, s.rows, rows))
    case ReconcileFail => s.(rows := SweepFail(s.rows, s.now, cfg.pendingSecs))
    case Send(h) => SetPhase(s, h, Calling).(wire := s.wire + {s.holders[h].req})
    case Land(req) => s.(ledger := L.Rpc(s.ledger, req).0)
    case Answer(h, ok) =>
      var s1 := SetPhase(s, h, Answered(ok));
      if ok then s1.(ledger := L.Rpc(s.ledger, s.holders[h].req).0) else s1
    case WriteBack(h, lost, reason) =>
      var x := s.holders[h];
      var rows := if lost then s.rows else WrittenBack(cfg, s.rows, x, x.phase.ok, reason, s.now);
      s.(rows := rows, holders := s.holders[h := x.(phase := Finished, doneAt := s.now)],
         checks := Watch(s.checks, rows))
    case Crash(h) => s.(holders := Kill(s.holders, s.holders[h].base))
    case Tick(d) => s.(now := s.now + d)
  }

  // ---------- Hypotheses ----------

  /** A replay of an idempotency key carries the parameters of the first request. */
  predicate HonestStep(s: System, step: Step) {
    step.HandlerClaim? && step.id < |s.rows| ==> s.rows[step.id].p == step.p
  }

  /** Working off one row, from its turn on, takes at most `perRowMs`. */
  predicate PacedStep(cfg: Config, s: System, step: Step) {
    step.Tick? ==>
      forall h :: 0 <= h < |s.holders| && Live(s.holders[h]) && Turn(s, h) ==>
        s.now + step.d <= StartOf(s, h) + cfg.perRowMs
  }

  /** Working off one row is paced, and a whole batch fits into the lease. */
  predicate TimelyStep(cfg: Config, s: System, step: Step) {
    && PacedStep(cfg, s, step)
    && (step.HandlerClaim? ==> cfg.perRowMs <= Millis(cfg.staleSecs))
    && (step.WorkerClaim? ==> |step.ids| * cfg.perRowMs <= Millis(cfg.staleSecs))
  }

  /** A new debit relies on a read since which no debit of the account was outstanding. */
  predicate PrudentStep(s: System, step: Step) {
    step.Create? && Debit(step.p) && Find(s.rows, step.p) == |s.rows| ==>
      step.check < |s.checks| && s.checks[step.check].clear
  }

  /** A request lands while its caller still waits, or never. */
  predicate PromptStep(s: System, step: Step) {
    step.Land? ==> exists h :: 0 <= h < |s.holders| && s.holders[h].phase == Calling && s.holders[h].req == step.req
  }

  /** No holder dies, of a retry time or otherwise, and no write-back is lost. */
  predicate ReliableStep(step: Step) {
    !step.Crash? && (step.WriteBack? ==> !step.lost)
  }

  predicate Allowed(cfg: Config, hyp: set<Hypothesis>, s: System, step: Step) {
    && Enabled(cfg, s, step)
    && (Honest in hyp ==> HonestStep(s, step))
    && (Paced in hyp ==> PacedStep(cfg, s, step))
    && (Timely in hyp ==> TimelyStep(cfg, s, step))
    && (Prudent in hyp ==> PrudentStep(s, step))
    && (Prompt in hyp ==> PromptStep(s, step))
    && (Reliable in hyp ==> ReliableStep(step))
  }

  // ---------- Runs ----------

  predicate Legal(cfg: Config, hyp: set<Hypothesis>, s: System, steps: seq<Step>)
    decreases |steps|
  {
    steps == [] || (Allowed(cfg, hyp, s, steps[0]) && Legal(cfg, hyp, Apply(cfg, s, steps[0]), steps[1..]))
  }

  function Run(cfg: Config, hyp: set<Hypothesis>, s: System, steps: seq<Step>): System
    requires Legal(cfg, hyp, s, steps)
    decreases |steps|
  {
    if steps == [] then s else Run(cfg, hyp, Apply(cfg, s, steps[0]), steps[1..])
  }

  /** Every step but `Create` keeps the number of rows, and none changes what a row asks for. */
  predicate SameRequests(before: seq<Row>, after: seq<Row>) {
    |before| <= |after| && forall i :: 0 <= i < |before| ==> after[i].p == before[i].p
  }

  /** The flag is exact: it stays set while, and only while, no step leaves a debit of the account outstanding. */
  lemma ClearIsExact(cfg: Config, s: System, step: Step, c: nat)
    requires Enabled(cfg, s, step) && c < |s.checks|
    requires s.checks[c].clear ==> NoDebitOutstanding(s.rows, AccountOf(s.checks[c].p, s.checks[c].p.from))
    ensures var t := Apply(cfg, s, step); var a := AccountOf(s.checks[c].p, s.checks[c].p.from);
      && c < |t.checks| && t.checks[c].p == s.checks[c].p && t.checks[c].balance == s.checks[c].balance
      && (t.checks[c].clear <==> s.checks[c].clear && NoDebitOutstanding(t.rows, a))
  {
  }

  lemma StepKeepsRequests(cfg: Config, s: System, step: Step)
    requires Enabled(cfg, s, step)
    ensures SameRequests(s.rows, Apply(cfg, s, step).rows)
    ensures !step.Create? ==> |Apply(cfg, s, step).rows| == |s.rows|
    ensures |Apply(cfg, s, step).expiries| == |Apply(cfg, s, step).rows|
  {
  }

}
