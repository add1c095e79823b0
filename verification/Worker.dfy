/** The retry worker: it posts a claimed batch row by row and writes each outcome back. */
module Worker {
  import opened Options
  import opened Outbox
  import opened Protocol
  import opened LedgerClient
  import L = Ledger
  import Backoff

  /** A row as the claim returned it. */
  datatype Task = Task(id: nat, row: Row)

  /** What becomes of one row: of its call, and of the write of the outcome, whose failure is ignored. */
  datatype Fate = Fate(call: Delivery, stored: bool)

  /** Table and ledger, and whether the worker is still running. */
  datatype Progress = Progress(rows: seq<Row>, ledger: L.Ledger, running: bool)

  /** The retry time of a task whose call failed at `now`, if it has an attempt left. */
  function RetryOf(cfg: Config, task: Task, now: int): Option<Backoff.RetryTime> {
    if task.row.retryCount >= cfg.maxAttempts then None
    else Some(Backoff.RetryTimeAt(task.row.retryCount, cfg.baseMs, cfg.maxMs, now))
  }

  /** One row of the batch, on the table and the ledger. */
  function ProcessOne(cfg: Config, rows: seq<Row>, l: L.Ledger, task: Task, f: Fate, now: int): Progress {
    var (l1, ok) := PostVia(l, RequestOf(task.id, task.row.p), f.call);
    if !ok && RetryOf(cfg, task, now) == Some(Backoff.Stops) then Progress(rows, l1, false)
    else if !f.stored then Progress(rows, l1, true)
    else if ok then Progress(UpdateStatus(rows, task.id, Posted, None, now), l1, true)
    else
      match RetryOf(cfg, task, now)
      case None => Progress(MarkTerminalFailure(rows, task.id, Reason(f.call), now), l1, true)
      case Some(At(t)) => Progress(ScheduleRetry(rows, task.id, Reason(f.call), t, now), l1, true)
      case Some(_) => Progress(rows, l1, true)
  }

  /** A row as the worker holds it: old enough when it was claimed. */
  predicate OldEnough(cfg: Config, rows: seq<Row>, task: Task, now: int) {
    task.id < |rows| && rows[task.id].createdAt < now - Millis(cfg.olderSecs)
  }

  /**
  After a failed call with attempts left, exactly one of three things happens to the row, by the
  retry delay: it is due exactly when the delay is over, which is at least the base delay, or it is
  due at once, or it stays in posting, and then the worker has stopped unless the database refused the retry time.
  With no attempt left the row has failed for good.
  */
  lemma FailedCallWaits(cfg: Config, rows: seq<Row>, l: L.Ledger, task: Task, d: Delivery, now: int)
    requires cfg.baseMs <= Backoff.U64_MAX && cfg.maxMs <= Backoff.U64_MAX && OldEnough(cfg, rows, task, now)
    requires Backoff.FIRST_STORED <= now <= Backoff.LAST_INSTANT
    requires !PostVia(l, RequestOf(task.id, task.row.p), d).1
    ensures var out := ProcessOne(cfg, rows, l, task, Fate(d, true), now);
      var r := out.rows[task.id];
      var delay := Backoff.RetryDelay(task.row.retryCount, cfg.baseMs, cfg.maxMs);
      var back := Backoff.U64_MAX + 1 - delay;
      if task.row.retryCount >= cfg.maxAttempts then
        && out.running && r.status == Failed && r.terminalFailureAt == Some(now)
        && r.reason == Some(Reason(d)) && r.nextRetryAt.None?
      else if now + delay <= Backoff.LAST_INSTANT then
        && out.running && r.status == Pending && r.reason == Some(Reason(d))
        && r.retryCount == rows[task.id].retryCount && delay >= cfg.baseMs
        && (forall t :: Eligible(r, t, cfg.olderSecs, None) ==> now + cfg.baseMs <= t)
        && (forall t :: now <= t ==> (Eligible(r, t, cfg.olderSecs, None) <==> now + delay <= t))
      else if back <= now - Backoff.FIRST_STORED then
        out.running && Eligible(r, now, cfg.olderSecs, None) && cfg.baseMs > 0
      else out.rows == rows && (out.running <==> back <= now - Backoff.FIRST_INSTANT)
  {
    Backoff.RetryOutcome(task.row.retryCount, cfg.baseMs, cfg.maxMs, now);
    Backoff.WaitsIff(task.row.retryCount, cfg.baseMs, cfg.maxMs, now);
    Backoff.DelayBounds(task.row.retryCount, task.row.retryCount, cfg.baseMs, cfg.maxMs);
  }

  /** The first `n` rows of the batch; a worker that has stopped touches no further row. */
  function Processed(
    cfg: Config, rows: seq<Row>, l: L.Ledger, pending: seq<Task>, net: seq<Fate>, clock: seq<int>, n: nat): Progress
    requires n <= |pending| == |net| == |clock|
  {
    if n == 0 then Progress(rows, l, true)
    else ProcessedAfter(cfg, Processed(cfg, rows, l, pending, net, clock, n - 1), pending[n - 1], net[n - 1], clock[n - 1])
  }

  function ProcessedAfter(cfg: Config, done: Progress, task: Task, f: Fate, now: int): Progress {
    if done.running then ProcessOne(cfg, done.rows, done.ledger, task, f, now) else done
  }

  lemma ProcessedNext(
    cfg: Config, rows: seq<Row>, l: L.Ledger, pending: seq<Task>, net: seq<Fate>, clock: seq<int>, n: nat, done: Progress)
    requires n < |pending| == |net| == |clock| && done == Processed(cfg, rows, l, pending, net, clock, n)
    ensures Processed(cfg, rows, l, pending, net, clock, n + 1) == ProcessedAfter(cfg, done, pending[n], net[n], clock[n])
  {
  }

  lemma {:induction false} StoppedStays(
    cfg: Config, rows: seq<Row>, l: L.Ledger, pending: seq<Task>, net: seq<Fate>, clock: seq<int>, m: nat, n: nat)
    requires m <= n <= |pending| == |net| == |clock| && !Processed(cfg, rows, l, pending, net, clock, m).running
    ensures Processed(cfg, rows, l, pending, net, clock, n) == Processed(cfg, rows, l, pending, net, clock, m)
  {
    if m < n {
      StoppedStays(cfg, rows, l, pending, net, clock, m, n - 1);
      ProcessedNext(cfg, rows, l, pending, net, clock, n - 1, Processed(cfg, rows, l, pending, net, clock, n - 1));
    }
  }

  method ProcessClaimedLedgerPosts(
    cfg: Config, table: TransactionTable, ledger: L.LedgerStore,
    pending: seq<Task>, net: seq<Fate>, clock: seq<int>)
    returns (running: bool)
    requires |pending| == |net| == |clock|
    modifies table, ledger
    ensures Progress(table.rows, ledger.State(), running)
         == Processed(cfg, old(table.rows), old(ledger.State()), pending, net, clock, |pending|)
  {
    ghost var rows, l := table.rows, ledger.State();
    running := true;
    for i := 0 to |pending|
      invariant running && Progress(table.rows, ledger.State(), true) == Processed(cfg, rows, l, pending, net, clock, i)
    {
      ghost var done := Processed(cfg, rows, l, pending, net, clock, i);
      running := ProcessTask(cfg, table, ledger, pending[i], net[i], clock[i]);
      ProcessedNext(cfg, rows, l, pending, net, clock, i, done);
      if !running {
        StoppedStays(cfg, rows, l, pending, net, clock, i + 1, |pending|);
        return;
      }
    }
  }

  method ProcessTask(
    cfg: Config, table: TransactionTable, ledger: L.LedgerStore, task: Task, f: Fate, now: int)
    returns (running: bool)
    modifies table, ledger
    ensures Progress(table.rows, ledger.State(), running)
         == ProcessOne(cfg, old(table.rows), old(ledger.State()), task, f, now)
  {
    running := true;
    var ok := PostTransaction(ledger, RequestOf(task.id, task.row.p), f.call);
    if ok {
      if f.stored { var _ := table.SetStatus(task.id, Posted, None, now); }
    } else if task.row.retryCount >= cfg.maxAttempts {
      if f.stored { var _ := table.SetTerminalFailure(task.id, Reason(f.call), now); }
    } else {
      var nextRetryAt := now + Backoff.WaitMs(task.row.retryCount, cfg.baseMs, cfg.maxMs);
      if !Backoff.Representable(nextRetryAt) { return false; }
      if f.stored && Backoff.FIRST_STORED <= nextRetryAt {
        var _ := table.SetRetry(task.id, Reason(f.call), nextRetryAt, now);
      }
    }
  }

  /** The tasks a claim hands to the worker. */
  function TasksOf(rows: seq<Row>, ids: seq<nat>): (r: seq<Task>)
    requires forall i :: 0 <= i < |ids| ==> ids[i] < |rows|
    ensures |r| == |ids|
  {
    seq(|ids|, i requires 0 <= i < |ids| => Task(ids[i], rows[ids[i]]))
  }

  /** One iteration: reclaim, claim the oldest eligible rows, post them one after another. */
  method PollOnce(cfg: Config, table: TransactionTable, ledger: L.LedgerStore, net: seq<Fate>, clock: seq<int>, now: int)
    returns (ids: seq<nat>, running: bool)
    requires |net| == |clock| == cfg.limit
    modifies table, ledger
    ensures var ready := Reclaim(old(table.rows), now, cfg.staleSecs, None);
      && OldestEligible(ready, ids, now, cfg.olderSecs, cfg.limit, None)
      && var claimed := ClaimAll(ready, ids, now);
         var n := |ids|;
         Progress(table.rows, ledger.State(), running)
           == Processed(cfg, claimed, old(ledger.State()), TasksOf(claimed, ids), net[..n], clock[..n], n)
  {
    ids := table.ClaimPendingForLedgerPost(now, cfg.olderSecs, cfg.staleSecs, Some(cfg.limit), None);
    var pending := TasksOf(table.rows, ids);
    running := ProcessClaimedLedgerPosts(cfg, table, ledger, pending, net[..|ids|], clock[..|ids|]);
  }

}
