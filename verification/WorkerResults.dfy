/** What becomes of the rows of a batch whose calls succeed, and what stops the worker. */
module WorkerResults {
  import opened Options
  import opened Outbox
  import opened Protocol
  import opened LedgerClient
  import opened Worker
  import L = Ledger
  import Backoff

  /** A task works on its own row only, and the ledger is as the call left it. */
  lemma OnlyItsRow(cfg: Config, rows: seq<Row>, l: L.Ledger, task: Task, f: Fate, now: int)
    ensures var out := ProcessOne(cfg, rows, l, task, f, now);
      && |out.rows| == |rows| && (forall k :: 0 <= k < |rows| && k != task.id ==> out.rows[k] == rows[k])
      && out.ledger == PostVia(l, RequestOf(task.id, task.row.p), f.call).0
  {
  }

  /**
  After a call that succeeds the worker goes on. If the write reaches the table the row is posted,
  without a reason, and keeps everything else; if not, it is as it was.
  */
  lemma SucceededCall(cfg: Config, rows: seq<Row>, l: L.Ledger, task: Task, f: Fate, now: int)
    requires task.id < |rows| && PostVia(l, RequestOf(task.id, task.row.p), f.call).1
    ensures var out := ProcessOne(cfg, rows, l, task, f, now);
      var before, r := rows[task.id], out.rows[task.id];
      && out.running && |out.rows| == |rows| && (forall k :: 0 <= k < |rows| && k != task.id ==> out.rows[k] == rows[k])
      && if f.stored then
           && r.status == Posted && r.reason.None? && r.updatedAt == now
           && r.p == before.p && r.retryCount == before.retryCount && r.createdAt == before.createdAt
           && r.nextRetryAt == before.nextRetryAt && r.lastAttemptedAt == before.lastAttemptedAt
           && r.terminalFailureAt == before.terminalFailureAt
         else r == before
  {
  }

  // ---------- A batch ----------

  /** Whether the call of row `i` of the batch succeeds, when its turn comes. */
  predicate Succeeds(
    cfg: Config, rows: seq<Row>, l: L.Ledger, pending: seq<Task>, net: seq<Fate>, clock: seq<int>, i: nat)
    requires i < |pending| == |net| == |clock|
  {
    PostVia(Processed(cfg, rows, l, pending, net, clock, i).ledger, RequestOf(pending[i].id, pending[i].row.p), net[i].call).1
  }

  /** Row `i` fails with an attempt left, and the instant of its retry is none. */
  predicate StopsAt(
    cfg: Config, rows: seq<Row>, l: L.Ledger, pending: seq<Task>, net: seq<Fate>, clock: seq<int>, i: nat)
    requires i < |pending| == |net| == |clock|
  {
    && Processed(cfg, rows, l, pending, net, clock, i).running
    && !Succeeds(cfg, rows, l, pending, net, clock, i) && pending[i].row.retryCount < cfg.maxAttempts
    && !Backoff.Representable(clock[i] + Backoff.WaitMs(pending[i].row.retryCount, cfg.baseMs, cfg.maxMs))
  }

  lemma OneStops(cfg: Config, rows: seq<Row>, l: L.Ledger, task: Task, f: Fate, now: int)
    ensures !ProcessOne(cfg, rows, l, task, f, now).running <==>
      && !PostVia(l, RequestOf(task.id, task.row.p), f.call).1 && task.row.retryCount < cfg.maxAttempts
      && !Backoff.Representable(now + Backoff.WaitMs(task.row.retryCount, cfg.baseMs, cfg.maxMs))
  {
  }

  lemma TurnStops(
    cfg: Config, rows: seq<Row>, l: L.Ledger, pending: seq<Task>, net: seq<Fate>, clock: seq<int>, i: nat)
    requires i < |pending| == |net| == |clock|
    ensures var done := Processed(cfg, rows, l, pending, net, clock, i);
      !Processed(cfg, rows, l, pending, net, clock, i + 1).running <==>
        !done.running || StopsAt(cfg, rows, l, pending, net, clock, i)
  {
    var done := Processed(cfg, rows, l, pending, net, clock, i);
    ProcessedNext(cfg, rows, l, pending, net, clock, i, done);
    OneStops(cfg, done.rows, done.ledger, pending[i], net[i], clock[i]);
  }

  /** A worker that has stopped was stopped by some row. */
  lemma {:induction false} WhoStopped(
    cfg: Config, rows: seq<Row>, l: L.Ledger, pending: seq<Task>, net: seq<Fate>, clock: seq<int>, n: nat)
    returns (i: nat)
    requires n <= |pending| == |net| == |clock| && !Processed(cfg, rows, l, pending, net, clock, n).running
    ensures i < n && StopsAt(cfg, rows, l, pending, net, clock, i)
  {
    i := n - 1;
    TurnStops(cfg, rows, l, pending, net, clock, i);
    if !StopsAt(cfg, rows, l, pending, net, clock, i) {
      i := WhoStopped(cfg, rows, l, pending, net, clock, i);
    }
  }

  /** Once a row has stopped the worker it stays stopped. */
  lemma StopIsFinal(
    cfg: Config, rows: seq<Row>, l: L.Ledger, pending: seq<Task>, net: seq<Fate>, clock: seq<int>, i: nat, n: nat)
    requires i < n <= |pending| == |net| == |clock| && StopsAt(cfg, rows, l, pending, net, clock, i)
    ensures !Processed(cfg, rows, l, pending, net, clock, n).running
  {
    TurnStops(cfg, rows, l, pending, net, clock, i);
    StoppedStays(cfg, rows, l, pending, net, clock, i + 1, n);
  }

  /** The worker has stopped within a batch if and only if some row stopped it. */
  lemma StoppedIff(
    cfg: Config, rows: seq<Row>, l: L.Ledger, pending: seq<Task>, net: seq<Fate>, clock: seq<int>, n: nat)
    requires n <= |pending| == |net| == |clock|
    ensures !Processed(cfg, rows, l, pending, net, clock, n).running <==>
      exists i :: 0 <= i < n && StopsAt(cfg, rows, l, pending, net, clock, i)
  {
    if !Processed(cfg, rows, l, pending, net, clock, n).running {
      var i := WhoStopped(cfg, rows, l, pending, net, clock, n);
    } else {
      forall i | 0 <= i < n ensures !StopsAt(cfg, rows, l, pending, net, clock, i) {
        if StopsAt(cfg, rows, l, pending, net, clock, i) { StopIsFinal(cfg, rows, l, pending, net, clock, i, n); }
      }
    }
  }

  /** The rows of a batch: of the table, and all different. */
  predicate Distinct(pending: seq<Task>, size: nat) {
    && (forall i :: 0 <= i < |pending| ==> pending[i].id < size)
    && (forall i, j :: 0 <= i < j < |pending| ==> pending[i].id != pending[j].id)
  }

  lemma TurnKeeps(
    cfg: Config, rows: seq<Row>, l: L.Ledger, pending: seq<Task>, net: seq<Fate>, clock: seq<int>, n: nat, done: Progress)
    requires n < |pending| == |net| == |clock| && done == Processed(cfg, rows, l, pending, net, clock, n)
    ensures var out := Processed(cfg, rows, l, pending, net, clock, n + 1);
      |out.rows| == |done.rows| && forall k :: 0 <= k < |done.rows| && k != pending[n].id ==> out.rows[k] == done.rows[k]
  {
    ProcessedNext(cfg, rows, l, pending, net, clock, n, done);
    OnlyItsRow(cfg, done.rows, done.ledger, pending[n], net[n], clock[n]);
  }

  /** What the turn of row `i` left of it, all later turns leave. */
  lemma {:induction false} RowIsKept(
    cfg: Config, rows: seq<Row>, l: L.Ledger, pending: seq<Task>, net: seq<Fate>, clock: seq<int>, i: nat, n: nat)
    requires i < n <= |pending| == |net| == |clock| && Distinct(pending, |rows|)
    ensures var at, out := Processed(cfg, rows, l, pending, net, clock, i + 1), Processed(cfg, rows, l, pending, net, clock, n);
      |at.rows| == |out.rows| == |rows| && out.rows[pending[i].id] == at.rows[pending[i].id]
    decreases n
  {
    SizeKept(cfg, rows, l, pending, net, clock, i + 1);
    if i + 1 < n {
      RowIsKept(cfg, rows, l, pending, net, clock, i, n - 1);
      TurnKeeps(cfg, rows, l, pending, net, clock, n - 1, Processed(cfg, rows, l, pending, net, clock, n - 1));
    }
  }

  lemma {:induction false} SizeKept(
    cfg: Config, rows: seq<Row>, l: L.Ledger, pending: seq<Task>, net: seq<Fate>, clock: seq<int>, n: nat)
    requires n <= |pending| == |net| == |clock|
    ensures |Processed(cfg, rows, l, pending, net, clock, n).rows| == |rows|
  {
    if n > 0 {
      SizeKept(cfg, rows, l, pending, net, clock, n - 1);
      TurnKeeps(cfg, rows, l, pending, net, clock, n - 1, Processed(cfg, rows, l, pending, net, clock, n - 1));
    }
  }

  lemma TurnPosts(
    cfg: Config, rows: seq<Row>, l: L.Ledger, pending: seq<Task>, net: seq<Fate>, clock: seq<int>, i: nat)
    requires i < |pending| == |net| == |clock| && pending[i].id < |rows|
    requires Processed(cfg, rows, l, pending, net, clock, i).running
    requires Succeeds(cfg, rows, l, pending, net, clock, i) && net[i].stored
    ensures var out := Processed(cfg, rows, l, pending, net, clock, i + 1);
      && |out.rows| == |rows| && out.rows[pending[i].id].status == Posted
      && out.rows[pending[i].id].reason.None? && out.rows[pending[i].id].updatedAt == clock[i]
  {
    var done := Processed(cfg, rows, l, pending, net, clock, i);
    SizeKept(cfg, rows, l, pending, net, clock, i);
    ProcessedNext(cfg, rows, l, pending, net, clock, i, done);
    SucceededCall(cfg, done.rows, done.ledger, pending[i], net[i], clock[i]);
  }

  /**
  If no row of a batch stops the worker, it works off the whole batch, and every row whose call
  succeeded and was written down is posted in the end.
  */
  lemma BatchPosts(
    cfg: Config, rows: seq<Row>, l: L.Ledger, pending: seq<Task>, net: seq<Fate>, clock: seq<int>, i: nat)
    requires i < |pending| == |net| == |clock| && Distinct(pending, |rows|)
    requires forall j :: 0 <= j < |pending| ==> !StopsAt(cfg, rows, l, pending, net, clock, j)
    ensures var out := Processed(cfg, rows, l, pending, net, clock, |pending|);
      && out.running && |out.rows| == |rows|
      && (Succeeds(cfg, rows, l, pending, net, clock, i) && net[i].stored ==>
           var r := out.rows[pending[i].id]; r.status == Posted && r.reason.None? && r.updatedAt == clock[i])
  {
    StoppedIff(cfg, rows, l, pending, net, clock, |pending|);
    StoppedIff(cfg, rows, l, pending, net, clock, i);
    RowIsKept(cfg, rows, l, pending, net, clock, i, |pending|);
    if Succeeds(cfg, rows, l, pending, net, clock, i) && net[i].stored {
      TurnPosts(cfg, rows, l, pending, net, clock, i);
    }
  }

  /** A row outside the batch is as it was, wherever the worker stops. */
  lemma {:induction false} OutsideBatch(
    cfg: Config, rows: seq<Row>, l: L.Ledger, pending: seq<Task>, net: seq<Fate>, clock: seq<int>, n: nat, k: nat)
    requires n <= |pending| == |net| == |clock| && k < |rows|
    requires forall i :: 0 <= i < |pending| ==> pending[i].id != k
    ensures var out := Processed(cfg, rows, l, pending, net, clock, n); |out.rows| == |rows| && out.rows[k] == rows[k]
  {
    if n > 0 {
      OutsideBatch(cfg, rows, l, pending, net, clock, n - 1, k);
      TurnKeeps(cfg, rows, l, pending, net, clock, n - 1, Processed(cfg, rows, l, pending, net, clock, n - 1));
    }
  }

}
