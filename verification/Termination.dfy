/** With a ledger that accepts nothing, the retry worker gives up on every row it keeps claiming. */
module Termination {
  import opened Options
  import opened Outbox
  import opened OutboxRuns
  import opened Protocol
  import opened LedgerClient
  import opened Worker
  import Lease
  import L = Ledger

  /** The rows claimed by one poll, what becomes of their calls, and when each is written back. */
  datatype Poll = Poll(now: int, ids: seq<nat>, net: seq<Fate>, clock: seq<int>)

  function Claimed(cfg: Config, rows: seq<Row>, poll: Poll): (r: seq<Row>)
    ensures |r| == |rows|
  {
    ClaimAll(Reclaim(rows, poll.now, cfg.staleSecs, None), poll.ids, poll.now)
  }

  predicate LegalPoll(cfg: Config, rows: seq<Row>, poll: Poll) {
    && |poll.ids| == |poll.net| == |poll.clock|
    && OldestEligible(Reclaim(rows, poll.now, cfg.staleSecs, None), poll.ids, poll.now, cfg.olderSecs, cfg.limit, None)
  }

  function AfterPoll(cfg: Config, rows: seq<Row>, l: L.Ledger, poll: Poll): Progress
    requires LegalPoll(cfg, rows, poll)
  {
    var claimed := Claimed(cfg, rows, poll);
    Processed(cfg, claimed, l, TasksOf(claimed, poll.ids), poll.net, poll.clock, |poll.ids|)
  }

  /** The call fails, and what it leaves is written down: a failure for good, or a retry time. */
  predicate RefusedAt(cfg: Config, l: L.Ledger, task: Task, f: Fate, now: int) {
    && f.stored && !PostVia(l, RequestOf(task.id, task.row.p), f.call).1
    && (RetryOf(cfg, task, now).Some? ==> RetryOf(cfg, task, now).value.At?)
  }

  /** No call among the first `n` of a batch succeeds, and each refusal is written down. */
  predicate AllRefused(
    cfg: Config, rows: seq<Row>, l: L.Ledger, pending: seq<Task>, net: seq<Fate>, clock: seq<int>, n: nat)
    requires n <= |pending| == |net| == |clock|
  {
    forall i :: 0 <= i < n ==> RefusedInTurn(cfg, rows, l, pending, net, clock, i)
  }

  predicate RefusedInTurn(
    cfg: Config, rows: seq<Row>, l: L.Ledger, pending: seq<Task>, net: seq<Fate>, clock: seq<int>, i: nat)
    requires i < |pending| == |net| == |clock|
  {
    RefusedAt(cfg, Processed(cfg, rows, l, pending, net, clock, i).ledger, pending[i], net[i], clock[i])
  }

  predicate RefusedPoll(cfg: Config, rows: seq<Row>, l: L.Ledger, poll: Poll)
    requires LegalPoll(cfg, rows, poll)
  {
    var claimed := Claimed(cfg, rows, poll);
    AllRefused(cfg, claimed, l, TasksOf(claimed, poll.ids), poll.net, poll.clock, |poll.ids|)
  }

  /** What a refusal leaves of a claimed row. */
  predicate GivenBack(cfg: Config, claimed: Row, after: Row) {
    && after.p == claimed.p && after.retryCount == claimed.retryCount
    && after.status == (if claimed.retryCount >= cfg.maxAttempts then Failed else Pending)
  }

  lemma RefusedOne(cfg: Config, rows: seq<Row>, l: L.Ledger, task: Task, f: Fate, now: int)
    requires task.id < |rows| && RefusedAt(cfg, l, task, f, now)
    ensures var out := ProcessOne(cfg, rows, l, task, f, now);
      var after := out.rows;
      && out.running && |after| == |rows| && (forall k :: 0 <= k < |rows| && k != task.id ==> after[k] == rows[k])
      && (task.row == rows[task.id] ==> GivenBack(cfg, rows[task.id], after[task.id]))
  {
  }

  /** Distinct rows of the table. */
  predicate Batch(rows: seq<Row>, ids: seq<nat>) {
    && (forall i :: 0 <= i < |ids| ==> ids[i] < |rows|)
    && (forall i, j :: 0 <= i < j < |ids| ==> ids[i] != ids[j])
  }

  /** The claimed rows are given back one after another; no other row is touched. */
  predicate GivenBackTo(cfg: Config, rows: seq<Row>, after: seq<Row>, ids: seq<nat>, n: nat)
    requires n <= |ids|
  {
    && |after| == |rows|
    && forall k :: 0 <= k < |rows| ==> if k in ids[..n] then GivenBack(cfg, rows[k], after[k]) else after[k] == rows[k]
  }

  lemma GivenBackNext(cfg: Config, rows: seq<Row>, mid: seq<Row>, after: seq<Row>, ids: seq<nat>, n: nat)
    requires n < |ids| && Batch(rows, ids)
    requires GivenBackTo(cfg, rows, mid, ids, n)
    requires |after| == |mid| && forall k :: 0 <= k < |mid| && k != ids[n] ==> after[k] == mid[k]
    requires rows[ids[n]] == mid[ids[n]] ==> GivenBack(cfg, mid[ids[n]], after[ids[n]])
    ensures GivenBackTo(cfg, rows, after, ids, n + 1)
  {
    assert ids[..n + 1] == ids[..n] + [ids[n]];
    assert ids[n] !in ids[..n];
  }

  lemma RefusedNext(
    cfg: Config, rows: seq<Row>, mid: seq<Row>, m: L.Ledger, ids: seq<nat>, n: nat, f: Fate, now: int)
    requires n < |ids| && Batch(rows, ids)
    requires GivenBackTo(cfg, rows, mid, ids, n)
    requires RefusedAt(cfg, m, Task(ids[n], rows[ids[n]]), f, now)
    ensures var out := ProcessOne(cfg, mid, m, Task(ids[n], rows[ids[n]]), f, now);
      out.running && GivenBackTo(cfg, rows, out.rows, ids, n + 1)
  {
    var task := Task(ids[n], rows[ids[n]]);
    RefusedOne(cfg, mid, m, task, f, now);
    GivenBackNext(cfg, rows, mid, ProcessOne(cfg, mid, m, task, f, now).rows, ids, n);
  }

  /** Row `i` of the batch, if all rows before it were given back, is given back too. */
  predicate Kept(cfg: Config, rows: seq<Row>, ids: seq<nat>, outs: seq<Progress>, i: nat)
    requires i < |ids| && i + 1 < |outs|
  {
    outs[i].running && GivenBackTo(cfg, rows, outs[i].rows, ids, i) ==>
      outs[i + 1].running && GivenBackTo(cfg, rows, outs[i + 1].rows, ids, i + 1)
  }

  lemma {:induction false} AllKept(cfg: Config, rows: seq<Row>, ids: seq<nat>, outs: seq<Progress>, n: nat)
    requires n <= |ids| && n < |outs| && outs[0].running && outs[0].rows == rows
    requires forall i :: 0 <= i < n ==> Kept(cfg, rows, ids, outs, i)
    ensures outs[n].running && GivenBackTo(cfg, rows, outs[n].rows, ids, n)
  {
    if n > 0 {
      AllKept(cfg, rows, ids, outs, n - 1);
      assert Kept(cfg, rows, ids, outs, n - 1);
    }
  }

  lemma RefusedKept(
    cfg: Config, rows: seq<Row>, l: L.Ledger, ids: seq<nat>, tasks: seq<Task>, net: seq<Fate>, clock: seq<int>,
    outs: seq<Progress>, i: nat)
    requires i < |ids| == |net| == |clock| && i + 1 < |outs| && Batch(rows, ids) && tasks == TasksOf(rows, ids)
    requires RefusedInTurn(cfg, rows, l, tasks, net, clock, i)
    requires outs[i] == Processed(cfg, rows, l, tasks, net, clock, i)
    requires outs[i + 1] == Processed(cfg, rows, l, tasks, net, clock, i + 1)
    ensures Kept(cfg, rows, ids, outs, i)
  {
    ProcessedNext(cfg, rows, l, tasks, net, clock, i, outs[i]);
    if outs[i].running && GivenBackTo(cfg, rows, outs[i].rows, ids, i) {
      RefusedNext(cfg, rows, outs[i].rows, outs[i].ledger, ids, i, net[i], clock[i]);
    }
  }

  /** A batch whose calls all fail is given back row by row, and the worker keeps running. */
  lemma RefusedRows(
    cfg: Config, rows: seq<Row>, l: L.Ledger, ids: seq<nat>, tasks: seq<Task>, net: seq<Fate>, clock: seq<int>)
    requires |ids| == |net| == |clock| && Batch(rows, ids) && tasks == TasksOf(rows, ids)
    requires AllRefused(cfg, rows, l, tasks, net, clock, |ids|)
    ensures var out := Processed(cfg, rows, l, tasks, net, clock, |ids|);
      out.running && GivenBackTo(cfg, rows, out.rows, ids, |ids|)
  {
    var outs := seq(|ids| + 1, i requires 0 <= i <= |ids| => Processed(cfg, rows, l, tasks, net, clock, i));
    forall i | 0 <= i < |ids| ensures Kept(cfg, rows, ids, outs, i) {
      assert RefusedInTurn(cfg, rows, l, tasks, net, clock, i);
      assert outs[i] == Processed(cfg, rows, l, tasks, net, clock, i);
      assert outs[i + 1] == Processed(cfg, rows, l, tasks, net, clock, i + 1);
      RefusedKept(cfg, rows, l, ids, tasks, net, clock, outs, i);
    }
    AllKept(cfg, rows, ids, outs, |ids|);
  }

  /** Between polls every row is terminal, or pending with an attempt left. */
  predicate Quiet(cfg: Config, rows: seq<Row>) {
    forall k :: 0 <= k < |rows| ==>
      Lease.Terminal(rows[k]) || (rows[k].status == Pending && rows[k].retryCount < cfg.maxAttempts)
  }

  function Left(cfg: Config, r: Row): nat {
    if Lease.Terminal(r) || r.retryCount >= cfg.maxAttempts then 0 else cfg.maxAttempts - r.retryCount
  }

  /** The attempts the whole table has left. */
  function Measure(cfg: Config, rows: seq<Row>): nat {
    if rows == [] then 0 else Measure(cfg, rows[..|rows| - 1]) + Left(cfg, rows[|rows| - 1])
  }

  function Below(taken: set<nat>, n: nat): set<nat> {
    set k | k in taken && k < n
  }

  lemma {:induction false} MeasureDrops(cfg: Config, rows: seq<Row>, after: seq<Row>, taken: set<nat>)
    requires |after| == |rows|
    requires forall k :: 0 <= k < |rows| ==> Left(cfg, rows[k]) == Left(cfg, after[k]) + if k in taken then 1 else 0
    ensures Measure(cfg, rows) == Measure(cfg, after) + |Below(taken, |rows|)|
  {
    if rows != [] {
      var n := |rows| - 1;
      MeasureDrops(cfg, rows[..n], after[..n], taken);
      assert Below(taken, |rows|) == Below(taken, n) + if n in taken then {n} else {};
    }
  }

  /** Each claimed row has used an attempt, and has failed if it was the last; nothing else changed. */
  predicate UsedAttempt(cfg: Config, rows: seq<Row>, after: seq<Row>, ids: seq<nat>) {
    && |after| == |rows|
    && forall k :: 0 <= k < |rows| ==>
         if k in ids then
           && rows[k].status == Pending && after[k].retryCount == rows[k].retryCount + 1
           && after[k].status == (if after[k].retryCount == cfg.maxAttempts then Failed else Pending)
         else after[k] == rows[k]
  }

  lemma UsedAttemptMeasure(cfg: Config, rows: seq<Row>, after: seq<Row>, ids: seq<nat>)
    requires Quiet(cfg, rows) && UsedAttempt(cfg, rows, after, ids)
    requires forall i :: 0 <= i < |ids| ==> ids[i] < |rows|
    requires forall i, j :: 0 <= i < j < |ids| ==> ids[i] != ids[j]
    ensures Quiet(cfg, after) && Measure(cfg, rows) == Measure(cfg, after) + |ids|
  {
    MeasureDrops(cfg, rows, after, IdSet(ids));
    DistinctCardinality(ids);
    assert Below(IdSet(ids), |rows|) == IdSet(ids);
  }

  /** A quiet table has no posting row to reclaim. */
  lemma QuietReclaim(cfg: Config, rows: seq<Row>, now: int)
    requires Quiet(cfg, rows)
    ensures Reclaim(rows, now, cfg.staleSecs, None) == rows
  {
  }

  lemma PollGivesBack(cfg: Config, rows: seq<Row>, l: L.Ledger, poll: Poll, claimed: seq<Row>, after: seq<Row>)
    requires LegalPoll(cfg, rows, poll) && RefusedPoll(cfg, rows, l, poll)
    requires claimed == Claimed(cfg, rows, poll) && after == AfterPoll(cfg, rows, l, poll).rows
    ensures AfterPoll(cfg, rows, l, poll).running
    ensures |after| == |rows| && forall k :: 0 <= k < |rows| ==>
      if k in poll.ids then GivenBack(cfg, claimed[k], after[k]) else after[k] == claimed[k]
  {
    var tasks := TasksOf(claimed, poll.ids);
    RefusedRows(cfg, claimed, l, poll.ids, tasks, poll.net, poll.clock);
    assert poll.ids[..|poll.ids|] == poll.ids;
  }

  /** One poll whose calls all fail leaves the worker running and uses up one attempt of each row it claims. */
  lemma PollRefused(cfg: Config, rows: seq<Row>, l: L.Ledger, poll: Poll)
    requires Quiet(cfg, rows) && LegalPoll(cfg, rows, poll) && RefusedPoll(cfg, rows, l, poll)
    ensures AfterPoll(cfg, rows, l, poll).running
    ensures var after := AfterPoll(cfg, rows, l, poll).rows;
      && UsedAttempt(cfg, rows, after, poll.ids) && Quiet(cfg, after)
      && Measure(cfg, rows) == Measure(cfg, after) + |poll.ids|
  {
    var claimed := Claimed(cfg, rows, poll);
    QuietReclaim(cfg, rows, poll.now);
    var after := AfterPoll(cfg, rows, l, poll).rows;
    PollGivesBack(cfg, rows, l, poll, claimed, after);
    ClaimedThenGivenBack(cfg, rows, claimed, after, poll.ids, poll.now);
    UsedAttemptMeasure(cfg, rows, after, poll.ids);
  }

  lemma ClaimedThenGivenBack(cfg: Config, rows: seq<Row>, claimed: seq<Row>, after: seq<Row>, ids: seq<nat>, now: int)
    requires Quiet(cfg, rows) && claimed == ClaimAll(rows, ids, now)
    requires forall i :: 0 <= i < |ids| ==> ids[i] < |rows| && rows[ids[i]].status == Pending
    requires |after| == |rows| && forall k :: 0 <= k < |rows| ==>
      if k in ids then GivenBack(cfg, claimed[k], after[k]) else after[k] == claimed[k]
    ensures UsedAttempt(cfg, rows, after, ids)
  {
    forall k | 0 <= k < |rows| && k in ids ensures rows[k].status == Pending { }
  }

  // ---------- Any number of polls ----------

  predicate RefusedPolls(cfg: Config, rows: seq<Row>, l: L.Ledger, polls: seq<Poll>)
    decreases |polls|
  {
    polls == [] ||
    (LegalPoll(cfg, rows, polls[0]) && RefusedPoll(cfg, rows, l, polls[0]) &&
     var out := AfterPoll(cfg, rows, l, polls[0]);
     RefusedPolls(cfg, out.rows, out.ledger, polls[1..]))
  }

  function AfterPolls(cfg: Config, rows: seq<Row>, l: L.Ledger, polls: seq<Poll>): seq<Row>
    requires RefusedPolls(cfg, rows, l, polls)
    decreases |polls|
  {
    if polls == [] then rows
    else
      var out := AfterPoll(cfg, rows, l, polls[0]);
      AfterPolls(cfg, out.rows, out.ledger, polls[1..])
  }

  function ClaimsOf(batches: seq<seq<nat>>, k: nat): nat {
    if batches == [] then 0 else (if k in batches[0] then 1 else 0) + ClaimsOf(batches[1..], k)
  }

  function TotalClaims(batches: seq<seq<nat>>): nat {
    if batches == [] then 0 else |batches[0]| + TotalClaims(batches[1..])
  }

  function Batches(polls: seq<Poll>): seq<seq<nat>> {
    if polls == [] then [] else [polls[0].ids] + Batches(polls[1..])
  }

  /** A run of polls, seen on the rows alone. */
  ghost predicate UsedUp(cfg: Config, rows: seq<Row>, after: seq<Row>, batches: seq<seq<nat>>)
    decreases |batches|
  {
    if batches == [] then after == rows
    else exists mid ::
      && UsedAttempt(cfg, rows, mid, batches[0]) && Quiet(cfg, mid)
      && Measure(cfg, rows) == Measure(cfg, mid) + |batches[0]|
      && UsedUp(cfg, mid, after, batches[1..])
  }

  lemma {:induction false} PollsUseUp(cfg: Config, rows: seq<Row>, l: L.Ledger, polls: seq<Poll>)
    requires Quiet(cfg, rows) && RefusedPolls(cfg, rows, l, polls)
    ensures UsedUp(cfg, rows, AfterPolls(cfg, rows, l, polls), Batches(polls))
    decreases |polls|
  {
    if polls != [] {
      PollRefused(cfg, rows, l, polls[0]);
      var out := AfterPoll(cfg, rows, l, polls[0]);
      PollsUseUp(cfg, out.rows, out.ledger, polls[1..]);
      assert Batches(polls)[1..] == Batches(polls[1..]);
    }
  }

  lemma GivesUpNext(cfg: Config, rows: seq<Row>, rows1: seq<Row>, ids: seq<nat>, k: nat)
    requires Quiet(cfg, rows) && UsedAttempt(cfg, rows, rows1, ids) && k < |rows|
    ensures Left(cfg, rows[k]) == Left(cfg, rows1[k]) + if k in ids then 1 else 0
    ensures rows1[k].status == Pending ==> rows[k].status == Pending
    ensures rows[k].status == Pending && rows1[k].status != Pending ==>
      rows1[k].status == Failed && k in ids && rows1[k].retryCount == cfg.maxAttempts
    ensures k !in ids ==> rows1[k] == rows[k]
  {
  }

  lemma {:induction false} UsedUpGivesUp(cfg: Config, rows: seq<Row>, after: seq<Row>, batches: seq<seq<nat>>, k: nat)
    requires Quiet(cfg, rows) && UsedUp(cfg, rows, after, batches) && k < |rows|
    ensures |after| == |rows| && Quiet(cfg, after)
    ensures TotalClaims(batches) + Measure(cfg, after) == Measure(cfg, rows)
    ensures ClaimsOf(batches, k) + Left(cfg, after[k]) == Left(cfg, rows[k])
    ensures rows[k].status == Pending ==>
      (after[k].status == Failed <==> ClaimsOf(batches, k) == cfg.maxAttempts - rows[k].retryCount)
    ensures Lease.Terminal(rows[k]) ==> after[k] == rows[k]
    decreases |batches|
  {
    if batches != [] {
      var mid :| && UsedAttempt(cfg, rows, mid, batches[0]) && Quiet(cfg, mid)
                 && Measure(cfg, rows) == Measure(cfg, mid) + |batches[0]|
                 && UsedUp(cfg, mid, after, batches[1..]);
      GivesUpNext(cfg, rows, mid, batches[0], k);
      UsedUpGivesUp(cfg, mid, after, batches[1..], k);
    }
  }

  /**
  Over any number of refused polls the claims use up the attempts the table has left, one each. A
  row is claimed at most as often as it has attempts left, and has failed exactly when it was.
  */
  lemma GivesUp(cfg: Config, rows: seq<Row>, l: L.Ledger, polls: seq<Poll>, k: nat)
    requires Quiet(cfg, rows) && RefusedPolls(cfg, rows, l, polls) && k < |rows|
    ensures var after := AfterPolls(cfg, rows, l, polls); var batches := Batches(polls);
      && |after| == |rows|
      && TotalClaims(batches) + Measure(cfg, after) == Measure(cfg, rows)
      && ClaimsOf(batches, k) <= Left(cfg, rows[k])
      && (rows[k].status == Pending ==>
           (after[k].status == Failed <==> ClaimsOf(batches, k) == cfg.maxAttempts - rows[k].retryCount))
  {
    PollsUseUp(cfg, rows, l, polls);
    UsedUpGivesUp(cfg, rows, AfterPolls(cfg, rows, l, polls), Batches(polls), k);
  }

}
