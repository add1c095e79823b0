/** The worker's code is a run of the protocol, under whatever hypotheses its clock and its fates meet. */
module WorkerRuns {
  import opened Options
  import opened Outbox
  import opened Protocol
  import opened LedgerClient
  import opened Runs
  import opened Worker
  import L = Ledger
  import Backoff

  /** The claims of one batch, `n` of them worked off, the last at this instant. */
  predicate InBatch(s: System, base: nat, pending: seq<Task>, n: nat) {
    && n <= |pending| && |s.holders| == base + |pending| && |s.expiries| == |s.rows|
    && (forall k :: base <= k < base + |pending| ==> MemberOf(s.holders[k], base, pending[k - base], k < base + n))
    && (n < |pending| ==> StartOf(s, base + n) == s.now)
  }

  predicate MemberOf(x: Holder, base: nat, task: Task, finished: bool) {
    && x.base == base && x.worker && x.row == task.id && x.attempt == task.row.retryCount
    && x.req == RequestOf(task.id, task.row.p) && x.phase == if finished then Finished else Claimed
  }

  /** What a hypothesis asks of one row's clock and fate. */
  predicate Meets(cfg: Config, hyp: set<Hypothesis>, from: int, task: Task, f: Fate, now: int) {
    && from <= now
    && (OnTime(hyp) ==> now <= from + cfg.perRowMs)
    && (Reliable in hyp ==> f.stored && (RetryOf(cfg, task, now).Some? ==> RetryOf(cfg, task, now).value.At?))
  }

  lemma BatchTurn(s: System, base: nat, pending: seq<Task>, n: nat)
    requires InBatch(s, base, pending, n) && n < |pending|
    ensures var h := base + n;
      h < |s.holders| && MemberOf(s.holders[h], base, pending[n], false) && Turn(s, h) && StartOf(s, h) == s.now
  {
    var h := base + n;
    assert MemberOf(s.holders[h], base, pending[h - base], false);
    if n > 0 { assert MemberOf(s.holders[h - 1], base, pending[h - 1 - base], true); }
  }

  /** The clock may move on by the time one row takes. */
  lemma MayTick(cfg: Config, hyp: set<Hypothesis>, s: System, base: nat, pending: seq<Task>, n: nat, now: int, until: int)
    requires InBatch(s, base, pending, n) && n < |pending| && s.now <= now <= until
    requires OnTime(hyp) ==> now <= s.now + cfg.perRowMs && OthersWait(cfg, s, base, until)
    ensures Allowed(cfg, hyp, s, Tick(now - s.now))
  {
    BatchTurn(s, base, pending, n);
    if OnTime(hyp) {
      forall h | 0 <= h < |s.holders| && Live(s.holders[h]) && Turn(s, h)
        ensures now <= StartOf(s, h) + cfg.perRowMs
      {
        if h >= base { OnlyTurn(s, base, pending, n, h); }
      }
    }
  }

  lemma OnlyTurn(s: System, base: nat, pending: seq<Task>, n: nat, h: nat)
    requires InBatch(s, base, pending, n) && base <= h < |s.holders| && Live(s.holders[h]) && Turn(s, h)
    ensures h == base + n
  {
    assert MemberOf(s.holders[h], base, pending[h - base], h < base + n);
    if h > base { assert MemberOf(s.holders[h - 1], base, pending[h - 1 - base], h - 1 < base + n); }
  }

  lemma Advances(s: System, t: System, base: nat, pending: seq<Task>, n: nat)
    requires InBatch(s, base, pending, n) && n < |pending| && |t.rows| == |s.rows| && t.expiries == s.expiries
    requires t.holders == s.holders[base + n := s.holders[base + n].(phase := Finished, doneAt := t.now)]
    ensures InBatch(t, base, pending, n + 1)
  {
    forall k | base <= k < base + |pending|
      ensures MemberOf(t.holders[k], base, pending[k - base], k < base + (n + 1))
    {
      assert MemberOf(s.holders[k], base, pending[k - base], k < base + n);
    }
    if n + 1 < |pending| {
      assert MemberOf(t.holders[base + n + 1], base, pending[n + 1], false);
      assert t.holders[base + n + 1].base == base;
    }
  }

  lemma OthersStay(cfg: Config, s: System, t: System, base: nat, until: int)
    requires OthersWait(cfg, s, base, until) && base <= |s.holders| && base <= |t.holders|
    requires forall h :: 0 <= h < base ==> t.holders[h] == s.holders[h]
    ensures OthersWait(cfg, t, base, until)
  {
  }

  lemma WrittenIsProcessed(cfg: Config, rows: seq<Row>, l: L.Ledger, x: Holder, base: nat, task: Task, f: Fate, now: int)
    requires MemberOf(x, base, task, false)
    requires ProcessOne(cfg, rows, l, task, f, now).running
    ensures var (l1, ok) := PostVia(l, x.req, f.call);
      var lost := !Recorded(cfg, x, ok, f, now);
      && MayWrite(cfg, x, ok, lost, now)
      && ProcessOne(cfg, rows, l, task, f, now)
           == Progress(if lost then rows else WrittenBack(cfg, rows, x, ok, Reason(f.call), now), l1, true)
  {
  }

  /** The outcome reaches the table. */
  predicate Recorded(cfg: Config, x: Holder, ok: bool, f: Fate, now: int) {
    && f.stored
    && (!ok && x.attempt < cfg.maxAttempts ==>
         Backoff.RetryTimeAt(x.attempt, cfg.baseMs, cfg.maxMs, now).At?)
  }

  /** The state after the row: the batch goes on, or the worker has stopped. */
  ghost predicate Follows(cfg: Config, hyp: set<Hypothesis>, t: System, base: nat, pending: seq<Task>, n: nat, until: int) {
    && InBatch(t, base, pending, n) && (OnTime(hyp) ==> OthersWait(cfg, t, base, until))
  }

  /** Posting one row of the batch takes a handful of protocol steps. */
  lemma OneIsRun(
    cfg: Config, hyp: set<Hypothesis>, s: System, base: nat, pending: seq<Task>, n: nat, f: Fate, now: int, until: int)
    returns (steps: seq<Step>, t: System)
    requires Follows(cfg, hyp, s, base, pending, n, until) && n < |pending| && now <= until
    requires Meets(cfg, hyp, s.now, pending[n], f, now)
    ensures Legal(cfg, hyp, s, steps) && Run(cfg, hyp, s, steps) == t
    ensures var out := ProcessOne(cfg, s.rows, s.ledger, pending[n], f, now);
      && t.rows == out.rows && t.ledger == out.ledger && t.now == now
      && (out.running ==> Follows(cfg, hyp, t, base, pending, n + 1, until))
  {
    var h := base + n;
    var later: System;
    steps, later := Waited(cfg, hyp, s, base, pending, n, now, until);
    if ProcessOne(cfg, s.rows, s.ledger, pending[n], f, now).running {
      steps, t := FinishesRow(cfg, hyp, s, steps, later, h, base, pending[n], f);
      FollowsOn(cfg, hyp, s, t, base, pending, n, until);
    } else {
      steps, t := StopsAtRow(cfg, hyp, s, steps, later, h, f.call);
    }
  }

  lemma Waited(
    cfg: Config, hyp: set<Hypothesis>, s: System, base: nat, pending: seq<Task>, n: nat, now: int, until: int)
    returns (steps: seq<Step>, t: System)
    requires Follows(cfg, hyp, s, base, pending, n, until) && n < |pending| && s.now <= now <= until
    requires OnTime(hyp) ==> now <= s.now + cfg.perRowMs
    ensures Legal(cfg, hyp, s, steps) && Run(cfg, hyp, s, steps) == t && t == s.(now := now)
    ensures base + n < |t.holders| && MemberOf(t.holders[base + n], base, pending[n], false) && Turn(t, base + n)
  {
    BatchTurn(s, base, pending, n);
    MayTick(cfg, hyp, s, base, pending, n, now, until);
    steps, t := Next(cfg, hyp, s, [], s, Tick(now - s.now));
  }

  lemma FollowsOn(
    cfg: Config, hyp: set<Hypothesis>, s: System, t: System, base: nat, pending: seq<Task>, n: nat, until: int)
    requires Follows(cfg, hyp, s, base, pending, n, until) && n < |pending|
    requires |t.rows| == |s.rows| && t.expiries == s.expiries
    requires t.holders == s.holders[base + n := s.holders[base + n].(phase := Finished, doneAt := t.now)]
    ensures Follows(cfg, hyp, t, base, pending, n + 1, until)
  {
    Advances(s, t, base, pending, n);
    if OnTime(hyp) { OthersStay(cfg, s, t, base, until); }
  }

  lemma FinishesRow(
    cfg: Config, hyp: set<Hypothesis>, s0: System, steps: seq<Step>, s: System, h: nat, base: nat, task: Task, f: Fate)
    returns (more: seq<Step>, t: System)
    requires Legal(cfg, hyp, s0, steps) && Run(cfg, hyp, s0, steps) == s
    requires |s.expiries| == |s.rows| && h < |s.holders| && MemberOf(s.holders[h], base, task, false) && Turn(s, h)
    requires ProcessOne(cfg, s.rows, s.ledger, task, f, s.now).running
    requires Reliable in hyp ==> f.stored && (RetryOf(cfg, task, s.now).Some? ==> RetryOf(cfg, task, s.now).value.At?)
    ensures Legal(cfg, hyp, s0, more) && Run(cfg, hyp, s0, more) == t
    ensures var out := ProcessOne(cfg, s.rows, s.ledger, task, f, s.now);
      t.rows == out.rows && t.ledger == out.ledger && t.now == s.now && |t.rows| == |s.rows|
    ensures t.expiries == s.expiries
    ensures t.holders == s.holders[h := s.holders[h].(phase := Finished, doneAt := s.now)]
  {
    var x := s.holders[h];
    var ok := PostVia(s.ledger, x.req, f.call).1;
    WrittenIsProcessed(cfg, s.rows, s.ledger, x, base, task, f, s.now);
    more, t := FinishHolder(cfg, hyp, s0, steps, s, h, f.call, !Recorded(cfg, x, ok, f, s.now), Reason(f.call));
  }

  /** The call fails, the retry time is no instant, and the rest of the batch dies with the holder. */
  lemma StopsAtRow(cfg: Config, hyp: set<Hypothesis>, s0: System, steps: seq<Step>, s: System, h: nat, d: Delivery)
    returns (more: seq<Step>, t: System)
    requires Legal(cfg, hyp, s0, steps) && Run(cfg, hyp, s0, steps) == s && Reliable !in hyp
    requires |s.expiries| == |s.rows| && h < |s.holders| && s.holders[h].phase == Claimed && Turn(s, h)
    ensures Legal(cfg, hyp, s0, more) && Run(cfg, hyp, s0, more) == t
    ensures t.rows == s.rows && t.ledger == PostVia(s.ledger, s.holders[h].req, d).0 && t.now == s.now
  {
    var called: System;
    var ok := PostVia(s.ledger, s.holders[h].req, d).1;
    more, called := CallHolder(cfg, hyp, s0, steps, s, h, d);
    assert Live(called.holders[h]) by { assert called.holders[h].phase == Answered(ok); }
    more, t := Next(cfg, hyp, s0, more, called, Crash(h));
  }

  /** Every row of the batch meets the hypotheses, each from the instant the one before it was done. */
  predicate BatchMeets(
    cfg: Config, hyp: set<Hypothesis>, from: int, pending: seq<Task>, net: seq<Fate>, clock: seq<int>, until: int)
    requires |pending| == |net| == |clock|
  {
    forall i :: 0 <= i < |pending| ==>
      clock[i] <= until && Meets(cfg, hyp, Before(from, clock, i), pending[i], net[i], clock[i])
  }

  function Before(from: int, clock: seq<int>, i: nat): int
    requires i <= |clock|
  {
    if i == 0 then from else clock[i - 1]
  }

  lemma {:induction false} ProcessedIsRun(
    cfg: Config, hyp: set<Hypothesis>, s: System, base: nat, pending: seq<Task>, net: seq<Fate>, clock: seq<int>,
    n: nat, until: int)
    returns (steps: seq<Step>, t: System)
    requires n <= |pending| == |net| == |clock| && Follows(cfg, hyp, s, base, pending, 0, until)
    requires BatchMeets(cfg, hyp, s.now, pending, net, clock, until)
    ensures Legal(cfg, hyp, s, steps) && Run(cfg, hyp, s, steps) == t
    ensures var out := Processed(cfg, s.rows, s.ledger, pending, net, clock, n);
      && t.rows == out.rows && t.ledger == out.ledger
      && (out.running ==>
           Follows(cfg, hyp, t, base, pending, n, until) && t.now == Before(s.now, clock, n))
  {
    if n == 0 {
      steps, t := [], s;
    } else {
      var first, mid := ProcessedIsRun(cfg, hyp, s, base, pending, net, clock, n - 1, until);
      assert Meets(cfg, hyp, Before(s.now, clock, n - 1), pending[n - 1], net[n - 1], clock[n - 1]);
      steps, t := OneMore(cfg, hyp, s, base, pending, net, clock, n - 1, until, first, mid);
    }
  }

  lemma OneMore(
    cfg: Config, hyp: set<Hypothesis>, s: System, base: nat, pending: seq<Task>, net: seq<Fate>, clock: seq<int>,
    n: nat, until: int, first: seq<Step>, mid: System)
    returns (steps: seq<Step>, t: System)
    requires n < |pending| == |net| == |clock| && Legal(cfg, hyp, s, first) && Run(cfg, hyp, s, first) == mid
    requires var done := Processed(cfg, s.rows, s.ledger, pending, net, clock, n);
      && mid.rows == done.rows && mid.ledger == done.ledger
      && (done.running ==> Follows(cfg, hyp, mid, base, pending, n, until) && mid.now == Before(s.now, clock, n))
    requires clock[n] <= until && Meets(cfg, hyp, Before(s.now, clock, n), pending[n], net[n], clock[n])
    ensures Legal(cfg, hyp, s, steps) && Run(cfg, hyp, s, steps) == t
    ensures var out := Processed(cfg, s.rows, s.ledger, pending, net, clock, n + 1);
      && t.rows == out.rows && t.ledger == out.ledger
      && (out.running ==> Follows(cfg, hyp, t, base, pending, n + 1, until) && t.now == clock[n])
  {
    var done := Processed(cfg, s.rows, s.ledger, pending, net, clock, n);
    ProcessedNext(cfg, s.rows, s.ledger, pending, net, clock, n, done);
    if done.running {
      var last: seq<Step>;
      last, t := OneIsRun(cfg, hyp, mid, base, pending, n, net[n], clock[n], until);
      Chain(cfg, hyp, s, first, last);
      steps := first + last;
    } else {
      steps, t := first, mid;
    }
  }

  /**
  A whole poll of the worker, from any state of the system, is a run of the protocol, legal under
  every hypothesis its clock and fates meet: with a bound on the time a row takes it is a paced run,
  with a batch that fits into the lease a timely one, with every outcome stored a reliable one. So
  what the protocol theorems say of such runs holds of the worker.
  */
  lemma PollIsRun(cfg: Config, hyp: set<Hypothesis>, s: System, ids: seq<nat>, net: seq<Fate>, clock: seq<int>, until: int)
    returns (steps: seq<Step>)
    requires |s.expiries| == |s.rows| && |ids| == |net| == |clock|
    requires OldestEligible(Reclaim(s.rows, s.now, cfg.staleSecs, None), ids, s.now, cfg.olderSecs, cfg.limit, None)
    requires OnTime(hyp) ==> OthersWait(cfg, s, |s.holders|, until)
    requires Timely in hyp ==> |ids| * cfg.perRowMs <= Millis(cfg.staleSecs)
    requires var claimed := ClaimAll(Reclaim(s.rows, s.now, cfg.staleSecs, None), ids, s.now);
      BatchMeets(cfg, hyp, s.now, TasksOf(claimed, ids), net, clock, until)
    ensures Legal(cfg, hyp, s, steps)
    ensures var t := Run(cfg, hyp, s, steps);
      var claimed := ClaimAll(Reclaim(s.rows, s.now, cfg.staleSecs, None), ids, s.now);
      var out := Processed(cfg, claimed, s.ledger, TasksOf(claimed, ids), net, clock, |ids|);
      t.rows == out.rows && t.ledger == out.ledger
  {
    var s2: System, t: System, rest: seq<Step>;
    steps, s2 := PollClaims(cfg, hyp, s, ids, until);
    rest, t := ProcessedIsRun(cfg, hyp, s2, |s.holders|, TasksOf(s2.rows, ids), net, clock, |ids|, until);
    Chain(cfg, hyp, s, steps, rest);
    steps := steps + rest;
  }

  /** The two statements a poll starts with. */
  lemma PollClaims(cfg: Config, hyp: set<Hypothesis>, s: System, ids: seq<nat>, until: int)
    returns (steps: seq<Step>, t: System)
    requires |s.expiries| == |s.rows|
    requires OldestEligible(Reclaim(s.rows, s.now, cfg.staleSecs, None), ids, s.now, cfg.olderSecs, cfg.limit, None)
    requires OnTime(hyp) ==> OthersWait(cfg, s, |s.holders|, until)
    requires Timely in hyp ==> |ids| * cfg.perRowMs <= Millis(cfg.staleSecs)
    ensures Legal(cfg, hyp, s, steps) && Run(cfg, hyp, s, steps) == t
    ensures t.rows == ClaimAll(Reclaim(s.rows, s.now, cfg.staleSecs, None), ids, s.now)
    ensures t.ledger == s.ledger && t.now == s.now && forall i :: 0 <= i < |ids| ==> ids[i] < |t.rows|
    ensures Follows(cfg, hyp, t, |s.holders|, TasksOf(t.rows, ids), 0, until)
  {
    var s1: System;
    steps, s1 := Next(cfg, hyp, s, [], s, WorkerReclaim(None));
    assert s1.rows == Reclaim(s.rows, s.now, cfg.staleSecs, None) && s1.holders == s.holders;
    steps, t := ClaimStep(cfg, hyp, s, steps, s1, ids, until);
  }

  lemma ClaimStep(cfg: Config, hyp: set<Hypothesis>, s0: System, steps: seq<Step>, s: System, ids: seq<nat>, until: int)
    returns (more: seq<Step>, t: System)
    requires Legal(cfg, hyp, s0, steps) && Run(cfg, hyp, s0, steps) == s && |s.expiries| == |s.rows|
    requires OldestEligible(s.rows, ids, s.now, cfg.olderSecs, cfg.limit, None)
    requires OnTime(hyp) ==> OthersWait(cfg, s, |s.holders|, until)
    requires Timely in hyp ==> |ids| * cfg.perRowMs <= Millis(cfg.staleSecs)
    ensures Legal(cfg, hyp, s0, more) && Run(cfg, hyp, s0, more) == t
    ensures t.rows == ClaimAll(s.rows, ids, s.now) && t.ledger == s.ledger && t.now == s.now
    ensures forall i :: 0 <= i < |ids| ==> ids[i] < |t.rows|
    ensures Follows(cfg, hyp, t, |s.holders|, TasksOf(t.rows, ids), 0, until)
  {
    more, t := Next(cfg, hyp, s0, steps, s, WorkerClaim(ids, None));
    BatchStarts(cfg, s, ids);
    if OnTime(hyp) { OthersStay(cfg, s, t, |s.holders|, until); }
  }

  lemma BatchStarts(cfg: Config, s: System, ids: seq<nat>)
    requires Enabled(cfg, s, WorkerClaim(ids, None))
    ensures var t := Apply(cfg, s, WorkerClaim(ids, None)); InBatch(t, |s.holders|, TasksOf(t.rows, ids), 0)
  {
    var t := Apply(cfg, s, WorkerClaim(ids, None));
    NewBatch(t, s.holders, ids);
  }

  lemma NewBatch(t: System, before: seq<Holder>, ids: seq<nat>)
    requires |t.expiries| == |t.rows| && forall i :: 0 <= i < |ids| ==> ids[i] < |t.rows|
    requires t.holders == before + NewHolders(t.rows, ids, t.now, |before|)
    ensures InBatch(t, |before|, TasksOf(t.rows, ids), 0)
  {
    var base := |before|;
    forall k | base <= k < base + |ids| ensures MemberOf(t.holders[k], base, TasksOf(t.rows, ids)[k - base], false) {
      assert t.holders[k] == NewHolders(t.rows, ids, t.now, base)[k - base];
    }
    if |ids| > 0 { assert t.holders[base] == NewHolders(t.rows, ids, t.now, base)[0]; }
  }

}
